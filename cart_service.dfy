/**
 * Services/CartService.cs: the cart table keyed by session id.
 *
 * The functions below give the table after each operation; the class
 * `CartService` performs the operations on the datastore and is proved to
 * leave exactly that table behind. The lemmas state what the operations
 * promise: merge on add with the quantity clamped to at least one, removal only
 * of the caller's own row, clearing of exactly one session, and the table
 * invariant (one row per (session, product), every quantity positive).
 */
module CartService {
  import opened Models
  import opened ShopData

  // ---------------------------------------------------------------------------
  // Queries
  // ---------------------------------------------------------------------------

  /** `Math.Max(1, quantity)`. */
  function ClampQuantity(quantity: int): (q: int)
    ensures q >= 1 && q >= quantity
    ensures q == 1 || q == quantity
  {
    if quantity < 1 then 1 else quantity
  }

  /** `Where(ci => ci.SessionId == sessionId)`, in table order. */
  function SessionRows(rows: seq<CartItem>, sessionId: string): (r: seq<CartItem>)
    ensures forall x :: x in r <==> x in rows && x.sessionId == sessionId
    ensures |r| <= |rows|
  {
    if rows == [] then []
    else if rows[0].sessionId == sessionId then [rows[0]] + SessionRows(rows[1..], sessionId)
    else SessionRows(rows[1..], sessionId)
  }

  /** The first row for (sessionId, productId), as FirstOrDefaultAsync finds it. */
  function IndexOfPair(rows: seq<CartItem>, sessionId: string, productId: int): (k: Option<nat>)
    ensures k.Some? ==> k.value < |rows| && rows[k.value].sessionId == sessionId && rows[k.value].productId == productId
    ensures k.None? ==> forall j :: 0 <= j < |rows| ==> !(rows[j].sessionId == sessionId && rows[j].productId == productId)
  {
    if rows == [] then None
    else if rows[0].sessionId == sessionId && rows[0].productId == productId then Some(0)
    else match IndexOfPair(rows[1..], sessionId, productId)
      case None => None
      case Some(k) => Some(k + 1)
  }

  /** The first row with key `cartItemId` that belongs to `sessionId`. */
  function IndexOfOwnedRow(rows: seq<CartItem>, sessionId: string, cartItemId: int): (k: Option<nat>)
    ensures k.Some? ==> k.value < |rows| && rows[k.value].id == cartItemId && rows[k.value].sessionId == sessionId
    ensures k.None? ==> forall j :: 0 <= j < |rows| ==> !(rows[j].id == cartItemId && rows[j].sessionId == sessionId)
  {
    if rows == [] then None
    else if rows[0].id == cartItemId && rows[0].sessionId == sessionId then Some(0)
    else match IndexOfOwnedRow(rows[1..], sessionId, cartItemId)
      case None => None
      case Some(k) => Some(k + 1)
  }

  /** The number of units of `productId` in the cart of `sessionId`, over all its rows. */
  function QuantityOf(rows: seq<CartItem>, sessionId: string, productId: int): int {
    if rows == [] then 0
    else (if rows[0].sessionId == sessionId && rows[0].productId == productId then rows[0].quantity else 0)
         + QuantityOf(rows[1..], sessionId, productId)
  }

  // ---------------------------------------------------------------------------
  // The table after each operation
  // ---------------------------------------------------------------------------

  /** AddToCartAsync: increment the existing row, or append a new row with key `freshId`. */
  function AddRows(rows: seq<CartItem>, sessionId: string, productId: int, quantity: int, freshId: int): seq<CartItem> {
    var q := ClampQuantity(quantity);
    match IndexOfPair(rows, sessionId, productId)
    case None => rows + [CartItem(freshId, productId, q, sessionId)]
    case Some(k) => rows[k := rows[k].(quantity := rows[k].quantity + q)]
  }

  /** RemoveFromCartAsync: delete the caller's row with that key, if there is one. */
  function RemoveRow(rows: seq<CartItem>, sessionId: string, cartItemId: int): seq<CartItem> {
    match IndexOfOwnedRow(rows, sessionId, cartItemId)
    case None => rows
    case Some(k) => rows[..k] + rows[k + 1..]
  }

  /** ClearCartAsync: delete every row of the session. */
  function ClearRows(rows: seq<CartItem>, sessionId: string): (r: seq<CartItem>)
    ensures forall x :: x in r <==> x in rows && x.sessionId != sessionId
    ensures |r| <= |rows|
  {
    if rows == [] then []
    else if rows[0].sessionId == sessionId then ClearRows(rows[1..], sessionId)
    else [rows[0]] + ClearRows(rows[1..], sessionId)
  }

  // ---------------------------------------------------------------------------
  // Helper facts about concatenation
  // ---------------------------------------------------------------------------

  lemma {:induction false} SessionRowsAppend(a: seq<CartItem>, b: seq<CartItem>, sessionId: string)
    ensures SessionRows(a + b, sessionId) == SessionRows(a, sessionId) + SessionRows(b, sessionId)
  {
    if a == [] {
      assert a + b == b;
    } else {
      assert (a + b)[0] == a[0];
      assert (a + b)[1..] == a[1..] + b;
      SessionRowsAppend(a[1..], b, sessionId);
    }
  }

  lemma {:induction false} QuantityOfAppend(a: seq<CartItem>, b: seq<CartItem>, sessionId: string, productId: int)
    ensures QuantityOf(a + b, sessionId, productId) == QuantityOf(a, sessionId, productId) + QuantityOf(b, sessionId, productId)
  {
    if a == [] {
      assert a + b == b;
    } else {
      assert (a + b)[0] == a[0];
      assert (a + b)[1..] == a[1..] + b;
      QuantityOfAppend(a[1..], b, sessionId, productId);
    }
  }

  lemma {:induction false} ClearRowsAppend(a: seq<CartItem>, b: seq<CartItem>, sessionId: string)
    ensures ClearRows(a + b, sessionId) == ClearRows(a, sessionId) + ClearRows(b, sessionId)
  {
    if a == [] {
      assert a + b == b;
    } else {
      assert (a + b)[0] == a[0];
      assert (a + b)[1..] == a[1..] + b;
      ClearRowsAppend(a[1..], b, sessionId);
    }
  }

  lemma Split(rows: seq<CartItem>, k: nat)
    requires k < |rows|
    ensures rows == rows[..k] + [rows[k]] + rows[k + 1..]
  {
  }

  lemma UniqueCons(x: CartItem, t: seq<CartItem>)
    requires UniquePairs(t)
    requires forall y :: y in t ==> !SamePair(x, y)
    ensures UniquePairs([x] + t)
  {
    var r := [x] + t;
    forall i, j | 0 <= i < j < |r|
      ensures !SamePair(r[i], r[j])
    {
      assert r[j] == t[j - 1];
      if i > 0 {
        assert r[i] == t[i - 1];
      }
    }
  }

  lemma PositiveMembers(t: seq<CartItem>, rows: seq<CartItem>)
    requires PositiveQuantities(rows)
    requires forall x :: x in t ==> x in rows
    ensures PositiveQuantities(t)
  {
    forall i | 0 <= i < |t|
      ensures t[i].quantity >= 1
    {
      assert t[i] in rows;
    }
  }

  // ---------------------------------------------------------------------------
  // Add
  // ---------------------------------------------------------------------------

  /**
   * Add raises the caller's quantity of the product by max(1, quantity) and
   * changes no other (session, product) quantity: zero and negative requests add one.
   */
  lemma AddRaisesQuantityByClamp(rows: seq<CartItem>, sessionId: string, productId: int, quantity: int, freshId: int,
                                 s: string, p: int)
    ensures QuantityOf(AddRows(rows, sessionId, productId, quantity, freshId), s, p)
         == QuantityOf(rows, s, p) + (if s == sessionId && p == productId then ClampQuantity(quantity) else 0)
  {
    var q := ClampQuantity(quantity);
    var x := CartItem(freshId, productId, q, sessionId);
    match IndexOfPair(rows, sessionId, productId)
    case None =>
      QuantityOfAppend(rows, [x], s, p);
      assert [x][1..] == [];
    case Some(k) =>
      var y := rows[k].(quantity := rows[k].quantity + q);
      var after := rows[k := y];
      Split(rows, k);
      assert after == rows[..k] + [y] + rows[k + 1..];
      QuantityOfAppend(rows[..k] + [rows[k]], rows[k + 1..], s, p);
      QuantityOfAppend(rows[..k], [rows[k]], s, p);
      QuantityOfAppend(rows[..k] + [y], rows[k + 1..], s, p);
      QuantityOfAppend(rows[..k], [y], s, p);
      assert [y][1..] == [] && [rows[k]][1..] == [];
  }

  /** On a pair that already has a row, Add increments that row in place and creates none. */
  lemma AddMergesIntoExistingRow(rows: seq<CartItem>, sessionId: string, productId: int, quantity: int, freshId: int)
    requires WellFormedCart(rows)
    requires exists j :: 0 <= j < |rows| && rows[j].sessionId == sessionId && rows[j].productId == productId
    ensures var after := AddRows(rows, sessionId, productId, quantity, freshId);
            && |after| == |rows|
            && forall j :: 0 <= j < |rows| ==>
                 && after[j].id == rows[j].id
                 && after[j].sessionId == rows[j].sessionId
                 && after[j].productId == rows[j].productId
                 && after[j].quantity == rows[j].quantity
                      + (if rows[j].sessionId == sessionId && rows[j].productId == productId then ClampQuantity(quantity) else 0)
  {
    var j0 :| 0 <= j0 < |rows| && rows[j0].sessionId == sessionId && rows[j0].productId == productId;
    var k := IndexOfPair(rows, sessionId, productId).value;
    assert j0 == k by {
      if j0 != k {
        assert SamePair(rows[j0], rows[k]);
      }
    }
  }

  /** On a pair without a row, Add appends exactly one row holding the clamped quantity. */
  lemma AddAppendsNewRow(rows: seq<CartItem>, sessionId: string, productId: int, quantity: int, freshId: int)
    requires forall j :: 0 <= j < |rows| ==> !(rows[j].sessionId == sessionId && rows[j].productId == productId)
    ensures AddRows(rows, sessionId, productId, quantity, freshId)
         == rows + [CartItem(freshId, productId, ClampQuantity(quantity), sessionId)]
  {
  }

  /** Add keeps one row per (session, product) and every quantity positive. */
  lemma AddKeepsWellFormed(rows: seq<CartItem>, sessionId: string, productId: int, quantity: int, freshId: int)
    requires WellFormedCart(rows)
    ensures WellFormedCart(AddRows(rows, sessionId, productId, quantity, freshId))
  {
    var after := AddRows(rows, sessionId, productId, quantity, freshId);
    match IndexOfPair(rows, sessionId, productId)
    case None =>
      forall i, j | 0 <= i < j < |after|
        ensures !SamePair(after[i], after[j])
      {
        if j == |rows| {
          assert after[i] == rows[i];
        } else {
          assert after[i] == rows[i] && after[j] == rows[j];
        }
      }
    case Some(k) =>
      forall i, j | 0 <= i < j < |after|
        ensures !SamePair(after[i], after[j])
      {
        assert SamePair(after[i], rows[i]) && SamePair(after[j], rows[j]);
      }
  }

  /** Add touches only the caller's cart. */
  lemma AddLeavesOtherSessions(rows: seq<CartItem>, sessionId: string, productId: int, quantity: int, freshId: int,
                               other: string)
    requires other != sessionId
    ensures SessionRows(AddRows(rows, sessionId, productId, quantity, freshId), other) == SessionRows(rows, other)
  {
    var q := ClampQuantity(quantity);
    var x := CartItem(freshId, productId, q, sessionId);
    match IndexOfPair(rows, sessionId, productId)
    case None =>
      SessionRowsAppend(rows, [x], other);
      assert [x][1..] == [];
    case Some(k) =>
      SessionRowsUpdate(rows, k, rows[k].(quantity := rows[k].quantity + q), other);
  }

  /** Rewriting a row of another session leaves a session's rows alone. */
  lemma {:induction false} SessionRowsUpdate(rows: seq<CartItem>, k: nat, y: CartItem, other: string)
    requires k < |rows| && rows[k].sessionId != other && y.sessionId != other
    ensures SessionRows(rows[k := y], other) == SessionRows(rows, other)
  {
    if k > 0 {
      assert rows[k := y][1..] == rows[1..][k - 1 := y];
      SessionRowsUpdate(rows[1..], k - 1, y, other);
    } else {
      assert rows[k := y][1..] == rows[1..];
    }
  }

  // ---------------------------------------------------------------------------
  // Remove
  // ---------------------------------------------------------------------------

  /**
   * Remove deletes one row exactly when its key and its session both match;
   * an unknown key, or a key owned by another session, leaves the table as it was.
   */
  lemma RemoveDeletesOnlyOwnedRow(rows: seq<CartItem>, sessionId: string, cartItemId: int)
    ensures var after := RemoveRow(rows, sessionId, cartItemId);
            if exists j :: 0 <= j < |rows| && rows[j].id == cartItemId && rows[j].sessionId == sessionId
            then |after| == |rows| - 1
                 && exists k :: 0 <= k < |rows| && rows[k].id == cartItemId && rows[k].sessionId == sessionId
                                && multiset(after) == multiset(rows) - multiset{rows[k]}
            else after == rows
  {
    match IndexOfOwnedRow(rows, sessionId, cartItemId)
    case None =>
    case Some(k) =>
      Split(rows, k);
      assert multiset(rows) == multiset(rows[..k]) + multiset{rows[k]} + multiset(rows[k + 1..]);
  }

  /** Remove keeps one row per (session, product) and every quantity positive. */
  lemma RemoveKeepsWellFormed(rows: seq<CartItem>, sessionId: string, cartItemId: int)
    requires WellFormedCart(rows)
    ensures WellFormedCart(RemoveRow(rows, sessionId, cartItemId))
  {
    match IndexOfOwnedRow(rows, sessionId, cartItemId)
    case None =>
    case Some(k) =>
      var after := rows[..k] + rows[k + 1..];
      forall i | 0 <= i < |after|
        ensures after[i] == rows[if i < k then i else i + 1]
      {
      }
  }

  /** Remove touches only the caller's cart. */
  lemma RemoveLeavesOtherSessions(rows: seq<CartItem>, sessionId: string, cartItemId: int, other: string)
    requires other != sessionId
    ensures SessionRows(RemoveRow(rows, sessionId, cartItemId), other) == SessionRows(rows, other)
  {
    match IndexOfOwnedRow(rows, sessionId, cartItemId)
    case None =>
    case Some(k) =>
      SessionRowsWithout(rows, k, other);
  }

  /** Taking out a row of another session leaves a session's rows as they were. */
  lemma {:induction false} SessionRowsWithout(rows: seq<CartItem>, k: nat, other: string)
    requires k < |rows| && rows[k].sessionId != other
    ensures SessionRows(rows[..k] + rows[k + 1..], other) == SessionRows(rows, other)
  {
    var after := rows[..k] + rows[k + 1..];
    if k == 0 {
      assert after == rows[1..];
    } else {
      assert after[0] == rows[0];
      assert after[1..] == rows[1..][..k - 1] + rows[1..][k..];
      SessionRowsWithout(rows[1..], k - 1, other);
    }
  }

  // ---------------------------------------------------------------------------
  // Clear
  // ---------------------------------------------------------------------------

  /** After Clear the session has no rows, and every other session keeps exactly its rows. */
  lemma {:induction false} ClearRemovesExactlyTheSession(rows: seq<CartItem>, sessionId: string, other: string)
    ensures SessionRows(ClearRows(rows, sessionId), sessionId) == []
    ensures other != sessionId ==> SessionRows(ClearRows(rows, sessionId), other) == SessionRows(rows, other)
  {
    if rows != [] {
      ClearRemovesExactlyTheSession(rows[1..], sessionId, other);
      if rows[0].sessionId != sessionId {
        var t := ClearRows(rows[1..], sessionId);
        assert ([rows[0]] + t)[1..] == t;
      }
    }
  }

  /** Clearing a session with no rows changes nothing. */
  lemma {:induction false} ClearWithoutRowsChangesNothing(rows: seq<CartItem>, sessionId: string)
    requires SessionRows(rows, sessionId) == []
    ensures ClearRows(rows, sessionId) == rows
  {
    if rows != [] {
      assert rows[0] !in SessionRows(rows, sessionId);
      assert SessionRows(rows[1..], sessionId) == [];
      ClearWithoutRowsChangesNothing(rows[1..], sessionId);
    }
  }

  /** Clearing twice is clearing once. */
  lemma ClearIsIdempotent(rows: seq<CartItem>, sessionId: string)
    ensures ClearRows(ClearRows(rows, sessionId), sessionId) == ClearRows(rows, sessionId)
  {
    ClearRemovesExactlyTheSession(rows, sessionId, sessionId);
    ClearWithoutRowsChangesNothing(ClearRows(rows, sessionId), sessionId);
  }

  /** Clear keeps one row per (session, product) and every quantity positive. */
  lemma {:induction false} ClearKeepsWellFormed(rows: seq<CartItem>, sessionId: string)
    requires WellFormedCart(rows)
    ensures WellFormedCart(ClearRows(rows, sessionId))
  {
    if rows != [] {
      var tail := rows[1..];
      assert UniquePairs(tail) by {
        forall i, j | 0 <= i < j < |tail|
          ensures !SamePair(tail[i], tail[j])
        {
          assert tail[i] == rows[i + 1] && tail[j] == rows[j + 1];
        }
      }
      PositiveMembers(tail, rows);
      ClearKeepsWellFormed(tail, sessionId);
      if rows[0].sessionId != sessionId {
        var t := ClearRows(tail, sessionId);
        forall y | y in t
          ensures !SamePair(rows[0], y)
        {
          var j :| 0 <= j < |tail| && tail[j] == y;
          assert rows[j + 1] == y;
        }
        UniqueCons(rows[0], t);
        PositiveMembers([rows[0]] + t, rows);
      }
    }
  }

  // ---------------------------------------------------------------------------
  // The service over the datastore
  // ---------------------------------------------------------------------------

  class CartService {
    const db: ShopDbContext

    constructor (db: ShopDbContext)
      ensures this.db == db
    {
      this.db := db;
    }

    /** GetCartItemsAsync: the session's rows, in table order. */
    method GetCartItems(sessionId: string) returns (items: seq<CartItem>)
      ensures forall x :: x in items <==> x in db.cartItems && x.sessionId == sessionId
      ensures items == SessionRows(db.cartItems, sessionId)
    {
      items := SessionRows(db.cartItems, sessionId);
    }

    /** AddToCartAsync. */
    method AddToCart(sessionId: string, productId: int, quantity: int)
      requires db.Valid()
      modifies db`cartItems, db`nextCartItemId
      ensures db.Valid()
      ensures db.cartItems == AddRows(old(db.cartItems), sessionId, productId, quantity, old(db.nextCartItemId))
      ensures db.nextCartItemId
           == old(db.nextCartItemId) + (if IndexOfPair(old(db.cartItems), sessionId, productId).None? then 1 else 0)
    {
      AddKeepsWellFormed(db.cartItems, sessionId, productId, quantity, db.nextCartItemId);
      var q := ClampQuantity(quantity);
      var found := IndexOfPair(db.cartItems, sessionId, productId);
      if found.None? {
        db.cartItems := db.cartItems + [CartItem(db.nextCartItemId, productId, q, sessionId)];
        db.nextCartItemId := db.nextCartItemId + 1;
      } else {
        var item := db.cartItems[found.value];
        db.cartItems := db.cartItems[found.value := item.(quantity := item.quantity + q)];
      }
    }

    /** RemoveFromCartAsync. */
    method RemoveFromCart(sessionId: string, cartItemId: int)
      requires db.Valid()
      modifies db`cartItems
      ensures db.Valid()
      ensures db.cartItems == RemoveRow(old(db.cartItems), sessionId, cartItemId)
    {
      RemoveKeepsWellFormed(db.cartItems, sessionId, cartItemId);
      var found := IndexOfOwnedRow(db.cartItems, sessionId, cartItemId);
      if found.Some? {
        var k := found.value;
        db.cartItems := db.cartItems[..k] + db.cartItems[k + 1..];
      }
    }

    /** ClearCartAsync: saves only when the session has rows. */
    method ClearCart(sessionId: string)
      requires db.Valid()
      modifies db`cartItems
      ensures db.Valid()
      ensures db.cartItems == ClearRows(old(db.cartItems), sessionId)
    {
      ClearKeepsWellFormed(db.cartItems, sessionId);
      var items := SessionRows(db.cartItems, sessionId);
      if |items| > 0 {
        db.cartItems := ClearRows(db.cartItems, sessionId);
      } else {
        ClearWithoutRowsChangesNothing(db.cartItems, sessionId);
      }
    }
  }
}
