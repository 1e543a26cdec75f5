/**
 * The product queries of Services/ProductService.cs over the products table:
 * all products ordered by name, lookup by id, and the products of one category
 * ordered by name.
 *
 * `OrderBy(p => p.Name)` is translated to an SQL ORDER BY, which fixes no
 * order among products of equal name. The model sorts under ordinal (code
 * point by code point) comparison of names and keeps ties in table order:
 * one of the orders the database may return.
 */
module ProductService {
  import opened Models

  // ---------------------------------------------------------------------------
  // Lookup by primary key
  // ---------------------------------------------------------------------------

  /** The position of the first product with key `id`, as FirstOrDefaultAsync/FindAsync find it. */
  function IndexOfProduct(products: seq<Product>, id: int): (k: Option<nat>)
    ensures k.Some? ==> k.value < |products| && products[k.value].id == id
    ensures k.Some? ==> forall j :: 0 <= j < k.value ==> products[j].id != id
    ensures k.None? ==> forall j :: 0 <= j < |products| ==> products[j].id != id
  {
    if products == [] then None
    else if products[0].id == id then Some(0)
    else match IndexOfProduct(products[1..], id)
      case None => None
      case Some(k) => Some(k + 1)
  }

  /** GetProductByIdAsync: the product with key `id`, or null. */
  function GetProductById(products: seq<Product>, id: int): (r: Option<Product>)
    ensures r.Some? ==> r.value in products && r.value.id == id
    ensures r.None? <==> forall p :: p in products ==> p.id != id
  {
    match IndexOfProduct(products, id)
    case None => None
    case Some(k) => Some(products[k])
  }

  /** `item.Product?.Price ?? 0`: the current price of a product, 0 when it is missing. */
  function UnitPrice(products: seq<Product>, productId: int): (price: Cents)
    ensures GetProductById(products, productId).None? ==> price == 0
    ensures GetProductById(products, productId).Some? ==> price == GetProductById(products, productId).value.price
  {
    match GetProductById(products, productId)
    case None => 0
    case Some(p) => p.price
  }

  // ---------------------------------------------------------------------------
  // Ordering by name
  // ---------------------------------------------------------------------------

  /** Ordinal "a sorts no later than b". */
  predicate NameLe(a: string, b: string) {
    a == [] || (b != [] && (a[0] < b[0] || (a[0] == b[0] && NameLe(a[1..], b[1..]))))
  }

  lemma {:induction false} NameLeReflexive(a: string)
    ensures NameLe(a, a)
  {
    if a != [] {
      NameLeReflexive(a[1..]);
    }
  }

  lemma {:induction false} NameLeTotal(a: string, b: string)
    ensures NameLe(a, b) || NameLe(b, a)
  {
    if a != [] && b != [] && a[0] == b[0] {
      NameLeTotal(a[1..], b[1..]);
    }
  }

  lemma {:induction false} NameLeTransitive(a: string, b: string, c: string)
    requires NameLe(a, b) && NameLe(b, c)
    ensures NameLe(a, c)
  {
    if a != [] && a[0] == b[0] && b[0] == c[0] {
      NameLeTransitive(a[1..], b[1..], c[1..]);
    }
  }

  predicate SortedByName(s: seq<Product>) {
    forall i, j :: 0 <= i < j < |s| ==> NameLe(s[i].name, s[j].name)
  }

  /** Places `p` before the first product it does not sort after. */
  function Insert(p: Product, s: seq<Product>): (r: seq<Product>)
    ensures multiset(r) == multiset(s) + multiset{p}
  {
    if s == [] then [p]
    else
      assert s == [s[0]] + s[1..];
      if NameLe(p.name, s[0].name) then [p] + s
      else [s[0]] + Insert(p, s[1..])
  }

  /** Prepending a product that sorts no later than every element keeps a list sorted. */
  lemma SortedCons(x: Product, t: seq<Product>)
    requires SortedByName(t)
    requires forall y :: y in t ==> NameLe(x.name, y.name)
    ensures SortedByName([x] + t)
  {
    var r := [x] + t;
    forall i, j | 0 <= i < j < |r|
      ensures NameLe(r[i].name, r[j].name)
    {
      assert r[j] == t[j - 1];
      if i > 0 {
        assert r[i] == t[i - 1];
      }
    }
  }

  /** Every element of `Insert(p, s)` is `p` or an element of `s`. */
  lemma InsertMembers(p: Product, s: seq<Product>, x: Product)
    requires x in Insert(p, s)
    ensures x == p || x in s
  {
    assert x in multiset(Insert(p, s));
  }

  lemma {:induction false} InsertKeepsSorted(p: Product, s: seq<Product>)
    requires SortedByName(s)
    ensures SortedByName(Insert(p, s))
  {
    if s == [] {
    } else if NameLe(p.name, s[0].name) {
      forall y | y in s
        ensures NameLe(p.name, y.name)
      {
        var j :| 0 <= j < |s| && s[j] == y;
        if j > 0 {
          NameLeTransitive(p.name, s[0].name, s[j].name);
        }
      }
      SortedCons(p, s);
    } else {
      var t := Insert(p, s[1..]);
      InsertKeepsSorted(p, s[1..]);
      NameLeTotal(p.name, s[0].name);
      forall x | x in t
        ensures NameLe(s[0].name, x.name)
      {
        InsertMembers(p, s[1..], x);
        if x != p {
          var j :| 0 <= j < |s[1..]| && s[1..][j] == x;
          assert s[j + 1] == x;
        }
      }
      SortedCons(s[0], t);
    }
  }

  /** A sort by name: an insertion sort that keeps ties in input order, one of the orders ORDER BY allows. */
  function SortByName(s: seq<Product>): (r: seq<Product>)
    ensures multiset(r) == multiset(s)
    ensures SortedByName(r)
  {
    if s == [] then []
    else
      var rest := SortByName(s[1..]);
      InsertKeepsSorted(s[0], rest);
      assert s == [s[0]] + s[1..];
      Insert(s[0], rest)
  }

  // ---------------------------------------------------------------------------
  // Filtering by category
  // ---------------------------------------------------------------------------

  /** `Where(p => p.CategoryId == categoryId)`, keeping the input order. */
  function FilterCategory(s: seq<Product>, categoryId: int): (r: seq<Product>)
    ensures forall p :: p in r <==> p in s && p.categoryId == categoryId
    ensures forall p :: multiset(r)[p] == if p.categoryId == categoryId then multiset(s)[p] else 0
    ensures |r| <= |s|
  {
    if s == [] then []
    else
      assert s == [s[0]] + s[1..];
      if s[0].categoryId == categoryId then [s[0]] + FilterCategory(s[1..], categoryId)
      else FilterCategory(s[1..], categoryId)
  }

  /** Filtering after an insertion is inserting into the filtered list (or nothing). */
  lemma {:induction false} FilterInsert(p: Product, s: seq<Product>, categoryId: int)
    requires SortedByName(s)
    ensures FilterCategory(Insert(p, s), categoryId)
         == if p.categoryId == categoryId then Insert(p, FilterCategory(s, categoryId))
            else FilterCategory(s, categoryId)
  {
    if s == [] {
    } else if NameLe(p.name, s[0].name) {
      assert Insert(p, s) == [p] + s;
      assert ([p] + s)[1..] == s;
      if p.categoryId == categoryId {
        InsertBeforeFiltered(p, s, categoryId);
      }
    } else {
      var t := Insert(p, s[1..]);
      assert Insert(p, s) == [s[0]] + t;
      assert ([s[0]] + t)[1..] == t;
      assert SortedByName(s[1..]);
      FilterInsert(p, s[1..], categoryId);
    }
  }

  /** A product that sorts before a sorted list also sorts before any part of it kept by a filter. */
  lemma InsertBeforeFiltered(p: Product, s: seq<Product>, categoryId: int)
    requires SortedByName(s) && s != [] && NameLe(p.name, s[0].name)
    ensures Insert(p, FilterCategory(s, categoryId)) == [p] + FilterCategory(s, categoryId)
  {
    var f := FilterCategory(s, categoryId);
    if f != [] {
      assert f[0] in s;
      var j :| 0 <= j < |s| && s[j] == f[0];
      if j == 0 {
        NameLeReflexive(s[0].name);
      }
      NameLeTransitive(p.name, s[0].name, f[0].name);
    }
  }

  /** Sorting commutes with filtering. */
  lemma {:induction false} FilterSortCommute(s: seq<Product>, categoryId: int)
    ensures FilterCategory(SortByName(s), categoryId) == SortByName(FilterCategory(s, categoryId))
  {
    if s != [] {
      var rest := SortByName(s[1..]);
      FilterSortCommute(s[1..], categoryId);
      FilterInsert(s[0], rest, categoryId);
      if s[0].categoryId == categoryId {
        var f := [s[0]] + FilterCategory(s[1..], categoryId);
        assert f[1..] == FilterCategory(s[1..], categoryId);
      }
    }
  }

  // ---------------------------------------------------------------------------
  // The three queries
  // ---------------------------------------------------------------------------

  /** GetAllProductsAsync: every product, ordered by name. */
  function GetAllProducts(products: seq<Product>): (r: seq<Product>)
    ensures multiset(r) == multiset(products)
    ensures SortedByName(r)
  {
    SortByName(products)
  }

  /** GetProductsByCategoryAsync: exactly the products of one category, ordered by name. */
  function GetProductsByCategory(products: seq<Product>, categoryId: int): (r: seq<Product>)
    ensures forall p :: p in r <==> p in products && p.categoryId == categoryId
    ensures forall p :: multiset(r)[p] == if p.categoryId == categoryId then multiset(products)[p] else 0
    ensures SortedByName(r)
  {
    var f := FilterCategory(products, categoryId);
    var r := SortByName(f);
    assert forall p :: p in r <==> p in multiset(f);
    r
  }

  /** The products of one category are the full listing with the other categories left out. */
  lemma CategoryListingFiltersFullListing(products: seq<Product>, categoryId: int)
    ensures GetProductsByCategory(products, categoryId) == FilterCategory(GetAllProducts(products), categoryId)
  {
    FilterSortCommute(products, categoryId);
  }
}
