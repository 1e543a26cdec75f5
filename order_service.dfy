/**
 * Services/OrderService.cs: turning a session's cart into an order, and
 * loading an order by key.
 *
 * The order snapshots each cart row as one line carrying the product's price at
 * the time of purchase (0 for a product that no longer exists); its total is the
 * sum of the lines; the order is added and the consumed cart rows are removed in
 * one save. An empty cart is refused with "Cart is empty." and changes nothing.
 */
module OrderService {
  import opened Models
  import opened ShopData
  import ProductService
  import CartService
  import CartViewModel

  const EmptyCartMessage := "Cart is empty."

  /** The order line a cart row becomes. */
  function OrderLine(row: CartItem, products: seq<Product>, orderId: int): (line: OrderItem)
    ensures line.orderId == orderId && line.productId == row.productId && line.quantity == row.quantity
    ensures line.unitPrice == ProductService.UnitPrice(products, row.productId)
  {
    OrderItem(orderId, row.productId, row.quantity, ProductService.UnitPrice(products, row.productId))
  }

  /** The lines of an order built from `rows`, one per row and in row order. */
  function OrderLines(rows: seq<CartItem>, products: seq<Product>, orderId: int): seq<OrderItem> {
    if rows == [] then [] else [OrderLine(rows[0], products, orderId)] + OrderLines(rows[1..], products, orderId)
  }

  /** The sum over an order's lines of unit price times quantity. */
  function LinesTotal(items: seq<OrderItem>): Cents {
    if items == [] then 0 else items[0].unitPrice * items[0].quantity + LinesTotal(items[1..])
  }

  /** One line per cart row, in cart order, with the row's product and quantity and the current price. */
  lemma {:induction false} OrderLinesMirrorRows(rows: seq<CartItem>, products: seq<Product>, orderId: int)
    ensures |OrderLines(rows, products, orderId)| == |rows|
    ensures forall i :: 0 <= i < |rows| ==>
              && OrderLines(rows, products, orderId)[i].orderId == orderId
              && OrderLines(rows, products, orderId)[i].productId == rows[i].productId
              && OrderLines(rows, products, orderId)[i].quantity == rows[i].quantity
              && OrderLines(rows, products, orderId)[i].unitPrice == ProductService.UnitPrice(products, rows[i].productId)
  {
    if rows != [] {
      OrderLinesMirrorRows(rows[1..], products, orderId);
      var r := OrderLines(rows, products, orderId);
      forall i | 1 <= i < |rows|
        ensures r[i] == OrderLines(rows[1..], products, orderId)[i - 1] && rows[i] == rows[1..][i - 1]
      {
      }
    }
  }

  lemma {:induction false} OrderLinesAppend(a: seq<CartItem>, b: seq<CartItem>, products: seq<Product>, orderId: int)
    ensures OrderLines(a + b, products, orderId) == OrderLines(a, products, orderId) + OrderLines(b, products, orderId)
  {
    if a == [] {
      assert a + b == b;
    } else {
      assert (a + b)[0] == a[0];
      assert (a + b)[1..] == a[1..] + b;
      OrderLinesAppend(a[1..], b, products, orderId);
    }
  }

  lemma {:induction false} LinesTotalAppend(a: seq<OrderItem>, b: seq<OrderItem>)
    ensures LinesTotal(a + b) == LinesTotal(a) + LinesTotal(b)
  {
    if a == [] {
      assert a + b == b;
    } else {
      assert (a + b)[0] == a[0];
      assert (a + b)[1..] == a[1..] + b;
      LinesTotalAppend(a[1..], b);
    }
  }

  /** The order built from a cart totals what the cart page shows for the same rows. */
  lemma {:induction false} OrderTotalIsCartTotal(rows: seq<CartItem>, products: seq<Product>, orderId: int)
    ensures LinesTotal(OrderLines(rows, products, orderId)) == CartViewModel.Total(rows, products)
  {
    if rows != [] {
      OrderTotalIsCartTotal(rows[1..], products, orderId);
    }
  }

  /** The first order with key `id`, as FirstOrDefaultAsync finds it, or null. */
  function FindOrder(orders: seq<Order>, id: int): (r: Option<Order>)
    ensures r.Some? ==> r.value in orders && r.value.id == id
    ensures r.None? <==> forall o :: o in orders ==> o.id != id
  {
    if orders == [] then None
    else if orders[0].id == id then Some(orders[0])
    else FindOrder(orders[1..], id)
  }

  /** An order appended under a key no earlier order has is the one found by that key. */
  lemma {:induction false} FindAppendedOrder(orders: seq<Order>, order: Order)
    requires forall i :: 0 <= i < |orders| ==> orders[i].id != order.id
    ensures FindOrder(orders + [order], order.id) == Some(order)
  {
    if orders != [] {
      assert (orders + [order])[1..] == orders[1..] + [order];
      FindAppendedOrder(orders[1..], order);
    }
  }

  /**
   * `order` is the order placed from `rows` under key `orderId`: the customer's
   * details verbatim, one line per row, and the total of its lines.
   */
  predicate IsSnapshot(order: Order, rows: seq<CartItem>, products: seq<Product>, orderId: int,
                       customerName: string, customerEmail: string, now: int) {
    && order.id == orderId
    && order.createdAt == now
    && order.customerName == customerName
    && order.customerEmail == customerEmail
    && order.items == OrderLines(rows, products, orderId)
    && order.totalAmount == LinesTotal(order.items)
  }

  /**
   * The loop of CreateOrderFromCartAsync: one line per row at the product's
   * current price, with the running total of unit price times quantity.
   */
  method SnapshotLines(rows: seq<CartItem>, products: seq<Product>, orderId: int)
    returns (items: seq<OrderItem>, total: Cents)
    ensures items == OrderLines(rows, products, orderId)
    ensures total == LinesTotal(items)
  {
    items, total := [], 0;
    var i := 0;
    while i < |rows|
      invariant 0 <= i <= |rows|
      invariant items == OrderLines(rows[..i], products, orderId)
      invariant total == LinesTotal(items)
    {
      var item := rows[i];
      var unitPrice := ProductService.UnitPrice(products, item.productId);
      var line := OrderItem(orderId, item.productId, item.quantity, unitPrice);
      OrderLinesAppend(rows[..i], [item], products, orderId);
      assert rows[..i + 1] == rows[..i] + [item];
      LinesTotalAppend(items, [line]);
      items := items + [line];
      total := total + unitPrice * item.quantity;
      i := i + 1;
    }
    assert rows[..i] == rows;
  }

  class OrderService {
    const db: ShopDbContext

    constructor (db: ShopDbContext)
      ensures this.db == db
    {
      this.db := db;
    }

    /**
     * CreateOrderFromCartAsync; `now` is the clock reading DateTime.UtcNow gives.
     * On an empty cart the result is the exception's message and nothing changes.
     */
    method CreateOrderFromCart(sessionId: string, customerName: string, customerEmail: string, now: int)
      returns (r: Result<Order>)
      requires db.Valid()
      modifies db`orders, db`cartItems, db`nextOrderId
      ensures db.Valid()
      ensures var rows := CartService.SessionRows(old(db.cartItems), sessionId);
              if rows == [] then
                && r == Failure(EmptyCartMessage)
                && db.orders == old(db.orders) && db.cartItems == old(db.cartItems) && db.nextOrderId == old(db.nextOrderId)
              else
                && r.Success?
                && IsSnapshot(r.value, rows, db.products, old(db.nextOrderId), customerName, customerEmail, now)
                && db.orders == old(db.orders) + [r.value]
                && db.nextOrderId == old(db.nextOrderId) + 1
                && db.cartItems == CartService.ClearRows(old(db.cartItems), sessionId)
    {
      var cartItems := CartService.SessionRows(db.cartItems, sessionId);
      if |cartItems| == 0 {
        return Failure(EmptyCartMessage);
      }
      var orderId := db.nextOrderId;
      var items, total := SnapshotLines(cartItems, db.products, orderId);
      var order := Order(orderId, now, customerName, customerEmail, total, items);

      CartService.ClearKeepsWellFormed(db.cartItems, sessionId);
      ghost var before := db.cartItems;
      db.orders, db.nextOrderId, db.cartItems := db.orders + [order], db.nextOrderId + 1, CartService.ClearRows(db.cartItems, sessionId);
      forall k | 0 <= k < |db.cartItems|
        ensures 0 < db.cartItems[k].id < db.nextCartItemId
      {
        assert db.cartItems[k] in before;
      }
      r := Success(order);
    }

    /** GetOrderByIdAsync. */
    method GetOrderById(id: int) returns (r: Option<Order>)
      ensures r == FindOrder(db.orders, id)
      ensures r.Some? ==> r.value in db.orders && r.value.id == id
      ensures r.None? <==> forall o :: o in db.orders ==> o.id != id
    {
      r := FindOrder(db.orders, id);
    }
  }
}
