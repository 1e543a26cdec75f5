/**
 * The storefront's entities (Models/Product.cs, Models/Category.cs,
 * Models/CartItem.cs, Models/Order.cs and the OrderItem entity configured in
 * Data/ShopDbContext.cs), as values.
 *
 * Money is the C# `decimal` stored with precision (18,2): it is exact, so it is
 * modelled as a whole number of cents.
 */
module Models {

  /** A C# reference that may be null. */
  datatype Option<+T> = None | Some(value: T) {
    function GetOr(default: T): T {
      match this
      case Some(v) => v
      case None => default
    }
  }

  /** The value of an operation, or the message of the exception it throws. */
  datatype Result<+T> = Success(value: T) | Failure(message: string)

  /** An amount of money in cents: 49.99m is 4999. */
  type Cents = int

  datatype Category = Category(id: int, name: string)

  datatype Product = Product(
    id: int,
    name: string,
    description: Option<string>,
    price: Cents,
    imageUrl: Option<string>,
    categoryId: int)

  /** One row of the cart table; `sessionId` is the anonymous visitor's cookie value. */
  datatype CartItem = CartItem(id: int, productId: int, quantity: int, sessionId: string)

  /** One order line; `unitPrice` is the product's price when the order was placed. */
  datatype OrderItem = OrderItem(orderId: int, productId: int, quantity: int, unitPrice: Cents)

  /** `createdAt` is the server clock reading, as a number. */
  datatype Order = Order(
    id: int,
    createdAt: int,
    customerName: string,
    customerEmail: string,
    totalAmount: Cents,
    items: seq<OrderItem>)

  /** Two cart rows describe the same (session, product) pair. */
  predicate SamePair(a: CartItem, b: CartItem) {
    a.sessionId == b.sessionId && a.productId == b.productId
  }

  /** At most one cart row per (session, product) pair: the merge-on-add invariant. */
  predicate UniquePairs(rows: seq<CartItem>) {
    forall i, j :: 0 <= i < j < |rows| ==> !SamePair(rows[i], rows[j])
  }

  /** Every cart row holds at least one unit (CartItem.Quantity is [Range(1, int.MaxValue)]). */
  predicate PositiveQuantities(rows: seq<CartItem>) {
    forall i :: 0 <= i < |rows| ==> rows[i].quantity >= 1
  }

  /** The invariant the cart operations keep on the cart table. */
  predicate WellFormedCart(rows: seq<CartItem>) {
    UniquePairs(rows) && PositiveQuantities(rows)
  }
}
