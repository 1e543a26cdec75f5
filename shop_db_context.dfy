/**
 * The datastore behind every service (Data/ShopDbContext.cs): one table per
 * entity, in insertion order, and the identity counter that hands out the next
 * primary key of each table. Each assignment to a table field stands for one
 * SaveChangesAsync, which commits atomically.
 */
module ShopData {
  import opened Models

  class ShopDbContext {
    var categories: seq<Category>
    var products: seq<Product>
    var cartItems: seq<CartItem>
    var orders: seq<Order>

    /** The identity values the next inserted row of each table receives. */
    var nextCategoryId: int
    var nextProductId: int
    var nextCartItemId: int
    var nextOrderId: int

    /**
     * Every stored key is positive and below its table's counter, so a key
     * handed out by a counter is new; the cart table keeps its invariant.
     */
    ghost predicate Valid()
      reads this
    {
      && nextCategoryId >= 1 && nextProductId >= 1 && nextCartItemId >= 1 && nextOrderId >= 1
      && (forall i :: 0 <= i < |categories| ==> 0 < categories[i].id < nextCategoryId)
      && (forall i :: 0 <= i < |products| ==> 0 < products[i].id < nextProductId)
      && (forall i :: 0 <= i < |cartItems| ==> 0 < cartItems[i].id < nextCartItemId)
      && (forall i :: 0 <= i < |orders| ==> 0 < orders[i].id < nextOrderId)
      && WellFormedCart(cartItems)
    }

    /** A fresh, empty database: identity columns start at 1. */
    constructor ()
      ensures Valid()
      ensures categories == [] && products == [] && cartItems == [] && orders == []
      ensures nextCategoryId == 1 && nextProductId == 1 && nextCartItemId == 1 && nextOrderId == 1
    {
      categories, products, cartItems, orders := [], [], [], [];
      nextCategoryId, nextProductId, nextCartItemId, nextOrderId := 1, 1, 1, 1;
    }
  }
}
