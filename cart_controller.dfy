/**
 * Controllers/CartController.cs: the cart page and the add/remove forms. Every
 * action works on the caller's own session cart; Add refuses an unknown product
 * before it touches the session cookie or the cart.
 */
module CartController {
  import opened Models
  import opened ShopData
  import opened SessionHelper
  import opened ActionResults
  import ProductService
  import CartService

  /** The `quantity` form field, 1 when it is not posted. */
  function RequestedQuantity(quantity: Option<int>): (q: int)
    ensures quantity.None? ==> q == 1
    ensures quantity.Some? ==> q == quantity.value
  {
    quantity.GetOr(1)
  }

  class CartController {
    const db: ShopDbContext
    const cartService: CartService.CartService

    predicate Wired() {
      cartService.db == db
    }

    constructor (db: ShopDbContext)
      ensures this.db == db && Wired()
    {
      this.db := db;
      this.cartService := new CartService.CartService(db);
    }

    /** Index: the caller's cart rows and nothing else. */
    method Index(ctx: HttpContext, freshSessionId: string, now: int) returns (result: ActionResult)
      requires Wired()
      modifies ctx`responseCookies
      ensures result.CartView?
      ensures forall x :: x in result.items <==> x in db.cartItems && x.sessionId == ResolveSessionId(ctx.requestCookies, freshSessionId)
      ensures result.items == CartService.SessionRows(db.cartItems, ResolveSessionId(ctx.requestCookies, freshSessionId))
      ensures ctx.responseCookies == old(ctx.responseCookies) + MintedCookies(ctx.requestCookies, freshSessionId, now)
    {
      var sessionId := GetOrCreateSessionId(ctx, freshSessionId, now);
      var items := cartService.GetCartItems(sessionId);
      return CartView(items);
    }

    /** POST Add: NotFound for an unknown product; otherwise add to the caller's cart. */
    method Add(ctx: HttpContext, productId: int, quantity: Option<int>, freshSessionId: string, now: int)
      returns (result: ActionResult)
      requires Wired() && db.Valid()
      modifies db`cartItems, db`nextCartItemId, ctx`responseCookies
      ensures db.Valid()
      ensures ProductService.GetProductById(db.products, productId).None? ==>
                result == NotFoundView && unchanged(db, ctx)
      ensures ProductService.GetProductById(db.products, productId).Some? ==>
                var sessionId := ResolveSessionId(ctx.requestCookies, freshSessionId);
                && result == RedirectToAction("Index", "Cart", None)
                && ctx.responseCookies == old(ctx.responseCookies) + MintedCookies(ctx.requestCookies, freshSessionId, now)
                && db.cartItems == CartService.AddRows(old(db.cartItems), sessionId, productId, RequestedQuantity(quantity),
                                                       old(db.nextCartItemId))
    {
      var product := ProductService.GetProductById(db.products, productId);
      if product.None? {
        return NotFoundView;
      }
      var sessionId := GetOrCreateSessionId(ctx, freshSessionId, now);
      cartService.AddToCart(sessionId, productId, RequestedQuantity(quantity));
      return RedirectToAction("Index", "Cart", None);
    }

    /** POST Remove: removes the row only if it belongs to the caller's session. */
    method Remove(ctx: HttpContext, cartItemId: int, freshSessionId: string, now: int) returns (result: ActionResult)
      requires Wired() && db.Valid()
      modifies db`cartItems, ctx`responseCookies
      ensures db.Valid()
      ensures result == RedirectToAction("Index", "Cart", None)
      ensures ctx.responseCookies == old(ctx.responseCookies) + MintedCookies(ctx.requestCookies, freshSessionId, now)
      ensures db.cartItems
           == CartService.RemoveRow(old(db.cartItems), ResolveSessionId(ctx.requestCookies, freshSessionId), cartItemId)
    {
      var sessionId := GetOrCreateSessionId(ctx, freshSessionId, now);
      cartService.RemoveFromCart(sessionId, cartItemId);
      return RedirectToAction("Index", "Cart", None);
    }
  }
}
