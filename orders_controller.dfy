/**
 * Controllers/OrdersController.cs: checkout and the Stripe callbacks.
 *
 * Checkout validates the form, resolves the session, and creates the order,
 * which already consumes the session's cart. With a Stripe secret key configured
 * and an order that has lines, it asks the gateway for a checkout session; on
 * success it remembers the order in the single `PendingOrderId` slot of the
 * server-side session and redirects to the gateway, sending no email. Without a
 * key, when the gateway throws, or when the URL it returns is empty (the slot
 * is then already set), it completes directly: clears the cart (a
 * no-op, the order having consumed it), sends one confirmation, and redirects
 * to the order's details. PaymentSuccess completes a pending order the same
 * way; PaymentCancelled only forgets the slot.
 */
module OrdersController {
  import opened Models
  import opened Strings
  import opened ShopData
  import opened SessionHelper
  import opened ActionResults
  import CartService
  import OrderService
  import Stripe = StripePaymentService
  import EmailService

  const PendingOrderIdKey := "PendingOrderId"
  const EmptyCartError := "Your cart is empty."
  const SuccessPath := "/Orders/PaymentSuccess"
  const CancelPath := "/Orders/PaymentCancelled?orderId="

  /** The checkout form's model state: both fields required (not blank), the e-mail address well formed. */
  predicate CheckoutFormValid(customerName: string, customerEmail: string, emailSyntaxOk: bool) {
    !IsBlank(customerName) && !IsBlank(customerEmail) && emailSyntaxOk
  }

  /** `!string.IsNullOrEmpty(stripeKey)`. */
  predicate StripeConfigured(stripeSecretKey: Option<string>) {
    stripeSecretKey.Some? && stripeSecretKey.value != ""
  }

  /** The gateway is asked and opens a checkout session, so the pending slot is set. */
  predicate SessionOpened(stripeSecretKey: Option<string>, outcome: Stripe.GatewayOutcome) {
    StripeConfigured(stripeSecretKey) && outcome.SessionCreated?
  }

  /**
   * The visitor is sent to the gateway: a session was opened and its URL is not
   * empty (`Redirect` throws on an empty URL, and Checkout then completes directly).
   */
  predicate RedirectsToGateway(stripeSecretKey: Option<string>, outcome: Stripe.GatewayOutcome) {
    SessionOpened(stripeSecretKey, outcome) && outcome.url != ""
  }

  /** The configured `AppUrl`, or the request's own scheme and host. */
  function PaymentBaseUrl(appUrl: Option<string>, requestBase: string): string {
    appUrl.GetOr(requestBase)
  }

  function SuccessUrl(baseUrl: string): (r: string)
    ensures StartsWith(r, baseUrl) && r[|baseUrl|..] == SuccessPath
  {
    baseUrl + SuccessPath
  }

  function CancelUrl(baseUrl: string, orderId: int): (r: string)
    ensures StartsWith(r, baseUrl + CancelPath)
  {
    baseUrl + CancelPath + IntToString(orderId)
  }

  /** The cancel URL's `orderId` query value reads back as the order's key. */
  lemma CancelUrlCarriesOrderId(baseUrl: string, orderId: int)
    ensures var u := CancelUrl(baseUrl, orderId);
            var q := u[|baseUrl + CancelPath|..];
            IsIntString(q) && ParseInt(q) == orderId
  {
    var u := CancelUrl(baseUrl, orderId);
    assert u[|baseUrl + CancelPath|..] == IntToString(orderId);
    IntToStringRoundTrip(orderId);
  }

  /** The gateway request Checkout sends for `order`. */
  function CheckoutRequest(order: Order, products: seq<Product>, appUrl: Option<string>, requestBase: string)
    : Stripe.SessionCreateOptions
  {
    var baseUrl := PaymentBaseUrl(appUrl, requestBase);
    Stripe.CheckoutOptions(order, products, appUrl, SuccessUrl(baseUrl), CancelUrl(baseUrl, order.id))
  }

  class OrdersController {
    const db: ShopDbContext
    const orderService: OrderService.OrderService
    const cartService: CartService.CartService
    const payments: Stripe.StripePaymentService
    const emails: EmailService.EmailService
    const stripeSecretKey: Option<string>
    const appUrl: Option<string>

    /** The services share the controller's datastore and configuration. */
    predicate Wired() {
      orderService.db == db && cartService.db == db && payments.appUrl == appUrl
    }

    constructor (db: ShopDbContext, payments: Stripe.StripePaymentService, emails: EmailService.EmailService,
                 stripeSecretKey: Option<string>)
      ensures this.db == db && this.payments == payments && this.emails == emails
      ensures this.stripeSecretKey == stripeSecretKey && appUrl == payments.appUrl
      ensures Wired()
    {
      this.db := db;
      this.payments := payments;
      this.emails := emails;
      this.stripeSecretKey := stripeSecretKey;
      this.appUrl := payments.appUrl;
      this.orderService := new OrderService.OrderService(db);
      this.cartService := new CartService.CartService(db);
    }

    /**
     * POST Checkout. `emailSyntaxOk` is the [EmailAddress] verdict on the e-mail
     * field, `freshSessionId` the GUID a new visitor would get, `now` the clock,
     * and `outcome` what the gateway answers if it is asked.
     */
    method Checkout(ctx: HttpContext, customerName: string, customerEmail: string, emailSyntaxOk: bool,
                    freshSessionId: string, now: int, outcome: Stripe.GatewayOutcome)
      returns (result: ActionResult)
      requires Wired() && db.Valid()
      modifies db`orders, db`cartItems, db`nextOrderId, ctx`responseCookies, ctx`session
      modifies payments`sentRequests, emails`sent
      ensures db.Valid()
      ensures !CheckoutFormValid(customerName, customerEmail, emailSyntaxOk) ==>
                && result == FormView([])
                && unchanged(db, ctx, payments, emails)
      ensures CheckoutFormValid(customerName, customerEmail, emailSyntaxOk) ==>
                && ctx.responseCookies == old(ctx.responseCookies) + MintedCookies(ctx.requestCookies, freshSessionId, now)
                && OrderPlaced(ctx, ResolveSessionId(ctx.requestCookies, freshSessionId), customerName, customerEmail, now, outcome, result)
    {
      if !CheckoutFormValid(customerName, customerEmail, emailSyntaxOk) {
        return FormView([]);
      }
      var sessionId := GetOrCreateSessionId(ctx, freshSessionId, now);
      result := PlaceOrder(ctx, sessionId, customerName, customerEmail, now, outcome);
    }

    /**
     * What Checkout does once the form is valid and the session resolved: an
     * empty cart re-renders the form with the error and changes nothing;
     * otherwise the order is placed from the cart and either handed to the
     * gateway (pending slot set, no email) or completed directly (one email).
     */
    twostate predicate OrderPlaced(ctx: HttpContext, sessionId: string, customerName: string, customerEmail: string,
                                   now: int, outcome: Stripe.GatewayOutcome, result: ActionResult)
      reads db, ctx, payments, emails
    {
      var rows := CartService.SessionRows(old(db.cartItems), sessionId);
      if rows == [] then
        && result == FormView([EmptyCartError])
        && db.orders == old(db.orders) && db.cartItems == old(db.cartItems) && db.nextOrderId == old(db.nextOrderId)
        && ctx.session == old(ctx.session) && emails.sent == old(emails.sent)
        && payments.sentRequests == old(payments.sentRequests)
      else
        && |db.orders| == |old(db.orders)| + 1
        && var order := db.orders[|old(db.orders)|];
        && db.orders == old(db.orders) + [order]
        && db.nextOrderId == old(db.nextOrderId) + 1
        && OrderService.IsSnapshot(order, rows, db.products, old(db.nextOrderId), customerName, customerEmail, now)
        && db.cartItems == CartService.ClearRows(old(db.cartItems), sessionId)
        && payments.sentRequests == old(payments.sentRequests)
             + (if StripeConfigured(stripeSecretKey) then [CheckoutRequest(order, db.products, appUrl, ctx.requestBase)] else [])
        && ctx.session == (if SessionOpened(stripeSecretKey, outcome) then old(ctx.session)[PendingOrderIdKey := order.id]
                           else old(ctx.session))
        && if RedirectsToGateway(stripeSecretKey, outcome) then
             && result == Redirect(outcome.url)
             && emails.sent == old(emails.sent)
           else
             && result == RedirectToAction("Details", "Orders", Some(order.id))
             && emails.sent == old(emails.sent) + [order]
    }

    /** The body of Checkout's `try` block and its empty-cart handler. */
    method PlaceOrder(ctx: HttpContext, sessionId: string, customerName: string, customerEmail: string,
                      now: int, outcome: Stripe.GatewayOutcome)
      returns (result: ActionResult)
      requires Wired() && db.Valid()
      modifies db`orders, db`cartItems, db`nextOrderId, ctx`session, payments`sentRequests, emails`sent
      ensures db.Valid()
      ensures OrderPlaced(ctx, sessionId, customerName, customerEmail, now, outcome, result)
    {
      ghost var cartBefore := db.cartItems;
      ghost var ordersBefore := db.orders;
      // Every stored key is below the counter, which is the new order's key.
      assert forall i :: 0 <= i < |ordersBefore| ==> ordersBefore[i].id < db.nextOrderId;
      var created := orderService.CreateOrderFromCart(sessionId, customerName, customerEmail, now);
      if created.Failure? {
        return FormView([EmptyCartError]);
      }
      var order := created.value;
      assert db.orders[|ordersBefore|] == order;
      OrderService.FindAppendedOrder(ordersBefore, order);
      assert |order.items| > 0;
      CartService.ClearRemovesExactlyTheSession(cartBefore, sessionId, sessionId);
      result := FinishCheckout(ctx, sessionId, order, outcome);
    }

    /**
     * Checkout after the order was placed from a non-empty cart: the Stripe
     * branch, falling back to the direct completion. The session's cart is
     * already empty here, so the completion's cart clear changes nothing.
     */
    method FinishCheckout(ctx: HttpContext, sessionId: string, order: Order, outcome: Stripe.GatewayOutcome)
      returns (result: ActionResult)
      requires Wired() && db.Valid()
      requires OrderService.FindOrder(db.orders, order.id) == Some(order) && |order.items| > 0
      requires CartService.SessionRows(db.cartItems, sessionId) == []
      modifies db`cartItems, ctx`session, payments`sentRequests, emails`sent
      ensures db.Valid()
      ensures db.cartItems == old(db.cartItems)
      ensures payments.sentRequests == old(payments.sentRequests)
                + (if StripeConfigured(stripeSecretKey) then [CheckoutRequest(order, db.products, appUrl, ctx.requestBase)] else [])
      ensures ctx.session == if SessionOpened(stripeSecretKey, outcome) then old(ctx.session)[PendingOrderIdKey := order.id]
                             else old(ctx.session)
      ensures RedirectsToGateway(stripeSecretKey, outcome) ==>
                && result == Redirect(outcome.url)
                && emails.sent == old(emails.sent)
      ensures !RedirectsToGateway(stripeSecretKey, outcome) ==>
                && result == RedirectToAction("Details", "Orders", Some(order.id))
                && emails.sent == old(emails.sent) + [order]
    {
      var checkoutUrl := AttemptGatewayCheckout(ctx, order, outcome);
      if checkoutUrl.Some? && checkoutUrl.value != "" {
        return Redirect(checkoutUrl.value);
      }
      // Without a session, or when Redirect refuses an empty URL and the
      // exception is caught, the order completes directly.
      result := CompleteCheckout(sessionId, order);
    }

    /**
     * Checkout's direct completion of an order that consumed the cart: the cart
     * clear finds nothing to remove, and the order is confirmed once.
     */
    method CompleteCheckout(sessionId: string, order: Order) returns (result: ActionResult)
      requires Wired() && db.Valid()
      requires OrderService.FindOrder(db.orders, order.id) == Some(order)
      requires CartService.SessionRows(db.cartItems, sessionId) == []
      modifies db`cartItems, emails`sent
      ensures db.Valid()
      ensures db.cartItems == old(db.cartItems)
      ensures emails.sent == old(emails.sent) + [order]
      ensures result == RedirectToAction("Details", "Orders", Some(order.id))
    {
      CartService.ClearWithoutRowsChangesNothing(db.cartItems, sessionId);
      CompleteOrder(sessionId, order.id);
      return RedirectToAction("Details", "Orders", Some(order.id));
    }

    /**
     * The Stripe branch of Checkout up to the redirect: with a secret key, reload
     * the order and, when it has lines, ask the gateway; when it opens a session,
     * remember the order in the pending slot and return the checkout URL;
     * nothing when there is no key or the gateway throws.
     */
    method AttemptGatewayCheckout(ctx: HttpContext, order: Order, outcome: Stripe.GatewayOutcome)
      returns (checkoutUrl: Option<string>)
      requires Wired()
      requires OrderService.FindOrder(db.orders, order.id) == Some(order) && |order.items| > 0
      modifies payments`sentRequests, ctx`session
      ensures payments.sentRequests == old(payments.sentRequests)
                + (if StripeConfigured(stripeSecretKey) then [CheckoutRequest(order, db.products, appUrl, ctx.requestBase)] else [])
      ensures ctx.session == if SessionOpened(stripeSecretKey, outcome) then old(ctx.session)[PendingOrderIdKey := order.id]
                             else old(ctx.session)
      ensures checkoutUrl == if SessionOpened(stripeSecretKey, outcome) then Some(outcome.url) else None
    {
      if !StripeConfigured(stripeSecretKey) {
        return None;
      }
      var orderWithItems := OrderService.FindOrder(db.orders, order.id);
      if orderWithItems.Some? && |orderWithItems.value.items| > 0 {
        var baseUrl := PaymentBaseUrl(appUrl, ctx.requestBase);
        var checkout := payments.CreateCheckoutSession(orderWithItems.value, db.products,
                                                       SuccessUrl(baseUrl), CancelUrl(baseUrl, order.id), outcome);
        if checkout.Success? {
          ctx.session := ctx.session[PendingOrderIdKey := order.id];
          return Some(checkout.value);
        }
      }
      return None;
    }

    /** The direct completion: clear the session's cart, then confirm the order if it exists. */
    method CompleteOrder(sessionId: string, orderId: int)
      requires Wired() && db.Valid()
      modifies db`cartItems, emails`sent
      ensures db.Valid()
      ensures db.cartItems == CartService.ClearRows(old(db.cartItems), sessionId)
      ensures var found := OrderService.FindOrder(db.orders, orderId);
              emails.sent == old(emails.sent) + (if found.Some? then [found.value] else [])
    {
      cartService.ClearCart(sessionId);
      var order := OrderService.FindOrder(db.orders, orderId);
      if order.Some? {
        emails.SendOrderConfirmation(order.value);
      }
    }

    /**
     * GET PaymentSuccess: completes the pending order, if any. The cart clear
     * removes only rows the session gained after the order was created.
     */
    method PaymentSuccess(ctx: HttpContext, freshSessionId: string, now: int) returns (result: ActionResult)
      requires Wired() && db.Valid()
      modifies db`cartItems, ctx`responseCookies, ctx`session, emails`sent
      ensures db.Valid()
      ensures PendingOrderIdKey !in old(ctx.session) ==>
                && result == RedirectToAction("Index", "Home", None)
                && unchanged(db, ctx, emails)
      ensures PendingOrderIdKey in old(ctx.session) ==>
                var orderId := old(ctx.session)[PendingOrderIdKey];
                var sessionId := ResolveSessionId(ctx.requestCookies, freshSessionId);
                var found := OrderService.FindOrder(db.orders, orderId);
                && result == RedirectToAction("Details", "Orders", Some(orderId))
                && ctx.responseCookies == old(ctx.responseCookies) + MintedCookies(ctx.requestCookies, freshSessionId, now)
                && db.cartItems == CartService.ClearRows(old(db.cartItems), sessionId)
                && ctx.session == old(ctx.session) - {PendingOrderIdKey}
                && emails.sent == old(emails.sent) + (if found.Some? then [found.value] else [])
    {
      if PendingOrderIdKey !in ctx.session {
        return RedirectToAction("Index", "Home", None);
      }
      var orderId := ctx.session[PendingOrderIdKey];
      var sessionId := GetOrCreateSessionId(ctx, freshSessionId, now);
      cartService.ClearCart(sessionId);
      ctx.session := ctx.session - {PendingOrderIdKey};
      var order := OrderService.FindOrder(db.orders, orderId);
      if order.Some? {
        emails.SendOrderConfirmation(order.value);
      }
      return RedirectToAction("Details", "Orders", Some(orderId));
    }

    /** GET PaymentCancelled: forgets the pending order; orders and carts stay as they are. */
    method PaymentCancelled(ctx: HttpContext, orderId: int) returns (result: ActionResult)
      modifies ctx`session
      ensures ctx.session == old(ctx.session) - {PendingOrderIdKey}
      ensures result == RedirectToAction("Index", "Cart", None)
    {
      ctx.session := ctx.session - {PendingOrderIdKey};
      return RedirectToAction("Index", "Cart", None);
    }

    /** GET Details. */
    method Details(id: int) returns (result: ActionResult)
      requires Wired()
      ensures OrderService.FindOrder(db.orders, id).Some? ==> result == OrderView(OrderService.FindOrder(db.orders, id).value)
      ensures OrderService.FindOrder(db.orders, id).None? ==> result == NotFoundView
    {
      var order := orderService.GetOrderById(id);
      if order.None? {
        return NotFoundView;
      }
      return OrderView(order.value);
    }
  }
}
