/**
 * Controllers/Api/OrdersController.cs: POST api/orders. The request needs a
 * customer name, a well-formed e-mail address and a session id, none of them
 * blank; an empty cart is answered with "Cart is empty."; otherwise the reply
 * carries the order placed from the session's cart.
 */
module ApiOrdersController {
  import opened Models
  import opened Strings
  import opened ShopData
  import opened ActionResults
  import CartService
  import OrderService

  datatype CreateOrderRequest = CreateOrderRequest(customerName: string, customerEmail: string, sessionId: string)

  /**
   * The request's model state: every field [Required] (so not blank), the
   * e-mail address accepted by [EmailAddress], whose verdict is `emailSyntaxOk`.
   */
  predicate RequestValid(request: CreateOrderRequest, emailSyntaxOk: bool) {
    && !IsBlank(request.customerName)
    && !IsBlank(request.customerEmail) && emailSyntaxOk
    && !IsBlank(request.sessionId)
  }

  class OrdersController {
    const db: ShopDbContext
    const orderService: OrderService.OrderService

    predicate Wired() {
      orderService.db == db
    }

    constructor (db: ShopDbContext)
      ensures this.db == db && Wired()
    {
      this.db := db;
      this.orderService := new OrderService.OrderService(db);
    }

    /** Create. */
    method Create(request: CreateOrderRequest, emailSyntaxOk: bool, now: int) returns (result: ActionResult)
      requires Wired() && db.Valid()
      modifies db`orders, db`cartItems, db`nextOrderId
      ensures db.Valid()
      ensures !RequestValid(request, emailSyntaxOk) ==> result == BadRequestModelState && unchanged(db)
      ensures RequestValid(request, emailSyntaxOk) ==>
                var rows := CartService.SessionRows(old(db.cartItems), request.sessionId);
                if rows == [] then
                  result == BadRequestMessage(OrderService.EmptyCartMessage) && unchanged(db)
                else
                  && result.OkOrder?
                  && OrderService.IsSnapshot(result.order, rows, db.products, old(db.nextOrderId),
                                             request.customerName, request.customerEmail, now)
                  && db.orders == old(db.orders) + [result.order]
                  && db.nextOrderId == old(db.nextOrderId) + 1
                  && db.cartItems == CartService.ClearRows(old(db.cartItems), request.sessionId)
    {
      if !RequestValid(request, emailSyntaxOk) || IsBlank(request.sessionId) {
        return BadRequestModelState;
      }
      var created := orderService.CreateOrderFromCart(request.sessionId, request.customerName, request.customerEmail, now);
      match created
      case Success(order) => return OkOrder(order);
      case Failure(_) => return BadRequestMessage(OrderService.EmptyCartMessage);
    }
  }
}
