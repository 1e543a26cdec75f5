/**
 * The results the controller actions return, as values: the page rendered,
 * the redirect issued, or the exception that ends the request.
 */
module ActionResults {
  import opened Models

  datatype ActionResult =
    /** `View(model)`: the form shown again, with the errors added to the model state. */
    | FormView(errors: seq<string>)
    /** `View(vm)` of the cart page. */
    | CartView(items: seq<CartItem>)
    /** `View(order)` of the order details page. */
    | OrderView(order: Order)
    /** `View("NotFound")`. */
    | NotFoundView
    /** `NotFound()`: status 404. */
    | NotFoundStatus
    /** `Redirect(url)`. */
    | Redirect(url: string)
    /** `RedirectToAction(action, controller, new { id })`. */
    | RedirectToAction(action: string, controller: string, routeId: Option<int>)
    /** `Ok(order)`. */
    | OkOrder(order: Order)
    /** `BadRequest(ModelState)`. */
    | BadRequestModelState
    /** `BadRequest(message)`. */
    | BadRequestMessage(message: string)
    /** An exception of type `exception` escapes the action: status 500, and nothing after the throw happens. */
    | Faulted(exception: string)
}
