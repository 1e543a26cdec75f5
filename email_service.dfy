/**
 * Services/IEmailService.cs: order confirmations. Sending is network I/O; the
 * model keeps the confirmations requested, in order.
 */
module EmailService {
  import opened Models

  class EmailService {
    var sent: seq<Order>

    constructor ()
      ensures sent == []
    {
      sent := [];
    }

    /** SendOrderConfirmationAsync: one more confirmation, for `order`. */
    method SendOrderConfirmation(order: Order)
      modifies this`sent
      ensures sent == old(sent) + [order]
    {
      sent := sent + [order];
    }
  }
}
