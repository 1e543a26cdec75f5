/**
 * Services/StripePaymentService.cs: the Checkout session request built from an
 * order. One line item per order line; prices in cents; product name,
 * description and image taken from the current product, with absolute image URLs;
 * the success URL suffixed with Stripe's session-id placeholder; the order id in
 * the metadata.
 *
 * The SDK call itself is a foreign call: the gateway's answer is an input
 * (`GatewayOutcome`), and the requests sent are recorded in a log.
 */
module StripePaymentService {
  import opened Models
  import opened Strings
  import ProductService
  import OrderService

  const Currency := "usd"
  const PaymentMode := "payment"
  const CardMethod := "card"
  const SessionIdPlaceholder := "?session_id={CHECKOUT_SESSION_ID}"
  const OrderIdKey := "order_id"
  const MissingProductName := "Product"

  datatype ProductData = ProductData(name: string, description: string, images: Option<seq<string>>)
  datatype PriceData = PriceData(currency: string, productData: ProductData, unitAmount: int)
  datatype LineItem = LineItem(priceData: PriceData, quantity: int)

  datatype SessionCreateOptions = SessionCreateOptions(
    paymentMethodTypes: seq<string>,
    lineItems: seq<LineItem>,
    mode: string,
    successUrl: string,
    cancelUrl: string,
    customerEmail: string,
    metadata: map<string, string>)

  /** What Stripe answers: a hosted checkout URL (a null one as ""), or an exception with its message. */
  datatype GatewayOutcome = SessionCreated(url: string) | GatewayError(message: string)

  /** A relative image path is prefixed with the configured site URL; one starting with "http" is kept. */
  function AbsoluteImageUrl(baseUrl: string, imageUrl: string): (r: string)
    ensures EndsWith(r, imageUrl)
    ensures StartsWith(imageUrl, "http") ==> r == imageUrl
    ensures !StartsWith(imageUrl, "http") ==> StartsWith(r, baseUrl) && |r| == |baseUrl| + |imageUrl|
  {
    if StartsWith(imageUrl, "http") then imageUrl else baseUrl + imageUrl
  }

  /** Absolutising an absolute URL again changes nothing, when the site URL is itself absolute. */
  lemma AbsoluteImageUrlIdempotent(baseUrl: string, imageUrl: string)
    requires StartsWith(baseUrl, "http")
    ensures AbsoluteImageUrl(baseUrl, AbsoluteImageUrl(baseUrl, imageUrl)) == AbsoluteImageUrl(baseUrl, imageUrl)
  {
    var r := AbsoluteImageUrl(baseUrl, imageUrl);
    if !StartsWith(imageUrl, "http") {
      assert r[..4] == baseUrl[..4];
    }
  }

  /** The images of a line: none when the product or its image URL is missing or empty. */
  function Images(product: Option<Product>, baseUrl: string): (r: Option<seq<string>>)
    ensures r.Some? <==> product.Some? && product.value.imageUrl.Some? && product.value.imageUrl.value != ""
    ensures r.Some? ==> r.value == [AbsoluteImageUrl(baseUrl, product.value.imageUrl.value)]
  {
    match product
    case None => None
    case Some(p) =>
      match p.imageUrl
      case None => None
      case Some(url) => if url == "" then None else Some([AbsoluteImageUrl(baseUrl, url)])
  }

  /** Every image a line item carries starts with "http". */
  predicate ImagesAbsolute(line: LineItem) {
    line.priceData.productData.images.Some? ==>
      forall u :: u in line.priceData.productData.images.value ==> StartsWith(u, "http")
  }

  /** With an absolute site URL, every image sent to Stripe is an absolute URL. */
  lemma LineItemImagesAreAbsolute(items: seq<OrderItem>, products: seq<Product>, baseUrl: string)
    requires StartsWith(baseUrl, "http")
    ensures forall i :: 0 <= i < |items| ==> ImagesAbsolute(LineItems(items, products, baseUrl)[i])
  {
    forall i | 0 <= i < |items|
      ensures ImagesAbsolute(LineItems(items, products, baseUrl)[i])
    {
      var product := ProductService.GetProductById(products, items[i].productId);
      if Images(product, baseUrl).Some? {
        AbsoluteUrlStartsWithHttp(baseUrl, product.value.imageUrl.value);
      }
    }
  }

  lemma AbsoluteUrlStartsWithHttp(baseUrl: string, imageUrl: string)
    requires StartsWith(baseUrl, "http")
    ensures StartsWith(AbsoluteImageUrl(baseUrl, imageUrl), "http")
  {
    if !StartsWith(imageUrl, "http") {
      assert AbsoluteImageUrl(baseUrl, imageUrl)[..4] == baseUrl[..4];
    }
  }

  /** The line item of one order line, against the current products table. */
  function ToLineItem(item: OrderItem, products: seq<Product>, baseUrl: string): (r: LineItem)
    ensures r.quantity == item.quantity
    ensures r.priceData.currency == Currency
    ensures r.priceData.unitAmount == item.unitPrice
    ensures ProductService.GetProductById(products, item.productId).None? ==>
              r.priceData.productData == ProductData(MissingProductName, "", None)
    ensures ProductService.GetProductById(products, item.productId).Some? ==>
              var p := ProductService.GetProductById(products, item.productId).value;
              r.priceData.productData.name == p.name && r.priceData.productData.description == p.description.GetOr("")
  {
    var product := ProductService.GetProductById(products, item.productId);
    var name := match product case None => MissingProductName case Some(p) => p.name;
    var description := match product case None => "" case Some(p) => p.description.GetOr("");
    // `(long)(UnitPrice * 100)`: the price is a whole number of cents already.
    LineItem(PriceData(Currency, ProductData(name, description, Images(product, baseUrl)), item.unitPrice), item.quantity)
  }

  /** `order.Items.Select(...)`: one line item per order line, in order. */
  function LineItems(items: seq<OrderItem>, products: seq<Product>, baseUrl: string): (r: seq<LineItem>)
    ensures |r| == |items|
    ensures forall i :: 0 <= i < |items| ==> r[i] == ToLineItem(items[i], products, baseUrl)
  {
    if items == [] then [] else [ToLineItem(items[0], products, baseUrl)] + LineItems(items[1..], products, baseUrl)
  }

  /** What Stripe charges for a list of line items. */
  function ChargedAmount(lineItems: seq<LineItem>): int {
    if lineItems == [] then 0
    else lineItems[0].priceData.unitAmount * lineItems[0].quantity + ChargedAmount(lineItems[1..])
  }

  /** The customer is charged exactly the order's total. */
  lemma {:induction false} ChargedAmountIsOrderTotal(items: seq<OrderItem>, products: seq<Product>, baseUrl: string)
    ensures ChargedAmount(LineItems(items, products, baseUrl)) == OrderService.LinesTotal(items)
  {
    if items != [] {
      ChargedAmountIsOrderTotal(items[1..], products, baseUrl);
      assert LineItems(items, products, baseUrl)[1..] == LineItems(items[1..], products, baseUrl);
    }
  }

  /** The request for an order; `appUrl` is the optional `AppUrl` setting. */
  function CheckoutOptions(order: Order, products: seq<Product>, appUrl: Option<string>,
                           successUrl: string, cancelUrl: string): (r: SessionCreateOptions)
    ensures r.paymentMethodTypes == [CardMethod] && r.mode == PaymentMode
    ensures r.lineItems == LineItems(order.items, products, appUrl.GetOr(""))
    ensures StartsWith(r.successUrl, successUrl) && r.successUrl[|successUrl|..] == SessionIdPlaceholder
    ensures r.cancelUrl == cancelUrl
    ensures r.customerEmail == order.customerEmail
    ensures r.metadata.Keys == {OrderIdKey}
  {
    SessionCreateOptions(
      [CardMethod],
      LineItems(order.items, products, appUrl.GetOr("")),
      PaymentMode,
      successUrl + SessionIdPlaceholder,
      cancelUrl,
      order.customerEmail,
      map[OrderIdKey := IntToString(order.id)])
  }

  /** The metadata of the request names the order it pays for. */
  lemma MetadataNamesOrder(order: Order, products: seq<Product>, appUrl: Option<string>, successUrl: string, cancelUrl: string)
    ensures var m := CheckoutOptions(order, products, appUrl, successUrl, cancelUrl).metadata;
            OrderIdKey in m && IsIntString(m[OrderIdKey]) && ParseInt(m[OrderIdKey]) == order.id
  {
    IntToStringRoundTrip(order.id);
  }

  /** The Stripe endpoint: every request sent is recorded, and the gateway's answer is an input. */
  class StripePaymentService {
    var sentRequests: seq<SessionCreateOptions>
    const appUrl: Option<string>

    constructor (appUrl: Option<string>)
      ensures this.appUrl == appUrl && sentRequests == []
    {
      this.appUrl := appUrl;
      sentRequests := [];
    }

    /** CreateCheckoutSessionAsync: the session URL, or the gateway's exception. */
    method CreateCheckoutSession(order: Order, products: seq<Product>, successUrl: string, cancelUrl: string,
                                 outcome: GatewayOutcome)
      returns (r: Result<string>)
      modifies this`sentRequests
      ensures sentRequests == old(sentRequests) + [CheckoutOptions(order, products, appUrl, successUrl, cancelUrl)]
      ensures outcome.SessionCreated? ==> r == Success(outcome.url)
      ensures outcome.GatewayError? ==> r == Failure(outcome.message)
    {
      var options := CheckoutOptions(order, products, appUrl, successUrl, cancelUrl);
      sentRequests := sentRequests + [options];
      match outcome
      case SessionCreated(url) => r := Success(url);
      case GatewayError(message) => r := Failure(message);
    }
  }
}
