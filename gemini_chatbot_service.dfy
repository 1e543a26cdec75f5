/**
 * Services/GeminiChatbotService.cs: the chat assistant. The language model's
 * answer may end with a JSON action block; the service cuts the block out of
 * the text it shows, and carries the action out: adding a product to the
 * session's cart on the server, or telling the page where to navigate.
 *
 * The HTTP call to the model and the JSON parser are foreign code. Their
 * results are inputs: the reply (a failed status, or the answer's text field)
 * and the extracted block as System.Text.Json would read it (`ActionDocument`).
 */
module GeminiChatbotService {
  import opened Models
  import opened Strings
  import CartService

  const NotConfiguredMessage := "I am not fully configured yet. Please set the Gemini API Key."
  const TroubleMessage := "Sorry, I am having trouble thinking right now."
  /** The placeholder the sample configuration ships with. */
  const ApiKeyPlaceholderPrefix := "AIzaSy..."
  const ActionMarker := "\"action\""
  const AddToCartType := "add_to_cart"
  const NavigateType := "navigate"
  const DefaultQuantity := 1

  const Int32Min := -0x8000_0000
  const Int32Max := 0x7fff_ffff

  // ---------------------------------------------------------------------------
  // Extracting the action block
  // ---------------------------------------------------------------------------

  /**
   * The block spans `i` to `j` inclusive: `i` holds the last '{' of the text,
   * `j` the last '}', and `j` comes after `i`.
   */
  predicate BlockAt(text: string, i: int, j: int) {
    && 0 <= i < j < |text|
    && text[i] == '{' && text[j] == '}'
    && (forall k :: i < k < |text| ==> text[k] != '{')
    && (forall k :: j < k < |text| ==> text[k] != '}')
  }

  /** ExtractActionJson: from the last '{' to the last '}', kept only if it mentions "action". */
  function ExtractActionJson(text: Option<string>): (r: Option<string>)
    ensures (text.None? || text.value == "") ==> r.None?
    ensures r.Some? ==> && Contains(r.value, ActionMarker)
                        && |r.value| >= 2 && r.value[0] == '{' && r.value[|r.value| - 1] == '}'
  {
    if text.None? || text.value == "" then None
    else
      var s := text.value;
      var startIndex := LastIndexOf(s, '{');
      var endIndex := LastIndexOf(s, '}');
      if startIndex != -1 && endIndex != -1 && endIndex > startIndex then
        var potentialJson := s[startIndex..endIndex + 1];
        if Contains(potentialJson, ActionMarker) then Some(potentialJson) else None
      else None
  }

  /** The last occurrence of a character is the one with none after it. */
  lemma LastIndexOfIsUnique(s: string, c: char, i: int)
    requires 0 <= i < |s| && s[i] == c
    requires forall k :: i < k < |s| ==> s[k] != c
    ensures LastIndexOf(s, c) == i
  {
  }

  /** A span from the last '{' to a later last '}' that mentions "action" is what the extractor returns. */
  lemma ExtractFindsBlock(text: string, i: int, j: int)
    requires BlockAt(text, i, j) && Contains(text[i..j + 1], ActionMarker)
    ensures ExtractActionJson(Some(text)) == Some(text[i..j + 1])
  {
    LastIndexOfIsUnique(text, '{', i);
    LastIndexOfIsUnique(text, '}', j);
  }

  /** What the extractor returns spans from the text's last '{' to its later last '}'. */
  lemma ExtractedIsBlock(text: Option<string>)
    requires ExtractActionJson(text).Some?
    ensures text.Some?
    ensures var i, j := LastIndexOf(text.value, '{'), LastIndexOf(text.value, '}');
            BlockAt(text.value, i, j) && ExtractActionJson(text).value == text.value[i..j + 1]
  {
  }

  /**
   * The extractor finds a block exactly when the text's last '{' precedes its
   * last '}' and the span between them, braces included, contains "action".
   */
  lemma ExtractActionJsonCharacterised(text: Option<string>, b: string)
    ensures ExtractActionJson(text) == Some(b) <==>
              && text.Some?
              && (exists i, j :: BlockAt(text.value, i, j) && b == text.value[i..j + 1])
              && Contains(b, ActionMarker)
  {
    if ExtractActionJson(text) == Some(b) {
      ExtractedIsBlock(text);
      var i, j := LastIndexOf(text.value, '{'), LastIndexOf(text.value, '}');
      assert BlockAt(text.value, i, j) && b == text.value[i..j + 1];
    }
    if text.Some? && exists i, j :: BlockAt(text.value, i, j) && b == text.value[i..j + 1] {
      var i, j :| BlockAt(text.value, i, j) && b == text.value[i..j + 1];
      if Contains(b, ActionMarker) {
        ExtractFindsBlock(text.value, i, j);
      }
    }
  }

  /** No copy of the block starts before its '{' and runs past it: it holds no second '{'. */
  lemma NoCopyOverlapsBlockStart(text: string, i: int, j: int)
    requires BlockAt(text, i, j)
    ensures NoStraddle(text[..i], text[i..j + 1] + text[j + 1..], text[i..j + 1])
  {
    var b := text[i..j + 1];
    var pre := text[..i];
    assert pre + (b + text[j + 1..]) == text;
    forall k | 0 <= k < |pre| < k + |b|
      ensures !OccursAt(text, b, k)
    {
      if k + |b| <= |text| {
        assert text[k..k + |b|][i - k] == text[i] == '{';
        assert b[i - k] == text[i + (i - k)] != '{';
      }
    }
  }

  /** No copy of the block starts inside it and runs into the tail: the tail holds no '}'. */
  lemma NoCopyOverlapsBlockEnd(text: string, i: int, j: int)
    requires BlockAt(text, i, j)
    ensures NoStraddle(text[i..j + 1], text[j + 1..], text[i..j + 1])
  {
    var b := text[i..j + 1];
    var post := text[j + 1..];
    assert b + post == text[i..];
    forall k | 0 <= k < |b| < k + |b|
      ensures !OccursAt(text[i..], b, k)
    {
      if k + |b| <= |text| - i {
        assert text[i..][k..k + |b|][|b| - 1] == text[i + k + |b| - 1] != '}';
        assert b[|b| - 1] == '}';
      }
    }
  }

  /** The tail after the block holds no copy of it, so removing copies keeps it. */
  lemma TailKeepsNoCopy(text: string, i: int, j: int)
    requires BlockAt(text, i, j)
    ensures Replace(text[j + 1..], text[i..j + 1], "") == text[j + 1..]
  {
    var b := text[i..j + 1];
    var post := text[j + 1..];
    forall k | 0 <= k <= |post| - |b|
      ensures !OccursAt(post, b, k)
    {
      assert post[k..k + |b|][|b| - 1] == text[j + 1 + k + |b| - 1] != '}';
      assert b[|b| - 1] == '}';
    }
    ReplaceWithoutOccurrence(post, b, "");
  }

  /** Removing every copy of a string from itself leaves nothing. */
  lemma ReplaceSelf(b: string)
    requires b != ""
    ensures Replace(b, b, "") == ""
  {
    assert b[..|b|] == b && b[|b|..] == [];
  }

  /**
   * Removing the block: every copy of it before the last '{' is removed too,
   * and the text after the block is kept as it is.
   */
  lemma RemovingBlockKeepsTail(text: string, i: int, j: int)
    requires BlockAt(text, i, j)
    ensures Replace(text, text[i..j + 1], "") == Replace(text[..i], text[i..j + 1], "") + text[j + 1..]
  {
    var b := text[i..j + 1];
    var pre, post := text[..i], text[j + 1..];
    assert text == pre + (b + post);
    NoCopyOverlapsBlockStart(text, i, j);
    ReplaceSplits(pre, b + post, b, "");
    NoCopyOverlapsBlockEnd(text, i, j);
    ReplaceSplits(b, post, b, "");
    ReplaceSelf(b);
    TailKeepsNoCopy(text, i, j);
  }

  // ---------------------------------------------------------------------------
  // The decoded action block
  // ---------------------------------------------------------------------------

  /** One property of the block's root object, by what System.Text.Json finds there. */
  datatype JsonField<+T> = Missing | JsonNull | Value(v: T) | WrongKind

  /** JsonDocument.Parse of the block: a malformed document, or its root object's properties. */
  datatype ActionDocument =
    | Malformed
    | Document(action: JsonField<string>, productId: JsonField<int>, quantity: JsonField<int>,
               productName: JsonField<string>, page: JsonField<string>)

  /** GetString on a present property: a string, or null for a JSON null; None when it throws. */
  function JsonString(f: JsonField<string>): (r: Option<Option<string>>)
    ensures r.None? <==> f.Missing? || f.WrongKind?
    ensures f.JsonNull? ==> r == Some(None)
    ensures f.Value? ==> r == Some(Some(f.v))
  {
    match f
    case Value(s) => Some(Some(s))
    case JsonNull => Some(None)
    case _ => None
  }

  /** GetInt32: the number when it fits in 32 bits; None when it throws. */
  function JsonInt32(f: JsonField<int>): (r: Option<int>)
    ensures r.Some? <==> f.Value? && Int32Min <= f.v <= Int32Max
    ensures r.Some? ==> r.value == f.v
  {
    if f.Value? && Int32Min <= f.v <= Int32Max then Some(f.v) else None
  }

  /** The quantity: 1 when the property is absent, else GetInt32 of it. */
  function RequestedQuantity(f: JsonField<int>): (r: Option<int>)
    ensures f.Missing? ==> r == Some(DefaultQuantity)
    ensures !f.Missing? ==> r == JsonInt32(f)
  {
    if f.Missing? then Some(DefaultQuantity) else JsonInt32(f)
  }

  datatype ActionData =
    | CartData(productId: int, quantity: int, productName: Option<string>)
    | NavigationData(url: Option<string>)

  datatype ChatAction = ChatAction(kind: string, data: ActionData)

  datatype ChatResponse = ChatResponse(message: string, actions: seq<ChatAction>)

  /** The action type the block names, when reading it does not throw. */
  function ActionType(d: ActionDocument): Option<Option<string>> {
    if d.Malformed? then None else JsonString(d.action)
  }

  /**
   * The AddToCartAsync call the block causes: product and quantity, both read
   * before the call; None when the block asks for nothing or a read throws first.
   */
  function CartRequest(d: ActionDocument): (r: Option<(int, int)>)
    ensures r.Some? ==> ActionType(d) == Some(Some(AddToCartType))
    ensures ActionType(d) == Some(Some(AddToCartType)) && JsonInt32(d.productId).Some? && RequestedQuantity(d.quantity).Some? ==>
              r == Some((JsonInt32(d.productId).value, RequestedQuantity(d.quantity).value))
    ensures ActionType(d) == Some(Some(AddToCartType)) && (JsonInt32(d.productId).None? || RequestedQuantity(d.quantity).None?) ==>
              r.None?
  {
    if ActionType(d) != Some(Some(AddToCartType)) then None
    else
      match (JsonInt32(d.productId), RequestedQuantity(d.quantity))
      case (Some(productId), Some(qt)) => Some((productId, qt))
      case _ => None
  }

  /** An add_to_cart block with a readable product id and no quantity adds exactly one unit of that product. */
  lemma AddWithoutQuantityAddsOne(d: ActionDocument)
    requires ActionType(d) == Some(Some(AddToCartType)) && d.Document?
    requires d.quantity.Missing? && d.productId.Value? && Int32Min <= d.productId.v <= Int32Max
    ensures CartRequest(d) == Some((d.productId.v, 1))
  {
  }

  /**
   * The actions reported back. A throw anywhere in the handling is caught and
   * leaves the list as it was, which is empty.
   */
  function Actions(d: ActionDocument): seq<ChatAction> {
    match ActionType(d)
    case Some(Some(t)) =>
      if t == AddToCartType then
        match (CartRequest(d), JsonString(d.productName))
        case (Some((productId, qt)), Some(name)) => [ChatAction(AddToCartType, CartData(productId, qt, name))]
        case _ => []
      else if t == NavigateType then
        match JsonString(d.page)
        case Some(url) => [ChatAction(NavigateType, NavigationData(url))]
        case None => []
      else []
    case _ => []
  }

  /** At most one action per message. */
  lemma AtMostOneAction(d: ActionDocument)
    ensures |Actions(d)| <= 1
  {
  }

  /**
   * An add action is reported only for the call that was made, and it reports
   * the quantity the block asked for, before the cart clamps it.
   */
  lemma ReportedAddIsTheCallMade(d: ActionDocument)
    ensures forall a :: a in Actions(d) && a.kind == AddToCartType ==>
              a.data.CartData? && CartRequest(d) == Some((a.data.productId, a.data.quantity))
    ensures CartRequest(d).Some? && JsonString(d.productName).Some? ==>
              exists a :: a in Actions(d) && a.kind == AddToCartType
  {
    if CartRequest(d).Some? && JsonString(d.productName).Some? {
      assert Actions(d)[0] in Actions(d);
    }
  }

  /** A missing or non-string product name throws after the cart was changed: the add stays, unreported. */
  lemma AddOutlivesNameFailure(d: ActionDocument)
    requires CartRequest(d).Some? && !d.Malformed? && (d.productName.Missing? || d.productName.WrongKind?)
    ensures Actions(d) == []
  {
  }

  /** Navigation reads only the page, and never touches the cart. */
  lemma NavigateLeavesCart(d: ActionDocument)
    requires ActionType(d) == Some(Some(NavigateType))
    ensures CartRequest(d).None?
    ensures JsonString(d.page).Some? ==> Actions(d) == [ChatAction(NavigateType, NavigationData(JsonString(d.page).value))]
    ensures JsonString(d.page).None? ==> Actions(d) == []
  {
  }

  /** Any other action type, a null one or an unreadable block does nothing. */
  lemma UnknownActionDoesNothing(d: ActionDocument)
    requires ActionType(d) != Some(Some(AddToCartType)) && ActionType(d) != Some(Some(NavigateType))
    ensures CartRequest(d).None? && Actions(d) == []
  {
  }

  // ---------------------------------------------------------------------------
  // ProcessMessageAsync
  // ---------------------------------------------------------------------------

  /** The model's answer: a non-success status, or the text field of the first candidate (null allowed). */
  datatype GeminiReply = HttpFailure | Reply(text: Option<string>)

  /** The configuration holds no key, an empty one, or the sample placeholder. */
  predicate KeyMissing(apiKey: Option<string>) {
    apiKey.None? || apiKey.value == "" || StartsWith(apiKey.value, ApiKeyPlaceholderPrefix)
  }

  /** The text shown with an action block: the text with every copy of the block removed, trimmed. */
  function MessageWithoutBlock(text: string, block: string): string
    requires block != ""
  {
    Trim(Replace(text, block, ""))
  }

  /** The response to one message, for a configured key and the model's reply. */
  function Respond(apiKey: Option<string>, reply: GeminiReply, decoded: ActionDocument): ChatResponse {
    if KeyMissing(apiKey) then ChatResponse(NotConfiguredMessage, [])
    else if reply.HttpFailure? then ChatResponse(TroubleMessage, [])
    else
      var text := reply.text.GetOr("");
      match ExtractActionJson(Some(text))
      case None => ChatResponse(text, [])
      case Some(block) => ChatResponse(MessageWithoutBlock(text, block), Actions(decoded))
  }

  /** The cart change one message causes, if any. */
  function CartCall(apiKey: Option<string>, reply: GeminiReply, decoded: ActionDocument): Option<(int, int)> {
    if KeyMissing(apiKey) || reply.HttpFailure? then None
    else if ExtractActionJson(Some(reply.text.GetOr(""))).None? then None
    else CartRequest(decoded)
  }

  /** Without a block, the whole text is the message, there is no action and the cart is untouched. */
  lemma NoBlockIsPlainChat(apiKey: Option<string>, text: Option<string>, decoded: ActionDocument)
    requires !KeyMissing(apiKey) && ExtractActionJson(Some(text.GetOr(""))).None?
    ensures Respond(apiKey, Reply(text), decoded) == ChatResponse(text.GetOr(""), [])
    ensures CartCall(apiKey, Reply(text), decoded).None?
  {
  }

  /** An unusable key or a failed call answers with a fixed message and changes nothing. */
  lemma FailuresChangeNothing(apiKey: Option<string>, reply: GeminiReply, decoded: ActionDocument)
    requires KeyMissing(apiKey) || reply.HttpFailure?
    ensures Respond(apiKey, reply, decoded).actions == [] && CartCall(apiKey, reply, decoded).None?
    ensures Respond(apiKey, reply, decoded).message == if KeyMissing(apiKey) then NotConfiguredMessage else TroubleMessage
  {
  }

  /** What is shown next to an action keeps the text after the block and drops the block. */
  lemma ShownMessageKeepsTail(text: string, i: int, j: int)
    requires BlockAt(text, i, j) && Contains(text[i..j + 1], ActionMarker)
    ensures ExtractActionJson(Some(text)) == Some(text[i..j + 1])
    ensures MessageWithoutBlock(text, text[i..j + 1]) == Trim(Replace(text[..i], text[i..j + 1], "") + text[j + 1..])
  {
    ExtractFindsBlock(text, i, j);
    RemovingBlockKeepsTail(text, i, j);
  }

  class GeminiChatbotService {
    const cartService: CartService.CartService

    constructor (cartService: CartService.CartService)
      ensures this.cartService == cartService
    {
      this.cartService := cartService;
    }

    /** The try block of ProcessMessageAsync: carry out the decoded action, if it is one. */
    method Dispatch(decoded: ActionDocument, sessionId: string) returns (actions: seq<ChatAction>)
      requires cartService.db.Valid()
      modifies cartService.db`cartItems, cartService.db`nextCartItemId
      ensures cartService.db.Valid()
      ensures actions == Actions(decoded)
      ensures match CartRequest(decoded)
              case None =>
                cartService.db.cartItems == old(cartService.db.cartItems)
                && cartService.db.nextCartItemId == old(cartService.db.nextCartItemId)
              case Some((productId, qt)) =>
                cartService.db.cartItems
                  == CartService.AddRows(old(cartService.db.cartItems), sessionId, productId, qt, old(cartService.db.nextCartItemId))
    {
      actions := [];
      var actionType := ActionType(decoded);
      if actionType == Some(Some(AddToCartType)) {
        var productId := JsonInt32(decoded.productId);
        var qt := RequestedQuantity(decoded.quantity);
        if productId.Some? && qt.Some? {
          cartService.AddToCart(sessionId, productId.value, qt.value);
          var productName := JsonString(decoded.productName);
          if productName.Some? {
            actions := actions + [ChatAction(AddToCartType, CartData(productId.value, qt.value, productName.value))];
          }
        }
      } else if actionType == Some(Some(NavigateType)) {
        var url := JsonString(decoded.page);
        if url.Some? {
          actions := actions + [ChatAction(NavigateType, NavigationData(url.value))];
        }
      }
    }

    /**
     * ProcessMessageAsync for a session: `apiKey` is the configured key, `reply`
     * what the model answered and `decoded` the parse of the block it contains.
     */
    method ProcessMessage(apiKey: Option<string>, reply: GeminiReply, decoded: ActionDocument, sessionId: string)
      returns (response: ChatResponse)
      requires cartService.db.Valid()
      modifies cartService.db`cartItems, cartService.db`nextCartItemId
      ensures cartService.db.Valid()
      ensures response == Respond(apiKey, reply, decoded)
      ensures match CartCall(apiKey, reply, decoded)
              case None =>
                cartService.db.cartItems == old(cartService.db.cartItems)
                && cartService.db.nextCartItemId == old(cartService.db.nextCartItemId)
              case Some((productId, qt)) =>
                cartService.db.cartItems
                  == CartService.AddRows(old(cartService.db.cartItems), sessionId, productId, qt, old(cartService.db.nextCartItemId))
    {
      if KeyMissing(apiKey) {
        return ChatResponse(NotConfiguredMessage, []);
      }
      if reply.HttpFailure? {
        return ChatResponse(TroubleMessage, []);
      }
      var text := reply.text.GetOr("");
      var actionJson := ExtractActionJson(Some(text));
      if actionJson.None? {
        return ChatResponse(text, []);
      }
      var message := MessageWithoutBlock(text, actionJson.value);
      var actions := Dispatch(decoded, sessionId);
      response := ChatResponse(message, actions);
    }
  }
}
