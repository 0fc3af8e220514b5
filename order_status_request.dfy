/** The OrderStatusRequest message of src/fix/messages/order_status_request.rs
    (type code `H`). It has no optional attribute and no numeric one. */
module OrderStatusRequests {
  import opened Wrappers
  import opened Wire
  import opened Coercion
  import opened Layout

  datatype OrderStatusRequest = OrderStatusRequest(
    clOrdId: string,          // tag 11
    symbol: string,           // tag 55
    side: char,               // tag 54
    transactTime: string)     // tag 60

  const CODE: string := "H"

  /** The attributes in declaration order, which is the order they are checked in. */
  const MessageLayout: seq<Slot> := [
    Required("11", Text), Required("55", Text), Required("54", Code), Required("60", Text)]

  /** The request a field store denotes: every attribute read from its tag. */
  predicate Decodes(o: OrderStatusRequest, fields: Fields)
  {
    && TextIs(fields, "11", o.clOrdId)
    && TextIs(fields, "55", o.symbol)
    && CodeIs(fields, "54", o.side)
    && TextIs(fields, "60", o.transactTime)
  }

  /** `OrderStatusRequest::new`: reject any tag 35 other than `H`, then read the
      four required attributes in order, the first failure deciding the error. */
  function New(fields: Fields): (r: Result<OrderStatusRequest, string>)
    ensures !HasType(fields, CODE) ==> r == Err(INVALID_MESSAGE_TYPE)
    ensures r.Ok? ==> HasType(fields, CODE) && Decodes(r.value, fields)
  {
    if Lookup(fields, TYPE_TAG) != Some(CODE) then Err(INVALID_MESSAGE_TYPE)
    else
      var clOrdId :- ParseField(fields, "11", ParseString);
      var symbol :- ParseField(fields, "55", ParseString);
      var side :- ParseField(fields, "54", ParseChar);
      var transactTime :- ParseField(fields, "60", ParseString);
      Ok(OrderStatusRequest(clOrdId, symbol, side, transactTime))
  }

  /** Once tag 35 is `H`, construction fails exactly when some attribute fails, and
      the error is that of the first failing attribute in declaration order. No
      numeric attribute is involved, so any float parser gives the same layout
      verdict. */
  lemma NewFollowsLayout(fields: Fields, parseFloat: string -> Option<real>)
    requires HasType(fields, CODE)
    ensures New(fields).ErrorOf() == FirstError(fields, MessageLayout, parseFloat)
  {
    var L := MessageLayout;
    TargetsCoerce(parseFloat);
    RequiredSlotAgrees(fields, "11", Text, ParseString, parseFloat);
    RequiredSlotAgrees(fields, "55", Text, ParseString, parseFloat);
    RequiredSlotAgrees(fields, "54", Code, ParseChar, parseFloat);
    RequiredSlotAgrees(fields, "60", Text, ParseString, parseFloat);
    FirstErrorStep(fields, L, 0, parseFloat);
    FirstErrorStep(fields, L, 1, parseFloat);
    FirstErrorStep(fields, L, 2, parseFloat);
    FirstErrorStep(fields, L, 3, parseFloat);
  }

  /** Tags other than 35, 11, 55, 54 and 60 do not affect the result. */
  lemma NewReadsOnlyLayout(f1: Fields, f2: Fields)
    requires AgreeOn(f1, f2, MessageLayout)
    ensures New(f1) == New(f2)
  {
    var L := MessageLayout;
    assert L[0].tag == "11" && L[1].tag == "55" && L[2].tag == "54" && L[3].tag == "60";
    HelpersReadOnlyTheirTag(f1, f2, "11", ParseString);
    HelpersReadOnlyTheirTag(f1, f2, "55", ParseString);
    HelpersReadOnlyTheirTag(f1, f2, "54", ParseChar);
    HelpersReadOnlyTheirTag(f1, f2, "60", ParseString);
  }
}
