/** The OrderCancelRequest message of src/fix/messages/order_cancel_request.rs
    (type code `F`). */
module OrderCancelRequests {
  import opened Wrappers
  import opened Wire
  import opened Coercion
  import opened Layout

  datatype OrderCancelRequest = OrderCancelRequest(
    origClOrdId: string,      // tag 41
    clOrdId: string,          // tag 11
    side: char,               // tag 54
    symbol: string,           // tag 55
    transactTime: string,     // tag 60
    orderQty: Option<real>)   // tag 38

  const CODE: string := "F"

  /** The attributes in declaration order, which is the order they are checked in. */
  const MessageLayout: seq<Slot> := [
    Required("41", Text), Required("11", Text), Required("54", Code), Required("55", Text),
    Required("60", Text), Optional("38", Number)]

  /** The request a field store denotes: every attribute read from its tag. */
  predicate Decodes(o: OrderCancelRequest, fields: Fields, parseFloat: string -> Option<real>)
  {
    && TextIs(fields, "41", o.origClOrdId)
    && TextIs(fields, "11", o.clOrdId)
    && CodeIs(fields, "54", o.side)
    && TextIs(fields, "55", o.symbol)
    && TextIs(fields, "60", o.transactTime)
    && OptNumberIs(fields, "38", parseFloat, o.orderQty)
  }

  /** `OrderCancelRequest::new`: reject any tag 35 other than `F`, then coerce the
      attributes in order, the first failure deciding the error. */
  function New(fields: Fields, parseFloat: string -> Option<real>): (r: Result<OrderCancelRequest, string>)
    ensures !HasType(fields, CODE) ==> r == Err(INVALID_MESSAGE_TYPE)
    ensures r.Ok? ==> HasType(fields, CODE) && Decodes(r.value, fields, parseFloat)
  {
    if Lookup(fields, TYPE_TAG) != Some(CODE) then Err(INVALID_MESSAGE_TYPE)
    else
      var origClOrdId :- ParseField(fields, "41", ParseString);
      var clOrdId :- ParseField(fields, "11", ParseString);
      var side :- ParseField(fields, "54", ParseChar);
      var symbol :- ParseField(fields, "55", ParseString);
      var transactTime :- ParseField(fields, "60", ParseString);
      var orderQty :- ParseFieldOptional(fields, "38", parseFloat);
      Ok(OrderCancelRequest(origClOrdId, clOrdId, side, symbol, transactTime, orderQty))
  }

  /** Once tag 35 is `F`, construction fails exactly when some attribute fails, and
      the error is that of the first failing attribute in declaration order. */
  lemma NewFollowsLayout(fields: Fields, parseFloat: string -> Option<real>)
    requires HasType(fields, CODE)
    ensures New(fields, parseFloat).ErrorOf() == FirstError(fields, MessageLayout, parseFloat)
  {
    var L := MessageLayout;
    TargetsCoerce(parseFloat);
    RequiredSlotAgrees(fields, "41", Text, ParseString, parseFloat);
    RequiredSlotAgrees(fields, "11", Text, ParseString, parseFloat);
    RequiredSlotAgrees(fields, "54", Code, ParseChar, parseFloat);
    RequiredSlotAgrees(fields, "55", Text, ParseString, parseFloat);
    RequiredSlotAgrees(fields, "60", Text, ParseString, parseFloat);
    OptionalSlotAgrees(fields, "38", Number, parseFloat, parseFloat);
    FirstErrorStep(fields, L, 0, parseFloat);
    FirstErrorStep(fields, L, 1, parseFloat);
    FirstErrorStep(fields, L, 2, parseFloat);
    FirstErrorStep(fields, L, 3, parseFloat);
    FirstErrorStep(fields, L, 4, parseFloat);
    FirstErrorStep(fields, L, 5, parseFloat);
  }

  /** Tags outside tag 35 and the layout cannot change the outcome. */
  lemma NewReadsOnlyLayout(f1: Fields, f2: Fields, parseFloat: string -> Option<real>)
    requires AgreeOn(f1, f2, MessageLayout)
    ensures New(f1, parseFloat) == New(f2, parseFloat)
  {
    var L := MessageLayout;
    assert L[0].tag == "41" && L[1].tag == "11" && L[2].tag == "54";
    assert L[3].tag == "55" && L[4].tag == "60" && L[5].tag == "38";
    HelpersReadOnlyTheirTag(f1, f2, "41", ParseString);
    HelpersReadOnlyTheirTag(f1, f2, "11", ParseString);
    HelpersReadOnlyTheirTag(f1, f2, "54", ParseChar);
    HelpersReadOnlyTheirTag(f1, f2, "55", ParseString);
    HelpersReadOnlyTheirTag(f1, f2, "60", ParseString);
    HelpersReadOnlyTheirTag(f1, f2, "38", parseFloat);
  }
}
