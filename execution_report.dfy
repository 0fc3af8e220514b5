/** The ExecutionReport message of src/execution_report.rs (type code `8`). */
module ExecutionReports {
  import opened Wrappers
  import opened Wire
  import opened Coercion
  import opened Layout

  datatype ExecutionReport = ExecutionReport(
    clOrdId: string,          // tag 11
    orderId: string,          // tag 37
    execId: string,           // tag 17
    execType: char,           // tag 150
    ordStatus: char,          // tag 39
    side: char,               // tag 54
    leavesQty: real,          // tag 151
    cumQty: real,             // tag 14
    avgPx: Option<real>,      // tag 6
    symbol: string,           // tag 55
    transactTime: string,     // tag 60
    orderQty: real,           // tag 38
    price: real)              // tag 44

  const CODE: string := "8"

  /** The attributes in declaration order, which is the order they are checked in. */
  const MessageLayout: seq<Slot> := [
    Required("11", Text), Required("37", Text), Required("17", Text), Required("150", Code),
    Required("39", Code), Required("54", Code), Required("151", Number), Required("14", Number),
    Optional("6", Number), Required("55", Text), Required("60", Text), Required("38", Number),
    Required("44", Number)]

  /** The report a field store denotes: every attribute read from its tag. */
  predicate Decodes(o: ExecutionReport, fields: Fields, parseFloat: string -> Option<real>)
  {
    && TextIs(fields, "11", o.clOrdId)
    && TextIs(fields, "37", o.orderId)
    && TextIs(fields, "17", o.execId)
    && CodeIs(fields, "150", o.execType)
    && CodeIs(fields, "39", o.ordStatus)
    && CodeIs(fields, "54", o.side)
    && NumberIs(fields, "151", parseFloat, o.leavesQty)
    && NumberIs(fields, "14", parseFloat, o.cumQty)
    && OptNumberIs(fields, "6", parseFloat, o.avgPx)
    && TextIs(fields, "55", o.symbol)
    && TextIs(fields, "60", o.transactTime)
    && NumberIs(fields, "38", parseFloat, o.orderQty)
    && NumberIs(fields, "44", parseFloat, o.price)
  }

  /** `ExecutionReport::new`: reject any tag 35 other than `8`, then coerce the
      attributes in order, the first failure deciding the error. */
  function New(fields: Fields, parseFloat: string -> Option<real>): (r: Result<ExecutionReport, string>)
    ensures !HasType(fields, CODE) ==> r == Err(INVALID_MESSAGE_TYPE)
    ensures r.Ok? ==> HasType(fields, CODE) && Decodes(r.value, fields, parseFloat)
  {
    if Lookup(fields, TYPE_TAG) != Some(CODE) then Err(INVALID_MESSAGE_TYPE)
    else
      var clOrdId :- ParseField(fields, "11", ParseString);
      var orderId :- ParseField(fields, "37", ParseString);
      var execId :- ParseField(fields, "17", ParseString);
      var execType :- ParseField(fields, "150", ParseChar);
      var ordStatus :- ParseField(fields, "39", ParseChar);
      var side :- ParseField(fields, "54", ParseChar);
      var leavesQty :- ParseField(fields, "151", parseFloat);
      var cumQty :- ParseField(fields, "14", parseFloat);
      var avgPx :- ParseFieldOptional(fields, "6", parseFloat);
      var symbol :- ParseField(fields, "55", ParseString);
      var transactTime :- ParseField(fields, "60", ParseString);
      var orderQty :- ParseField(fields, "38", parseFloat);
      var price :- ParseField(fields, "44", parseFloat);
      Ok(ExecutionReport(clOrdId, orderId, execId, execType, ordStatus, side, leavesQty, cumQty,
                         avgPx, symbol, transactTime, orderQty, price))
  }

  /** Once tag 35 is `8`, construction fails exactly when some attribute fails, and
      the error is that of the first failing attribute in declaration order. */
  lemma NewFollowsLayout(fields: Fields, parseFloat: string -> Option<real>)
    requires HasType(fields, CODE)
    ensures New(fields, parseFloat).ErrorOf() == FirstError(fields, MessageLayout, parseFloat)
  {
    var L := MessageLayout;
    TargetsCoerce(parseFloat);
    RequiredSlotAgrees(fields, "11", Text, ParseString, parseFloat);
    FirstErrorStep(fields, L, 0, parseFloat);
    RequiredSlotAgrees(fields, "37", Text, ParseString, parseFloat);
    FirstErrorStep(fields, L, 1, parseFloat);
    RequiredSlotAgrees(fields, "17", Text, ParseString, parseFloat);
    FirstErrorStep(fields, L, 2, parseFloat);
    RequiredSlotAgrees(fields, "150", Code, ParseChar, parseFloat);
    FirstErrorStep(fields, L, 3, parseFloat);
    RequiredSlotAgrees(fields, "39", Code, ParseChar, parseFloat);
    FirstErrorStep(fields, L, 4, parseFloat);
    RequiredSlotAgrees(fields, "54", Code, ParseChar, parseFloat);
    FirstErrorStep(fields, L, 5, parseFloat);
    RequiredSlotAgrees(fields, "151", Number, parseFloat, parseFloat);
    FirstErrorStep(fields, L, 6, parseFloat);
    RequiredSlotAgrees(fields, "14", Number, parseFloat, parseFloat);
    FirstErrorStep(fields, L, 7, parseFloat);
    OptionalSlotAgrees(fields, "6", Number, parseFloat, parseFloat);
    FirstErrorStep(fields, L, 8, parseFloat);
    RequiredSlotAgrees(fields, "55", Text, ParseString, parseFloat);
    FirstErrorStep(fields, L, 9, parseFloat);
    RequiredSlotAgrees(fields, "60", Text, ParseString, parseFloat);
    FirstErrorStep(fields, L, 10, parseFloat);
    RequiredSlotAgrees(fields, "38", Number, parseFloat, parseFloat);
    FirstErrorStep(fields, L, 11, parseFloat);
    RequiredSlotAgrees(fields, "44", Number, parseFloat, parseFloat);
    FirstErrorStep(fields, L, 12, parseFloat);
  }

  /** Tags outside tag 35 and the layout cannot change the outcome. */
  lemma NewReadsOnlyLayout(f1: Fields, f2: Fields, parseFloat: string -> Option<real>)
    requires AgreeOn(f1, f2, MessageLayout)
    ensures New(f1, parseFloat) == New(f2, parseFloat)
  {
    var L := MessageLayout;
    assert L[0].tag == "11" && L[1].tag == "37" && L[2].tag == "17" && L[3].tag == "150";
    assert L[4].tag == "39" && L[5].tag == "54" && L[6].tag == "151" && L[7].tag == "14";
    assert L[8].tag == "6" && L[9].tag == "55" && L[10].tag == "60" && L[11].tag == "38";
    assert L[12].tag == "44";
    HelpersReadOnlyTheirTag(f1, f2, "11", ParseString);
    HelpersReadOnlyTheirTag(f1, f2, "37", ParseString);
    HelpersReadOnlyTheirTag(f1, f2, "17", ParseString);
    HelpersReadOnlyTheirTag(f1, f2, "150", ParseChar);
    HelpersReadOnlyTheirTag(f1, f2, "39", ParseChar);
    HelpersReadOnlyTheirTag(f1, f2, "54", ParseChar);
    HelpersReadOnlyTheirTag(f1, f2, "151", parseFloat);
    HelpersReadOnlyTheirTag(f1, f2, "14", parseFloat);
    HelpersReadOnlyTheirTag(f1, f2, "6", parseFloat);
    HelpersReadOnlyTheirTag(f1, f2, "55", ParseString);
    HelpersReadOnlyTheirTag(f1, f2, "60", ParseString);
    HelpersReadOnlyTheirTag(f1, f2, "38", parseFloat);
    HelpersReadOnlyTheirTag(f1, f2, "44", parseFloat);
  }
}
