/** The NewOrder message of src/new_order.rs (type code `D`). */
module NewOrders {
  import opened Wrappers
  import opened Wire
  import opened Coercion
  import opened Layout

  datatype NewOrder = NewOrder(
    clOrdId: string,              // tag 11
    side: char,                   // tag 54
    transactTime: string,         // tag 60
    orderQty: real,               // tag 38
    ordType: char,                // tag 40
    price: Option<real>,          // tag 44
    symbol: string,               // tag 55
    timeInForce: Option<char>,    // tag 59
    account: Option<string>,      // tag 1
    currency: Option<string>,     // tag 15
    execInst: Option<string>)     // tag 18

  const CODE: string := "D"

  /** The attributes in declaration order, which is the order they are checked in. */
  const MessageLayout: seq<Slot> := [
    Required("11", Text), Required("54", Code), Required("60", Text), Required("38", Number),
    Required("40", Code), Optional("44", Number), Required("55", Text), Optional("59", Code),
    Optional("1", Text), Optional("15", Text), Optional("18", Text)]

  /** The order a field store denotes: every attribute read from its tag. */
  predicate Decodes(o: NewOrder, fields: Fields, parseFloat: string -> Option<real>)
  {
    && TextIs(fields, "11", o.clOrdId)
    && CodeIs(fields, "54", o.side)
    && TextIs(fields, "60", o.transactTime)
    && NumberIs(fields, "38", parseFloat, o.orderQty)
    && CodeIs(fields, "40", o.ordType)
    && OptNumberIs(fields, "44", parseFloat, o.price)
    && TextIs(fields, "55", o.symbol)
    && OptCodeIs(fields, "59", o.timeInForce)
    && OptTextIs(fields, "1", o.account)
    && OptTextIs(fields, "15", o.currency)
    && OptTextIs(fields, "18", o.execInst)
  }

  /** `NewOrder::new`: reject any tag 35 other than `D`, then coerce the attributes
      in order, the first failure (`?`) deciding the error. */
  function New(fields: Fields, parseFloat: string -> Option<real>): (r: Result<NewOrder, string>)
    ensures !HasType(fields, CODE) ==> r == Err(INVALID_MESSAGE_TYPE)
    ensures r.Ok? ==> HasType(fields, CODE) && Decodes(r.value, fields, parseFloat)
  {
    if Lookup(fields, TYPE_TAG) != Some(CODE) then Err(INVALID_MESSAGE_TYPE)
    else
      var clOrdId :- ParseField(fields, "11", ParseString);
      var side :- ParseField(fields, "54", ParseChar);
      var transactTime :- ParseField(fields, "60", ParseString);
      var orderQty :- ParseField(fields, "38", parseFloat);
      var ordType :- ParseField(fields, "40", ParseChar);
      var price :- ParseFieldOptional(fields, "44", parseFloat);
      var symbol :- ParseField(fields, "55", ParseString);
      var timeInForce :- ParseFieldOptional(fields, "59", ParseChar);
      var account :- ParseFieldOptional(fields, "1", ParseString);
      var currency :- ParseFieldOptional(fields, "15", ParseString);
      var execInst :- ParseFieldOptional(fields, "18", ParseString);
      Ok(NewOrder(clOrdId, side, transactTime, orderQty, ordType, price, symbol,
                  timeInForce, account, currency, execInst))
  }

  /** Once tag 35 is `D`, construction fails exactly when some attribute fails, and
      the error is that of the first failing attribute in declaration order. */
  lemma NewFollowsLayout(fields: Fields, parseFloat: string -> Option<real>)
    requires HasType(fields, CODE)
    ensures New(fields, parseFloat).ErrorOf() == FirstError(fields, MessageLayout, parseFloat)
  {
    var L := MessageLayout;
    TargetsCoerce(parseFloat);
    RequiredSlotAgrees(fields, "11", Text, ParseString, parseFloat);
    RequiredSlotAgrees(fields, "54", Code, ParseChar, parseFloat);
    RequiredSlotAgrees(fields, "60", Text, ParseString, parseFloat);
    RequiredSlotAgrees(fields, "38", Number, parseFloat, parseFloat);
    RequiredSlotAgrees(fields, "40", Code, ParseChar, parseFloat);
    OptionalSlotAgrees(fields, "44", Number, parseFloat, parseFloat);
    RequiredSlotAgrees(fields, "55", Text, ParseString, parseFloat);
    OptionalSlotAgrees(fields, "59", Code, ParseChar, parseFloat);
    OptionalSlotAgrees(fields, "1", Text, ParseString, parseFloat);
    OptionalSlotAgrees(fields, "15", Text, ParseString, parseFloat);
    OptionalSlotAgrees(fields, "18", Text, ParseString, parseFloat);
    FirstErrorStep(fields, L, 0, parseFloat);
    FirstErrorStep(fields, L, 1, parseFloat);
    FirstErrorStep(fields, L, 2, parseFloat);
    FirstErrorStep(fields, L, 3, parseFloat);
    FirstErrorStep(fields, L, 4, parseFloat);
    FirstErrorStep(fields, L, 5, parseFloat);
    FirstErrorStep(fields, L, 6, parseFloat);
    FirstErrorStep(fields, L, 7, parseFloat);
    FirstErrorStep(fields, L, 8, parseFloat);
    FirstErrorStep(fields, L, 9, parseFloat);
    FirstErrorStep(fields, L, 10, parseFloat);
  }

  /** Tags outside tag 35 and the layout cannot change the outcome. */
  lemma NewReadsOnlyLayout(f1: Fields, f2: Fields, parseFloat: string -> Option<real>)
    requires AgreeOn(f1, f2, MessageLayout)
    ensures New(f1, parseFloat) == New(f2, parseFloat)
  {
    var L := MessageLayout;
    assert L[0].tag == "11" && L[1].tag == "54" && L[2].tag == "60" && L[3].tag == "38";
    assert L[4].tag == "40" && L[5].tag == "44" && L[6].tag == "55" && L[7].tag == "59";
    assert L[8].tag == "1" && L[9].tag == "15" && L[10].tag == "18";
    HelpersReadOnlyTheirTag(f1, f2, "11", ParseString);
    HelpersReadOnlyTheirTag(f1, f2, "54", ParseChar);
    HelpersReadOnlyTheirTag(f1, f2, "60", ParseString);
    HelpersReadOnlyTheirTag(f1, f2, "38", parseFloat);
    HelpersReadOnlyTheirTag(f1, f2, "40", ParseChar);
    HelpersReadOnlyTheirTag(f1, f2, "44", parseFloat);
    HelpersReadOnlyTheirTag(f1, f2, "55", ParseString);
    HelpersReadOnlyTheirTag(f1, f2, "59", ParseChar);
    HelpersReadOnlyTheirTag(f1, f2, "1", ParseString);
    HelpersReadOnlyTheirTag(f1, f2, "15", ParseString);
    HelpersReadOnlyTheirTag(f1, f2, "18", ParseString);
  }
}
