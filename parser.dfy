/** The router of src/fix/fix_message_parser.rs: raw text in, a typed message (or
    Unknown) out. The typed union is the `FixMessage` enum of src/fix/fix_message.rs. */
module Parser {
  import opened Wrappers
  import opened Text
  import opened Wire
  import opened Layout
  import NO = NewOrders
  import ER = ExecutionReports
  import OCR = OrderCancelRequests
  import OSR = OrderStatusRequests

  /** A routed message: one of the four known kinds, or Unknown. */
  datatype FixMessage =
    | NewOrder(newOrder: NO.NewOrder)
    | ExecutionReport(executionReport: ER.ExecutionReport)
    | OrderCancelRequest(orderCancelRequest: OCR.OrderCancelRequest)
    | OrderStatusRequest(orderStatusRequest: OSR.OrderStatusRequest)
    | Unknown

  /** The message type the router dispatches on: the stored value of tag 35, or
      the empty string when the message has none. */
  function MsgType(fields: Fields): string
  {
    if TYPE_TAG in fields then fields[TYPE_TAG] else ""
  }

  /** The final `match`: a fixed table from type code to factory. A failing factory
      and an unlisted code both give Unknown. */
  function Dispatch(msgType: string, fields: Fields, parseFloat: string -> Option<real>): FixMessage
  {
    if msgType == NO.CODE then
      match NO.New(fields, parseFloat)
      case Ok(o) => NewOrder(o)
      case Err(_) => Unknown
    else if msgType == ER.CODE then
      match ER.New(fields, parseFloat)
      case Ok(o) => ExecutionReport(o)
      case Err(_) => Unknown
    else if msgType == OCR.CODE then
      match OCR.New(fields, parseFloat)
      case Ok(o) => OrderCancelRequest(o)
      case Err(_) => Unknown
    else if msgType == OSR.CODE then
      match OSR.New(fields)
      case Ok(o) => OrderStatusRequest(o)
      case Err(_) => Unknown
    else Unknown
  }

  /** What routing a raw message means: dispatch its field store on its type. */
  function Route(message: string, parseFloat: string -> Option<real>): FixMessage
  {
    var fields := FieldsOf(message);
    Dispatch(MsgType(fields), fields, parseFloat)
  }

  /** `FixMessageParser::parse_message`: one pass over the `|`-segments that inserts
      every `tag=value` pair and remembers the latest value of tag 35, then the
      dispatch on that value. `parseFloat` stands for `f64::from_str`. */
  method ParseMessage(message: string, parseFloat: string -> Option<real>) returns (m: FixMessage)
    ensures m == Route(message, parseFloat)
  {
    var fields: Fields := map[];
    var msgType := "";
    var segments := Split(message, DELIMITER);
    for i := 0 to |segments|
      invariant fields == MapOf(Pairs(segments[..i]))
      invariant msgType == MsgType(fields)
    {
      match SplitOnce(segments[i], ASSIGNMENT)
      case Some((key, value)) =>
        FieldsStepPair(segments, i, key, value);
        fields := fields[key := value];
        if key == TYPE_TAG {
          msgType := value;
        }
      case None =>
        FieldsStepSkip(segments, i);
    }
    assert segments[..|segments|] == segments;
    m := Dispatch(msgType, fields, parseFloat);
  }

  // ----- Properties of routing -----

  /** The dispatched type is the value of the last segment carrying tag 35. */
  lemma MsgTypeIsLastTypeSegment(message: string, j: nat, v: string)
    requires j < |Split(message, DELIMITER)|
    requires SplitOnce(Split(message, DELIMITER)[j], ASSIGNMENT) == Some((TYPE_TAG, v))
    requires forall i :: j < i < |Split(message, DELIMITER)| ==> !HasKey(Split(message, DELIMITER)[i], TYPE_TAG)
    ensures MsgType(FieldsOf(message)) == v
  {
    LastSegmentWins(Split(message, DELIMITER), j, TYPE_TAG, v);
  }

  /** Without any tag-35 segment the dispatched type is empty, hence Unknown. */
  lemma NoTypeSegmentRoutesUnknown(message: string, parseFloat: string -> Option<real>)
    requires !Carries(Split(message, DELIMITER), TYPE_TAG)
    ensures MsgType(FieldsOf(message)) == ""
    ensures Route(message, parseFloat) == Unknown
  {
    KeysFromSegments(Split(message, DELIMITER), TYPE_TAG);
  }

  /** The code table, stated against the reference layouts: a known kind comes out
      exactly when its code is dispatched and none of its attributes fails, and it
      then carries the values its tags denote. */
  lemma DispatchTable(fields: Fields, parseFloat: string -> Option<real>)
    ensures var r := Dispatch(MsgType(fields), fields, parseFloat);
      && (r.NewOrder? <==> MsgType(fields) == NO.CODE && FirstError(fields, NO.MessageLayout, parseFloat).None?)
      && (r.NewOrder? ==> NO.Decodes(r.newOrder, fields, parseFloat))
      && (r.ExecutionReport? <==> MsgType(fields) == ER.CODE && FirstError(fields, ER.MessageLayout, parseFloat).None?)
      && (r.ExecutionReport? ==> ER.Decodes(r.executionReport, fields, parseFloat))
      && (r.OrderCancelRequest? <==> MsgType(fields) == OCR.CODE && FirstError(fields, OCR.MessageLayout, parseFloat).None?)
      && (r.OrderCancelRequest? ==> OCR.Decodes(r.orderCancelRequest, fields, parseFloat))
      && (r.OrderStatusRequest? <==> MsgType(fields) == OSR.CODE && FirstError(fields, OSR.MessageLayout, parseFloat).None?)
      && (r.OrderStatusRequest? ==> OSR.Decodes(r.orderStatusRequest, fields))
  {
    var code := MsgType(fields);
    if code == NO.CODE {
      NO.NewFollowsLayout(fields, parseFloat);
    } else if code == ER.CODE {
      ER.NewFollowsLayout(fields, parseFloat);
    } else if code == OCR.CODE {
      OCR.NewFollowsLayout(fields, parseFloat);
    } else if code == OSR.CODE {
      OSR.NewFollowsLayout(fields, parseFloat);
    }
  }

  /** Unknown comes out exactly when the code is not one of `D`, `8`, `F`, `H`, or
      the selected factory failed on some attribute. */
  lemma UnknownExactly(fields: Fields, parseFloat: string -> Option<real>)
    ensures Dispatch(MsgType(fields), fields, parseFloat).Unknown? <==>
      || MsgType(fields) !in {NO.CODE, ER.CODE, OCR.CODE, OSR.CODE}
      || (MsgType(fields) == NO.CODE && FirstError(fields, NO.MessageLayout, parseFloat).Some?)
      || (MsgType(fields) == ER.CODE && FirstError(fields, ER.MessageLayout, parseFloat).Some?)
      || (MsgType(fields) == OCR.CODE && FirstError(fields, OCR.MessageLayout, parseFloat).Some?)
      || (MsgType(fields) == OSR.CODE && FirstError(fields, OSR.MessageLayout, parseFloat).Some?)
  {
    DispatchTable(fields, parseFloat);
  }

  /** A factory reached through the table always passes its own tag-35 check: if it
      fails, the reason is a Missing or Invalid tag, never "Invalid message type". */
  lemma RoutedFactoryPassesTypeCheck(fields: Fields, parseFloat: string -> Option<real>)
    ensures MsgType(fields) == NO.CODE ==> NO.New(fields, parseFloat).ErrorOf() != Some(INVALID_MESSAGE_TYPE)
    ensures MsgType(fields) == ER.CODE ==> ER.New(fields, parseFloat).ErrorOf() != Some(INVALID_MESSAGE_TYPE)
    ensures MsgType(fields) == OCR.CODE ==> OCR.New(fields, parseFloat).ErrorOf() != Some(INVALID_MESSAGE_TYPE)
    ensures MsgType(fields) == OSR.CODE ==> OSR.New(fields).ErrorOf() != Some(INVALID_MESSAGE_TYPE)
  {
    var code := MsgType(fields);
    if code == NO.CODE {
      NO.NewFollowsLayout(fields, parseFloat);
      if FirstError(fields, NO.MessageLayout, parseFloat).Some? {
        FirstErrorNamesTag(fields, NO.MessageLayout, 0, parseFloat);
      }
    } else if code == ER.CODE {
      ER.NewFollowsLayout(fields, parseFloat);
      if FirstError(fields, ER.MessageLayout, parseFloat).Some? {
        FirstErrorNamesTag(fields, ER.MessageLayout, 0, parseFloat);
      }
    } else if code == OCR.CODE {
      OCR.NewFollowsLayout(fields, parseFloat);
      if FirstError(fields, OCR.MessageLayout, parseFloat).Some? {
        FirstErrorNamesTag(fields, OCR.MessageLayout, 0, parseFloat);
      }
    } else if code == OSR.CODE {
      OSR.NewFollowsLayout(fields, parseFloat);
      if FirstError(fields, OSR.MessageLayout, parseFloat).Some? {
        FirstErrorNamesTag(fields, OSR.MessageLayout, 0, parseFloat);
      }
    }
  }
}
