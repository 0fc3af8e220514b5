/** The repository's unit tests, restated as lemmas about the model. Each routing
    sample starts from the field store its test message denotes: one requirement
    per `tag=value` segment of the message, and one per attribute tag that the
    message does not carry. */
module Samples {
  import opened Wrappers
  import opened Wire
  import opened Coercion
  import opened Parser
  import NO = NewOrders
  import ER = ExecutionReports
  import OCR = OrderCancelRequests
  import OSR = OrderStatusRequests

  /** The `parse_field` and `parse_field_optional` tests: a present text tag, a
      missing tag, and a value the integer parser (`parseInt`) refuses. */
  lemma ParseFieldSamples(parseInt: string -> Option<int>)
    requires parseInt("abc").None?
    ensures ParseField(map["11" := "12345"], "11", ParseString) == Ok("12345")
    ensures ParseField(map[], "11", ParseString) == Err("Missing Tag 11")
    ensures ParseField(map["11" := "abc"], "11", parseInt) == Err("Invalid Tag 11")
    ensures ParseFieldOptional(map["11" := "12345"], "11", ParseString) == Ok(Some("12345"))
    ensures ParseFieldOptional(map[], "11", ParseString) == Ok(None)
    ensures ParseFieldOptional(map["11" := "abc"], "11", parseInt) == Err("Invalid Tag 11")
  {
    assert MissingTag("11") == "Missing Tag 11";
    assert InvalidTag("11") == "Invalid Tag 11";
  }

  /** `35=D|11=12345|54=1|60=20230101-12:00:00|38=100|40=2|44=50.5|55=XYZ|59=0|1=ACC123|15=USD|18=G|`
      becomes a NewOrder carrying exactly those values. */
  lemma NewOrderSample(fields: Fields, parseFloat: string -> Option<real>)
    requires parseFloat("100") == Some(100.0) && parseFloat("50.5") == Some(50.5)
    requires Lookup(fields, "35") == Some("D")
    requires Lookup(fields, "11") == Some("12345")
    requires Lookup(fields, "54") == Some("1")
    requires Lookup(fields, "60") == Some("20230101-12:00:00")
    requires Lookup(fields, "38") == Some("100")
    requires Lookup(fields, "40") == Some("2")
    requires Lookup(fields, "44") == Some("50.5")
    requires Lookup(fields, "55") == Some("XYZ")
    requires Lookup(fields, "59") == Some("0")
    requires Lookup(fields, "1") == Some("ACC123")
    requires Lookup(fields, "15") == Some("USD")
    requires Lookup(fields, "18") == Some("G")
    ensures Dispatch(MsgType(fields), fields, parseFloat)
      == NewOrder(NO.NewOrder("12345", '1', "20230101-12:00:00", 100.0, '2', Some(50.5), "XYZ",
                              Some('0'), Some("ACC123"), Some("USD"), Some("G")))
  {
    assert ParseChar("1") == Some('1');
    assert ParseChar("2") == Some('2');
    assert ParseChar("0") == Some('0');
  }

  /** The same order without its tag 38: the first failing attribute is the
      quantity, so the factory reports "Missing Tag 38" and the router Unknown. */
  lemma NewOrderMissingQuantity(fields: Fields, parseFloat: string -> Option<real>)
    requires Lookup(fields, "35") == Some("D")
    requires Lookup(fields, "11") == Some("12345")
    requires Lookup(fields, "54") == Some("1")
    requires Lookup(fields, "60") == Some("20230101-12:00:00")
    requires Lookup(fields, "38") == None
    ensures NO.New(fields, parseFloat) == Err("Missing Tag 38")
    ensures Dispatch(MsgType(fields), fields, parseFloat) == Unknown
  {
    assert ParseChar("1") == Some('1');
    assert MissingTag("38") == "Missing Tag 38";
  }

  /** `35=8|11=12345|17=1|150=0|39=2|55=XYZ|54=1|38=100|44=50.5|37=54321|151=100|14=0|60=20231027-15:48:00.123|`
      (no tag 6) becomes an ExecutionReport carrying exactly those values. */
  lemma ExecutionReportSample(fields: Fields, parseFloat: string -> Option<real>)
    requires parseFloat("100") == Some(100.0) && parseFloat("50.5") == Some(50.5)
    requires parseFloat("0") == Some(0.0)
    requires Lookup(fields, "35") == Some("8")
    requires Lookup(fields, "11") == Some("12345")
    requires Lookup(fields, "17") == Some("1")
    requires Lookup(fields, "150") == Some("0")
    requires Lookup(fields, "39") == Some("2")
    requires Lookup(fields, "55") == Some("XYZ")
    requires Lookup(fields, "54") == Some("1")
    requires Lookup(fields, "38") == Some("100")
    requires Lookup(fields, "44") == Some("50.5")
    requires Lookup(fields, "37") == Some("54321")
    requires Lookup(fields, "151") == Some("100")
    requires Lookup(fields, "14") == Some("0")
    requires Lookup(fields, "60") == Some("20231027-15:48:00.123")
    requires Lookup(fields, "6") == None
    ensures Dispatch(MsgType(fields), fields, parseFloat)
      == ExecutionReport(ER.ExecutionReport("12345", "54321", "1", '0', '2', '1', 100.0, 0.0, None,
                                            "XYZ", "20231027-15:48:00.123", 100.0, 50.5))
  {
    assert ParseChar("0") == Some('0');
    assert ParseChar("2") == Some('2');
    assert ParseChar("1") == Some('1');
  }

  /** `35=F|11=12345|41=54321|54=1|55=XYZ|60=20231027-15:48:00.123|` (no tag 38)
      becomes an OrderCancelRequest carrying exactly those values. */
  lemma OrderCancelRequestSample(fields: Fields, parseFloat: string -> Option<real>)
    requires Lookup(fields, "35") == Some("F")
    requires Lookup(fields, "11") == Some("12345")
    requires Lookup(fields, "41") == Some("54321")
    requires Lookup(fields, "54") == Some("1")
    requires Lookup(fields, "55") == Some("XYZ")
    requires Lookup(fields, "60") == Some("20231027-15:48:00.123")
    requires Lookup(fields, "38") == None
    ensures Dispatch(MsgType(fields), fields, parseFloat)
      == OrderCancelRequest(OCR.OrderCancelRequest("54321", "12345", '1', "XYZ", "20231027-15:48:00.123", None))
  {
    assert ParseChar("1") == Some('1');
  }

  /** `35=H|11=12345|54=1|55=XYZ|60=20231027-15:48:00.123|` becomes an
      OrderStatusRequest carrying exactly those values. */
  lemma OrderStatusRequestSample(fields: Fields, parseFloat: string -> Option<real>)
    requires Lookup(fields, "35") == Some("H")
    requires Lookup(fields, "11") == Some("12345")
    requires Lookup(fields, "54") == Some("1")
    requires Lookup(fields, "55") == Some("XYZ")
    requires Lookup(fields, "60") == Some("20231027-15:48:00.123")
    ensures Dispatch(MsgType(fields), fields, parseFloat)
      == OrderStatusRequest(OSR.OrderStatusRequest("12345", "XYZ", '1', "20231027-15:48:00.123"))
  {
    assert ParseChar("1") == Some('1');
  }

  /** `35=Z|11=12345|`: an unlisted type code routes to Unknown. */
  lemma UnknownSample(fields: Fields, parseFloat: string -> Option<real>)
    requires Lookup(fields, "35") == Some("Z")
    ensures Dispatch(MsgType(fields), fields, parseFloat) == Unknown
  {
  }
}
