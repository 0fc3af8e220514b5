/** What every factory does, stated once and independently of the helper calls:
    check tag 35, then resolve the message's attributes in declaration order,
    the first failing one deciding the error. Each factory module lists its
    attributes as a Layout and proves that its constructor agrees with this. */
module Layout {
  import opened Wrappers
  import opened Wire
  import opened Coercion

  /** The message-type tag and the factories' error for a wrong type. */
  const TYPE_TAG: string := "35"
  const INVALID_MESSAGE_TYPE: string := "Invalid message type"

  /** The three coercion targets: `String`, `char` and `f64`. */
  datatype Kind = Text | Code | Number

  /** One attribute of a message: its tag, its target, and whether it is required. */
  datatype Slot = Required(tag: string, kind: Kind) | Optional(tag: string, kind: Kind)

  /** Whether a raw value coerces to the target; `parseFloat` stands for `f64::from_str`. */
  predicate Coerces(kind: Kind, raw: string, parseFloat: string -> Option<real>)
  {
    match kind
    case Text => true
    case Code => |raw| == 1
    case Number => parseFloat(raw).Some?
  }

  /** The error one attribute produces, if any. */
  function SlotError(fields: Fields, slot: Slot, parseFloat: string -> Option<real>): Option<string>
  {
    if slot.tag !in fields then
      if slot.Required? then Some(MissingTag(slot.tag)) else None
    else if !Coerces(slot.kind, fields[slot.tag], parseFloat) then Some(InvalidTag(slot.tag))
    else None
  }

  /** The error of the first attribute, in order, that fails. */
  function FirstError(fields: Fields, slots: seq<Slot>, parseFloat: string -> Option<real>): Option<string>
  {
    FirstErrorFrom(fields, slots, 0, parseFloat)
  }

  /** The error of the first attribute at position `k` or later that fails. */
  function FirstErrorFrom(fields: Fields, slots: seq<Slot>, k: nat, parseFloat: string -> Option<real>): Option<string>
    decreases |slots| - k
  {
    if k >= |slots| then None
    else if SlotError(fields, slots[k], parseFloat).Some? then SlotError(fields, slots[k], parseFloat)
    else FirstErrorFrom(fields, slots, k + 1, parseFloat)
  }

  /** Tag 35 holds exactly `code`. */
  predicate HasType(fields: Fields, code: string)
  {
    TYPE_TAG in fields && fields[TYPE_TAG] == code
  }

  /** Two field stores that agree on the type tag and on every attribute's tag. */
  predicate AgreeOn(f1: Fields, f2: Fields, slots: seq<Slot>)
  {
    && Lookup(f1, TYPE_TAG) == Lookup(f2, TYPE_TAG)
    && forall i :: 0 <= i < |slots| ==> Lookup(f1, slots[i].tag) == Lookup(f2, slots[i].tag)
  }

  /** Unfolds FirstErrorFrom at position `k` of a layout. */
  lemma FirstErrorStep(fields: Fields, slots: seq<Slot>, k: nat, parseFloat: string -> Option<real>)
    requires k < |slots|
    ensures FirstErrorFrom(fields, slots, k, parseFloat) ==
      if SlotError(fields, slots[k], parseFloat).Some? then SlotError(fields, slots[k], parseFloat)
      else FirstErrorFrom(fields, slots, k + 1, parseFloat)
  {
  }

  /** Neither tag error can be mistaken for the wrong-type error. */
  lemma TagErrorsAreNotTypeError(tag: string)
    ensures MissingTag(tag) != INVALID_MESSAGE_TYPE
    ensures InvalidTag(tag) != INVALID_MESSAGE_TYPE
  {
    assert MissingTag(tag)[0] != INVALID_MESSAGE_TYPE[0];
    assert InvalidTag(tag)[8] != INVALID_MESSAGE_TYPE[8];
  }

  /** The first failure is always a Missing or Invalid error naming a tag of the
      layout, so it is never the wrong-type error. */
  lemma {:induction false} FirstErrorNamesTag(fields: Fields, slots: seq<Slot>, k: nat, parseFloat: string -> Option<real>)
    requires FirstErrorFrom(fields, slots, k, parseFloat).Some?
    ensures exists i :: (k <= i < |slots| &&
      FirstErrorFrom(fields, slots, k, parseFloat).value in {MissingTag(slots[i].tag), InvalidTag(slots[i].tag)})
    ensures FirstErrorFrom(fields, slots, k, parseFloat).value != INVALID_MESSAGE_TYPE
    decreases |slots| - k
  {
    var e := FirstErrorFrom(fields, slots, k, parseFloat).value;
    if SlotError(fields, slots[k], parseFloat).Some? {
      assert e in {MissingTag(slots[k].tag), InvalidTag(slots[k].tag)};
      TagErrorsAreNotTypeError(slots[k].tag);
    } else {
      FirstErrorNamesTag(fields, slots, k + 1, parseFloat);
    }
  }

  /** `parse` is a faithful coercion to `kind`. */
  ghost predicate CoercesAs<T>(parse: string -> Option<T>, kind: Kind, parseFloat: string -> Option<real>)
  {
    forall s :: parse(s).Some? <==> Coerces(kind, s, parseFloat)
  }

  /** `parse_field` fails on a required slot exactly as SlotError says. */
  lemma RequiredSlotAgrees<T>(fields: Fields, tag: string, kind: Kind, parse: string -> Option<T>,
                                parseFloat: string -> Option<real>)
    requires CoercesAs(parse, kind, parseFloat)
    ensures ParseField(fields, tag, parse).Err? <==> SlotError(fields, Required(tag, kind), parseFloat).Some?
    ensures ParseField(fields, tag, parse).Err? ==>
      SlotError(fields, Required(tag, kind), parseFloat) == Some(ParseField(fields, tag, parse).error)
  {
  }

  /** `parse_field_optional` fails on an optional slot exactly as SlotError says. */
  lemma OptionalSlotAgrees<T>(fields: Fields, tag: string, kind: Kind, parse: string -> Option<T>,
                                parseFloat: string -> Option<real>)
    requires CoercesAs(parse, kind, parseFloat)
    ensures ParseFieldOptional(fields, tag, parse).Err? <==> SlotError(fields, Optional(tag, kind), parseFloat).Some?
    ensures ParseFieldOptional(fields, tag, parse).Err? ==>
      SlotError(fields, Optional(tag, kind), parseFloat) == Some(ParseFieldOptional(fields, tag, parse).error)
  {
  }

  /** The three targets coerce as their kinds say. */
  lemma TargetsCoerce(parseFloat: string -> Option<real>)
    ensures CoercesAs(ParseString, Text, parseFloat)
    ensures CoercesAs(ParseChar, Code, parseFloat)
    ensures CoercesAs(parseFloat, Number, parseFloat)
  {
  }

  /** Attribute values a successful construction must carry. */
  predicate TextIs(fields: Fields, tag: string, s: string)
  {
    tag in fields && fields[tag] == s
  }

  predicate CodeIs(fields: Fields, tag: string, c: char)
  {
    tag in fields && fields[tag] == [c]
  }

  predicate NumberIs(fields: Fields, tag: string, parseFloat: string -> Option<real>, x: real)
  {
    tag in fields && parseFloat(fields[tag]) == Some(x)
  }

  predicate OptTextIs(fields: Fields, tag: string, o: Option<string>)
  {
    if tag in fields then o == Some(fields[tag]) else o == None
  }

  predicate OptCodeIs(fields: Fields, tag: string, o: Option<char>)
  {
    if tag in fields then o.Some? && fields[tag] == [o.value] else o == None
  }

  predicate OptNumberIs(fields: Fields, tag: string, parseFloat: string -> Option<real>, o: Option<real>)
  {
    if tag in fields then o.Some? && parseFloat(fields[tag]) == o else o == None
  }
}
