/** The field coercion helpers of src/fix/fix_message.rs, `parse_field` and
    `parse_field_optional`, with the `FromStr` targets the factories use.
    Rust's generic `T: FromStr` becomes a parsing function passed in. */
module Coercion {
  import opened Wrappers
  import opened Wire

  /** The two error strings the helpers produce, exactly as formatted. */
  function MissingTag(tag: string): string { "Missing Tag " + tag }
  function InvalidTag(tag: string): string { "Invalid Tag " + tag }

  /** `HashMap::get`. */
  function Lookup(fields: Fields, tag: string): (r: Option<string>)
    ensures r.Some? <==> tag in fields
    ensures r.Some? ==> r.value == fields[tag]
  {
    if tag in fields then Some(fields[tag]) else None
  }

  /** `String::from_str`, which never fails. */
  function ParseString(s: string): Option<string>
  {
    Some(s)
  }

  /** `char::from_str`: succeeds exactly on a one-character string, giving that character. */
  function ParseChar(s: string): (r: Option<char>)
    ensures r.Some? <==> |s| == 1
    ensures r.Some? ==> [r.value] == s
  {
    if |s| == 1 then Some(s[0]) else None
  }

  /** `value.parse().map_err(..)`: the coerced value, or the Invalid error. */
  function Coerce<T>(value: string, tag: string, parse: string -> Option<T>): Result<T, string>
  {
    match parse(value)
    case Some(v) => Ok(v)
    case None => Err(InvalidTag(tag))
  }

  /** `parse_field`: a required tag. Absent gives "Missing Tag t", present but not
      coercible gives "Invalid Tag t", otherwise the coerced value. */
  function ParseField<T>(fields: Fields, tag: string, parse: string -> Option<T>): (r: Result<T, string>)
    ensures tag !in fields ==> r == Err(MissingTag(tag))
    ensures tag in fields && parse(fields[tag]).None? ==> r == Err(InvalidTag(tag))
    ensures tag in fields && parse(fields[tag]).Some? ==> r == Ok(parse(fields[tag]).value)
  {
    match Lookup(fields, tag)
    case None => Err(MissingTag(tag))
    case Some(value) => Coerce(value, tag, parse)
  }

  /** `parse_field_optional`: an optional tag. Absent gives Ok(None), not an error;
      present but not coercible gives "Invalid Tag t"; otherwise Ok(Some(value)). */
  function ParseFieldOptional<T>(fields: Fields, tag: string, parse: string -> Option<T>): (r: Result<Option<T>, string>)
    ensures tag !in fields ==> r == Ok(None)
    ensures tag in fields && parse(fields[tag]).None? ==> r == Err(InvalidTag(tag))
    ensures tag in fields && parse(fields[tag]).Some? ==> r == Ok(Some(parse(fields[tag]).value))
  {
    match Lookup(fields, tag)
    case None => Ok(None)
    case Some(value) =>
      var v :- Coerce(value, tag, parse);
      Ok(Some(v))
  }

  /** Both helpers see the map only through `get` of their own tag. */
  lemma HelpersReadOnlyTheirTag<T>(f1: Fields, f2: Fields, tag: string, parse: string -> Option<T>)
    requires Lookup(f1, tag) == Lookup(f2, tag)
    ensures ParseField(f1, tag, parse) == ParseField(f2, tag, parse)
    ensures ParseFieldOptional(f1, tag, parse) == ParseFieldOptional(f2, tag, parse)
  {
  }

  /** With a `String` target neither helper can fail on a present tag: the result is
      the raw stored value itself. */
  lemma StringTargetNeverInvalid(fields: Fields, tag: string)
    requires tag in fields
    ensures ParseField(fields, tag, ParseString) == Ok(fields[tag])
    ensures ParseFieldOptional(fields, tag, ParseString) == Ok(Some(fields[tag]))
  {
  }

  /** With a `char` target a present tag is accepted exactly when it is one character. */
  lemma CharTargetOneCharacter(fields: Fields, tag: string)
    requires tag in fields
    ensures ParseField(fields, tag, ParseChar).Ok? <==> |fields[tag]| == 1
    ensures ParseField(fields, tag, ParseChar).Ok? ==> [ParseField(fields, tag, ParseChar).value] == fields[tag]
    ensures ParseFieldOptional(fields, tag, ParseChar).Ok? <==> |fields[tag]| == 1
  {
  }

  /** The error strings identify their kind and their tag: "Missing Tag" and
      "Invalid Tag" never coincide, and each determines the tag it names. */
  lemma ErrorStringsDistinct(a: string, b: string)
    ensures MissingTag(a) != InvalidTag(b)
    ensures MissingTag(a) == MissingTag(b) ==> a == b
    ensures InvalidTag(a) == InvalidTag(b) ==> a == b
  {
    assert MissingTag(a)[0] != InvalidTag(b)[0];
    if MissingTag(a) == MissingTag(b) {
      assert a == MissingTag(a)[12..];
      assert b == MissingTag(b)[12..];
    }
    if InvalidTag(a) == InvalidTag(b) {
      assert a == InvalidTag(a)[12..];
      assert b == InvalidTag(b)[12..];
    }
  }
}
