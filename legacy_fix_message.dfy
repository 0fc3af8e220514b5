/** The older field-store API of src/fix_message.rs: a message is nothing but its
    map from tag to raw value. */
module LegacyFixMessage {
  import opened Wrappers
  import opened Text
  import opened Wire

  datatype FixMessage = FixMessage(fields: Fields) {

    /** `get`: the stored value of `tag`, or None when the tag was never stored. */
    function Get(tag: string): (r: Option<string>)
      ensures r.Some? <==> tag in fields
      ensures r.Some? ==> r.value == fields[tag]
    {
      if tag in fields then Some(fields[tag]) else None
    }

    /** `into_iter`: the (tag, value) entries of the message, each exactly once.
        The order a `HashMap` yields them in is not modelled, so they form a set. */
    function IntoIter(): (r: set<(string, string)>)
      ensures forall k, v :: (k, v) in r <==> k in fields && fields[k] == v
      ensures |r| == |fields|
    {
      fields.Items
    }
  }

  /** `FixMessage::parse`: split on `|`, split each segment at its first `=`,
      insert the pair (a later duplicate overwrites), drop segments without `=`. */
  method Parse(message: string) returns (m: FixMessage)
    ensures m.fields == FieldsOf(message)
  {
    var fields: Fields := map[];
    var segments := Split(message, DELIMITER);
    for i := 0 to |segments|
      invariant fields == MapOf(Pairs(segments[..i]))
    {
      match SplitOnce(segments[i], ASSIGNMENT)
      case Some((key, value)) =>
        FieldsStepPair(segments, i, key, value);
        fields := fields[key := value];
      case None =>
        FieldsStepSkip(segments, i);
    }
    assert segments[..|segments|] == segments;
    m := FixMessage(fields);
  }

  /** Looking a tag up after parsing: None exactly when no segment carried the tag. */
  lemma GetNoneIffNeverKey(message: string, tag: string)
    ensures FixMessage(FieldsOf(message)).Get(tag).None? <==> !Carries(Split(message, DELIMITER), tag)
  {
    KeysFromSegments(Split(message, DELIMITER), tag);
  }

  /** Looking a tag up after parsing: the value of the last segment carrying it. */
  lemma GetLastOccurrence(message: string, j: nat, tag: string, value: string)
    requires j < |Split(message, DELIMITER)|
    requires SplitOnce(Split(message, DELIMITER)[j], ASSIGNMENT) == Some((tag, value))
    requires forall i :: j < i < |Split(message, DELIMITER)| ==> !HasKey(Split(message, DELIMITER)[i], tag)
    ensures FixMessage(FieldsOf(message)).Get(tag) == Some(value)
  {
    LastSegmentWins(Split(message, DELIMITER), j, tag, value);
  }
}
