/** The wire format shared by both raw parsers: `tag=value` segments separated by
    `|`, collected into a field store in which a later duplicate tag overwrites an
    earlier one. Both parsers in the repository (`FixMessage::parse` in
    src/fix_message.rs and `FixMessageParser::parse_message` in
    src/fix/fix_message_parser.rs) are proved against FieldsOf below. */
module Wire {
  import opened Wrappers
  import opened Text

  /** Record delimiter and assignment character (both files declare `|` and `=`). */
  const DELIMITER: char := '|'
  const ASSIGNMENT: char := '='

  /** A field store: tag to raw value, as Rust's `HashMap<String, String>`. */
  type Fields = map<string, string>

  /** The (tag, value) pair a segment contributes: none when it has no `=`. */
  function PairOf(segment: string): (r: seq<(string, string)>)
    ensures |r| <= 1
    ensures |r| == 0 <==> ASSIGNMENT !in segment
  {
    match SplitOnce(segment, ASSIGNMENT)
    case None => []
    case Some(pair) => [pair]
  }

  /** True when `segment` contributes a pair whose tag is `k`. */
  predicate HasKey(segment: string, k: string)
  {
    SplitOnce(segment, ASSIGNMENT).Some? && SplitOnce(segment, ASSIGNMENT).value.0 == k
  }

  /** True when some segment contributes a pair whose tag is `k`. */
  predicate Carries(segments: seq<string>, k: string)
  {
    exists i :: 0 <= i < |segments| && HasKey(segments[i], k)
  }

  /** The pairs of the segments that carry `=`, in segment order. */
  function Pairs(segments: seq<string>): (r: seq<(string, string)>)
    ensures |r| <= |segments|
  {
    if |segments| == 0 then []
    else Pairs(segments[..|segments| - 1]) + PairOf(segments[|segments| - 1])
  }

  /** Inserting the pairs one after another into an empty map. */
  function MapOf(pairs: seq<(string, string)>): Fields
  {
    if |pairs| == 0 then map[]
    else
      var last := pairs[|pairs| - 1];
      MapOf(pairs[..|pairs| - 1])[last.0 := last.1]
  }

  /** The field store a raw message denotes. */
  function FieldsOf(message: string): Fields
  {
    MapOf(Pairs(Split(message, DELIMITER)))
  }

  lemma MapOfSnoc(pairs: seq<(string, string)>, p: (string, string))
    ensures MapOf(pairs + [p]) == MapOf(pairs)[p.0 := p.1]
  {
    assert (pairs + [p])[..|pairs|] == pairs;
  }

  /** One more segment: the loop step of both parsers. */
  lemma PairsSnoc(segments: seq<string>, segment: string)
    ensures Pairs(segments + [segment]) == Pairs(segments) + PairOf(segment)
  {
    assert (segments + [segment])[..|segments|] == segments;
  }

  /** A loop step over a segment that carries a pair: that pair is inserted. */
  lemma FieldsStepPair(segments: seq<string>, i: nat, k: string, v: string)
    requires i < |segments|
    requires SplitOnce(segments[i], ASSIGNMENT) == Some((k, v))
    ensures MapOf(Pairs(segments[..i + 1])) == MapOf(Pairs(segments[..i]))[k := v]
  {
    assert segments[..i + 1] == segments[..i] + [segments[i]];
    PairsSnoc(segments[..i], segments[i]);
    MapOfSnoc(Pairs(segments[..i]), (k, v));
  }

  /** A loop step over a segment without `=`: nothing is inserted. */
  lemma FieldsStepSkip(segments: seq<string>, i: nat)
    requires i < |segments|
    requires SplitOnce(segments[i], ASSIGNMENT).None?
    ensures MapOf(Pairs(segments[..i + 1])) == MapOf(Pairs(segments[..i]))
  {
    assert segments[..i + 1] == segments[..i] + [segments[i]];
    PairsSnoc(segments[..i], segments[i]);
    assert Pairs(segments[..i]) + [] == Pairs(segments[..i]);
  }

  /** The empty message has no fields: its only segment is empty and has no `=`. */
  lemma EmptyMessageHasNoFields()
    ensures FieldsOf("") == map[]
  {
    assert Split("", DELIMITER) == [""];
    assert Pairs([""]) == Pairs([]) + PairOf("");
  }

  /** A key's value is the one from the last pair that carries that key. */
  lemma {:induction false} MapOfLastWins(pairs: seq<(string, string)>, j: nat)
    requires j < |pairs|
    requires forall i :: j < i < |pairs| ==> pairs[i].0 != pairs[j].0
    ensures pairs[j].0 in MapOf(pairs) && MapOf(pairs)[pairs[j].0] == pairs[j].1
    decreases |pairs|
  {
    if j < |pairs| - 1 {
      var init := pairs[..|pairs| - 1];
      assert forall i :: j < i < |init| ==> init[i] == pairs[i];
      MapOfLastWins(init, j);
    }
  }

  /** The keys of MapOf are exactly the keys of its pairs. */
  lemma {:induction false} MapOfKeys(pairs: seq<(string, string)>, k: string)
    ensures k in MapOf(pairs) <==> exists i :: 0 <= i < |pairs| && pairs[i].0 == k
    decreases |pairs|
  {
    if |pairs| > 0 {
      var init := pairs[..|pairs| - 1];
      MapOfKeys(init, k);
      if k in MapOf(init) {
        var i :| 0 <= i < |init| && init[i].0 == k;
        assert pairs[i].0 == k;
      }
      if exists i :: 0 <= i < |pairs| && pairs[i].0 == k {
        var i :| 0 <= i < |pairs| && pairs[i].0 == k;
        if i < |init| {
          assert init[i].0 == k;
        }
      }
    }
  }

  /** Segment-level last-write-wins: the value stored for `k` is the value of the
      last segment whose tag is `k`. */
  lemma {:induction false} LastSegmentWins(segments: seq<string>, j: nat, k: string, v: string)
    requires j < |segments| && SplitOnce(segments[j], ASSIGNMENT) == Some((k, v))
    requires forall i :: j < i < |segments| ==> !HasKey(segments[i], k)
    ensures k in MapOf(Pairs(segments)) && MapOf(Pairs(segments))[k] == v
    decreases |segments|
  {
    var n := |segments|;
    var init := segments[..n - 1];
    assert segments == init + [segments[n - 1]];
    PairsSnoc(init, segments[n - 1]);
    if j == n - 1 {
      MapOfSnoc(Pairs(init), (k, v));
    } else {
      assert forall i :: j < i < |init| ==> init[i] == segments[i];
      LastSegmentWins(init, j, k, v);
      match SplitOnce(segments[n - 1], ASSIGNMENT)
      case None =>
        assert Pairs(init) + [] == Pairs(init);
      case Some(p) =>
        assert p.0 != k;
        MapOfSnoc(Pairs(init), p);
    }
  }

  /** A tag is stored exactly when some segment carries it. */
  lemma {:induction false} KeysFromSegments(segments: seq<string>, k: string)
    ensures k in MapOf(Pairs(segments)) <==> Carries(segments, k)
    decreases |segments|
  {
    var n := |segments|;
    if n > 0 {
      var init := segments[..n - 1];
      var last := segments[n - 1];
      assert segments == init + [last];
      PairsSnoc(init, last);
      KeysFromSegments(init, k);
      assert Carries(segments, k) <==> Carries(init, k) || HasKey(last, k) by {
        if Carries(init, k) {
          var i :| 0 <= i < |init| && HasKey(init[i], k);
          assert HasKey(segments[i], k);
        }
        if Carries(segments, k) && !HasKey(last, k) {
          var i :| 0 <= i < n && HasKey(segments[i], k);
          assert HasKey(init[i], k);
        }
      }
      match SplitOnce(last, ASSIGNMENT)
      case None =>
        assert Pairs(init) + [] == Pairs(init);
      case Some(p) =>
        MapOfSnoc(Pairs(init), p);
    }
  }

  /** A stored tag appears verbatim in the message: it is the text before the first
      `=` of a whole `|`-segment, so it contains neither `=` nor `|`. */
  lemma KeyProvenance(message: string, k: string)
    requires k in FieldsOf(message)
    ensures Carries(Split(message, DELIMITER), k)
    ensures ASSIGNMENT !in k && DELIMITER !in k
  {
    var segments := Split(message, DELIMITER);
    KeysFromSegments(segments, k);
    var i :| 0 <= i < |segments| && HasKey(segments[i], k);
    var v := SplitOnce(segments[i], ASSIGNMENT).value.1;
    assert segments[i] == k + [ASSIGNMENT] + v;
    assert forall c :: c in k ==> c in segments[i];
  }

  /** A segment without `=` adds nothing, wherever it stands among the others. */
  lemma {:induction false} SegmentWithoutAssignmentIgnored(before: seq<string>, segment: string, after: seq<string>)
    requires ASSIGNMENT !in segment
    ensures Pairs(before + [segment] + after) == Pairs(before + after)
    decreases |after|
  {
    if |after| == 0 {
      assert before + [segment] + after == before + [segment];
      assert before + after == before;
      PairsSnoc(before, segment);
      assert Pairs(before) + [] == Pairs(before);
    } else {
      var last := after[|after| - 1];
      var init := after[..|after| - 1];
      assert before + [segment] + after == (before + [segment] + init) + [last];
      assert before + after == (before + init) + [last];
      PairsSnoc(before + [segment] + init, last);
      PairsSnoc(before + init, last);
      SegmentWithoutAssignmentIgnored(before, segment, init);
    }
  }

  // ----- Well-formed messages: the round trip from pairs to text and back -----

  /** A pair that can be written as a segment and read back unchanged. */
  predicate WellFormed(p: (string, string))
  {
    ASSIGNMENT !in p.0 && DELIMITER !in p.0 && DELIMITER !in p.1
  }

  /** The segment of one pair: `tag=value`. */
  function Segment(p: (string, string)): string
  {
    p.0 + [ASSIGNMENT] + p.1
  }

  /** A message made of the given pairs, each followed by `|` (as in the
      repository's sample messages). */
  function Encode(pairs: seq<(string, string)>): string
  {
    if |pairs| == 0 then "" else Segment(pairs[0]) + [DELIMITER] + Encode(pairs[1..])
  }

  function Segments(pairs: seq<(string, string)>): seq<string>
  {
    seq(|pairs|, i requires 0 <= i < |pairs| => Segment(pairs[i]))
  }

  lemma SegmentHasNoDelimiter(p: (string, string))
    requires WellFormed(p)
    ensures DELIMITER !in Segment(p)
  {
    assert Segment(p) == p.0 + ([ASSIGNMENT] + p.1);
  }

  lemma SegmentsCons(pairs: seq<(string, string)>)
    requires |pairs| > 0
    ensures Segments(pairs) == [Segment(pairs[0])] + Segments(pairs[1..])
  {
  }

  lemma {:induction false} SplitEncode(pairs: seq<(string, string)>)
    requires forall i :: 0 <= i < |pairs| ==> WellFormed(pairs[i])
    ensures Split(Encode(pairs), DELIMITER) == Segments(pairs) + [""]
    decreases |pairs|
  {
    if |pairs| > 0 {
      var seg := Segment(pairs[0]);
      SegmentHasNoDelimiter(pairs[0]);
      SplitAfterPiece(seg, Encode(pairs[1..]), DELIMITER);
      SplitEncode(pairs[1..]);
      SegmentsCons(pairs);
    }
  }

  lemma {:induction false} PairsOfSegments(pairs: seq<(string, string)>)
    requires forall i :: 0 <= i < |pairs| ==> WellFormed(pairs[i])
    ensures Pairs(Segments(pairs)) == pairs
    decreases |pairs|
  {
    var n := |pairs|;
    if n > 0 {
      var init := pairs[..n - 1];
      assert Segments(pairs)[..n - 1] == Segments(init);
      PairsOfSegments(init);
      SplitOnceFirst(pairs[n - 1].0, pairs[n - 1].1, ASSIGNMENT);
      assert init + [pairs[n - 1]] == pairs;
    }
  }

  /** Parsing a message built from well-formed pairs gives the map obtained by
      inserting those pairs in order, so every tag reads back as the value of its
      last occurrence (MapOfLastWins). */
  lemma EncodeParses(pairs: seq<(string, string)>)
    requires forall i :: 0 <= i < |pairs| ==> WellFormed(pairs[i])
    ensures FieldsOf(Encode(pairs)) == MapOf(pairs)
  {
    SplitEncode(pairs);
    PairsSnoc(Segments(pairs), "");
    PairsOfSegments(pairs);
    assert pairs + [] == pairs;
  }

  /** The last occurrence of each tag wins, stated for any well-formed message. */
  lemma EncodedLastOccurrenceWins(pairs: seq<(string, string)>, j: nat)
    requires forall i :: 0 <= i < |pairs| ==> WellFormed(pairs[i])
    requires j < |pairs|
    requires forall i :: j < i < |pairs| ==> pairs[i].0 != pairs[j].0
    ensures pairs[j].0 in FieldsOf(Encode(pairs))
    ensures FieldsOf(Encode(pairs))[pairs[j].0] == pairs[j].1
  {
    EncodeParses(pairs);
    MapOfLastWins(pairs, j);
  }
}
