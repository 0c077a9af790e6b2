/** The two string sinks behind the argument builders: the lifecycle-outcome bitmask and the bounded
    branch-resolution text. */
module StringSinks {
  import opened Common
  import opened Utf8
  import opened ArgumentBuilders

  function Ascii(s: string): (bytes: seq<Byte>)
    ensures |bytes| == |s|
  {
    seq(|s|, i requires 0 <= i < |s| => (s[i] as int) % 128)
  }

  // Lifecycle outcomes

  datatype Outcome = PhaseNeedsReview | BlockedNeedsOperator | PhaseContinue | PlanComplete

  const SUPPORTED: nat := 4

  function Supported(i: nat): (o: Outcome)
    requires i < SUPPORTED
  {
    if i == 0 then PhaseNeedsReview else if i == 1 then BlockedNeedsOperator
    else if i == 2 then PhaseContinue else PlanComplete
  }

  function NameOf(o: Outcome): (name: seq<Byte>)
  {
    match o
    case PhaseNeedsReview => Ascii("phase_needs_review")
    case BlockedNeedsOperator => Ascii("blocked_needs_operator")
    case PhaseContinue => Ascii("phase_continue")
    case PlanComplete => Ascii("plan_complete")
  }

  /** The names, byte by byte. */
  lemma NameBytes()
    ensures NameOf(PhaseNeedsReview) ==
            [112, 104, 97, 115, 101, 95, 110, 101, 101, 100, 115, 95, 114, 101, 118, 105, 101, 119]
    ensures NameOf(BlockedNeedsOperator) ==
            [98, 108, 111, 99, 107, 101, 100, 95, 110, 101, 101, 100, 115, 95, 111, 112, 101, 114, 97, 116, 111, 114]
  {
    assert |"phase_needs_review"| == 18 && |"blocked_needs_operator"| == 22;
  }

  lemma MoreNameBytes()
    ensures NameOf(PhaseContinue) == [112, 104, 97, 115, 101, 95, 99, 111, 110, 116, 105, 110, 117, 101]
    ensures NameOf(PlanComplete) == [112, 108, 97, 110, 95, 99, 111, 109, 112, 108, 101, 116, 101]
  {
    assert |"phase_continue"| == 14 && |"plan_complete"| == 13;
  }

  lemma ArgumentNameBytes()
    ensures Ascii("outcome") == [111, 117, 116, 99, 111, 109, 101]
    ensures Ascii("resolution") == [114, 101, 115, 111, 108, 117, 116, 105, 111, 110]
  {
  }

  lemma NamesDiffer(a: Outcome, b: Outcome)
    ensures NameOf(a) == NameOf(b) <==> a == b
  {
    assert |NameOf(PhaseNeedsReview)| == 18 && |NameOf(BlockedNeedsOperator)| == 22;
    assert |NameOf(PhaseContinue)| == 14 && |NameOf(PlanComplete)| == 13;
  }

  function LifecycleFeed(text: seq<Byte>, bytes: seq<Byte>): (r: Result<seq<Byte>, Rejection>)
  {
    if |text| + |bytes| > USIZE_MAX then Err(InvalidEnum) else Ok(text + bytes)
  }

  function LifecycleFinish(text: seq<Byte>): (r: Result<Outcome, Rejection>)
  {
    if text == NameOf(PhaseNeedsReview) then Ok(PhaseNeedsReview)
    else if text == NameOf(BlockedNeedsOperator) then Ok(BlockedNeedsOperator)
    else if text == NameOf(PhaseContinue) then Ok(PhaseContinue)
    else if text == NameOf(PlanComplete) then Ok(PlanComplete)
    else Err(InvalidEnum)
  }

  function Bit(i: nat): (b: bv8)
    requires i < SUPPORTED
  {
    if i == 0 then 1 else if i == 1 then 2 else if i == 2 then 4 else 8
  }

  lemma ClearBit(mask: bv8, i: nat, j: nat)
    requires i < SUPPORTED && j < SUPPORTED
    ensures (mask & !Bit(i)) & Bit(j) == if i == j then 0 else mask & Bit(j)
  {
  }

  lemma AllBits(i: nat)
    requires i < SUPPORTED
    ensures (15 as bv8) & Bit(i) != 0
  {
  }

  predicate Set(mask: bv8, i: nat)
    requires i < SUPPORTED
  {
    mask & Bit(i) != 0
  }

  /** Names before `index` have been compared with `text + bytes`, the others only with `text`. */
  ghost predicate Narrowed(mask: bv8, text: seq<Byte>, bytes: seq<Byte>, index: nat)
  {
    forall i :: 0 <= i < SUPPORTED ==>
      (Set(mask, i) <==> (if i < index then text + bytes else text) <= NameOf(Supported(i)))
  }

  function Narrow(mask: bv8, offset: nat, bytes: seq<Byte>, index: nat): (mask': bv8)
    requires index < SUPPORTED
  {
    var name := NameOf(Supported(index));
    var end := offset + |bytes|;
    if Set(mask, index) && !(end <= |name| && name[offset..end] == bytes) then mask & !Bit(index) else mask
  }

  lemma NarrowOne(mask: bv8, text: seq<Byte>, bytes: seq<Byte>, index: nat)
    requires index < SUPPORTED && Narrowed(mask, text, bytes, index)
    ensures Narrowed(Narrow(mask, |text|, bytes, index), text, bytes, index + 1)
  {
    MatchMore(NameOf(Supported(index)), text, bytes);
    forall i | 0 <= i < SUPPORTED
      ensures Set(mask & !Bit(index), i) <==> i != index && Set(mask, i)
    {
      ClearBit(mask, index, i);
    }
  }

  /** The running mask of names that the text so far still begins. */
  class LifecycleOutcomeBuilder {
    var offset: nat
    var candidates: bv8

    ghost predicate Reads(text: seq<Byte>)
      reads this
    {
      && offset == |text|
      && forall i :: 0 <= i < SUPPORTED ==> (Set(candidates, i) <==> text <= NameOf(Supported(i)))
    }

    constructor ()
      ensures offset == 0 && candidates == 0
    {
      offset, candidates := 0, 0;
    }

    method Start()
      modifies this
      ensures Reads([])
    {
      offset, candidates := 0, 15;
      forall i | 0 <= i < SUPPORTED
        ensures Set(candidates, i)
      {
        AllBits(i);
      }
    }

    /** Bit `i` survives exactly while everything read is a prefix of name `i`. */
    method Fragment(bytes: seq<Byte>, ghost text: seq<Byte>) returns (r: Result<Done, Rejection>)
      requires Reads(text)
      modifies this
      ensures match LifecycleFeed(text, bytes)
              case Err(why) => r == Err(why) && Reads(text)
              case Ok(more) => r == Ok(Done) && Reads(more)
    {
      if offset + |bytes| > USIZE_MAX {
        return Err(InvalidEnum);
      }
      var end := offset + |bytes|;
      for index := 0 to SUPPORTED
        invariant offset == |text| && Narrowed(candidates, text, bytes, index)
      {
        NarrowOne(candidates, text, bytes, index);
        candidates := Narrow(candidates, offset, bytes, index);
      }
      offset := end;
      return Ok(Done);
    }

    method Finish(ghost text: seq<Byte>) returns (r: Result<Outcome, Rejection>)
      requires Reads(text)
      ensures r == LifecycleFinish(text)
    {
      for index := 0 to SUPPORTED
        invariant forall i :: 0 <= i < index ==> text != NameOf(Supported(i))
      {
        var name := NameOf(Supported(index));
        if Set(candidates, index) && |name| == offset {
          assert text == name;
          NamesDiffer(Supported(index), PhaseNeedsReview);
          NamesDiffer(Supported(index), BlockedNeedsOperator);
          NamesDiffer(Supported(index), PhaseContinue);
          return Ok(Supported(index));
        }
      }
      assert text != NameOf(Supported(0)) && text != NameOf(Supported(1));
      assert text != NameOf(Supported(2)) && text != NameOf(Supported(3));
      return Err(InvalidEnum);
    }
  }

  function LifecycleSink(): (sink: Sink<seq<Byte>, Outcome>)
  {
    Sink([], LifecycleFeed, LifecycleFinish)
  }

  lemma {:induction false} LifecycleReads(chunks: seq<seq<Byte>>)
    ensures FeedAll(LifecycleSink(), chunks) ==
            if |Joined(chunks)| <= USIZE_MAX then Ok(Joined(chunks)) else Err(InvalidEnum)
  {
    if chunks != [] {
      LifecycleReads(chunks[..|chunks| - 1]);
    }
  }

  /** A lifecycle argument is accepted exactly when it spells one of the four names, cut anywhere. */
  lemma LifecycleAccepts(events: seq<Event>, outcome: Outcome)
    ensures Seal(After(Ascii("outcome"), LifecycleSink(), events)) == Ok(outcome) <==>
            exists name, value :: events == Rendering(name, value) &&
                                  Joined(name) == Ascii("outcome") && Joined(value) == NameOf(outcome)
  {
    Recognises(Ascii("outcome"), LifecycleSink(), events, outcome);
    forall name, value
      ensures Renders(Ascii("outcome"), LifecycleSink(), events, outcome, name, value) <==>
              events == Rendering(name, value) && Joined(name) == Ascii("outcome") && Joined(value) == NameOf(outcome)
    {
      LifecycleReads(value);
      FinishedName(Joined(value), outcome);
    }
  }

  lemma FinishedName(text: seq<Byte>, outcome: Outcome)
    ensures LifecycleFinish(text) == Ok(outcome) <==> text == NameOf(outcome)
    ensures |NameOf(outcome)| <= U64_MAX
  {
  }

  // Branch resolutions

  const MAX_SCALARS: nat := 65536
  const MAX_UTF8_BYTES: nat := 262144

  /** The scalar bound alone: no byte bound is needed. */
  function ResolutionFeed(cs: seq<Scalar>, bytes: seq<Byte>): (r: Result<seq<Scalar>, Rejection>)
  {
    match Decode(bytes)
    case None => Err(InvalidScalarFragment)
    case Some(more) => if |cs| + |more| > MAX_SCALARS then Err(StringTooLong) else Ok(cs + more)
  }

  function ResolutionFinish(cs: seq<Scalar>): (r: Result<seq<Byte>, Rejection>)
  {
    if cs == [] then Err(EmptyString) else Ok(EncodeAll(cs))
  }

  class BranchResolutionValueBuilder {
    var scalars: nat
    var resolution: Option<seq<Byte>>

    ghost predicate Reads(cs: seq<Scalar>)
      reads this
    {
      scalars == |cs| && resolution == Some(EncodeAll(cs))
    }

    constructor ()
      ensures scalars == 0 && resolution.None?
    {
      scalars, resolution := 0, None;
    }

    method Start()
      modifies this
      ensures Reads([])
    {
      scalars, resolution := 0, Some([]);
    }

    /** The byte bound never rejects what the scalar bound would accept. */
    method Fragment(bytes: seq<Byte>, ghost cs: seq<Scalar>) returns (r: Result<Done, Rejection>)
      requires resolution.Some? ==> Reads(cs) && |cs| <= MAX_SCALARS
      modifies this
      ensures old(resolution).None? ==>
                resolution.None? &&
                r == Err(if Decode(bytes).None? then InvalidScalarFragment else InvalidControlSequence)
      ensures old(resolution).Some? ==>
                match ResolutionFeed(cs, bytes)
                case Err(why) => r == Err(why) && Reads(cs)
                case Ok(more) => r == Ok(Done) && Reads(more) && |more| <= MAX_SCALARS
    {
      var fragment := Decode(bytes);
      if fragment.None? {
        return Err(InvalidScalarFragment);
      }
      if resolution.None? {
        return Err(InvalidControlSequence);
      }
      EncodeDecode(bytes);
      EncodeAppend(cs, fragment.value);
      EncodedLength(cs + fragment.value);
      if |resolution.value| + |bytes| > MAX_UTF8_BYTES {
        return Err(StringTooLong);
      }
      if scalars + |fragment.value| > MAX_SCALARS {
        return Err(StringTooLong);
      }
      resolution := Some(resolution.value + bytes);
      scalars := scalars + |fragment.value|;
      return Ok(Done);
    }

    method Finish(ghost cs: seq<Scalar>) returns (r: Result<seq<Byte>, Rejection>)
      requires resolution.Some? ==> Reads(cs)
      modifies this
      ensures resolution.None?
      ensures r == if old(resolution).None? then Err(InvalidControlSequence) else ResolutionFinish(cs)
    {
      var taken := resolution;
      resolution := None;
      if taken.None? {
        return Err(InvalidControlSequence);
      }
      if scalars == 0 {
        return Err(EmptyString);
      }
      return Ok(taken.value);
    }
  }

  function ResolutionSink(): (sink: Sink<seq<Scalar>, seq<Byte>>)
  {
    Sink([], ResolutionFeed, ResolutionFinish)
  }

  /** The scalars of fragments that are each well formed on their own. */
  function DecodeChunks(chunks: seq<seq<Byte>>): (r: Option<seq<Scalar>>)
  {
    if chunks == [] then Some([])
    else
      match (DecodeChunks(chunks[..|chunks| - 1]), Decode(chunks[|chunks| - 1]))
      case (Some(cs), Some(more)) => Some(cs + more)
      case _ => None
  }

  lemma {:induction false} ResolutionReads(chunks: seq<seq<Byte>>, cs: seq<Scalar>)
    ensures FeedAll(ResolutionSink(), chunks) == Ok(cs) <==> DecodeChunks(chunks) == Some(cs) && |cs| <= MAX_SCALARS
  {
    if chunks != [] {
      var before := chunks[..|chunks| - 1];
      if FeedAll(ResolutionSink(), before).Ok? {
        ResolutionReads(before, FeedAll(ResolutionSink(), before).value);
      }
      if DecodeChunks(before).Some? {
        ResolutionReads(before, DecodeChunks(before).value);
      }
    }
  }

  lemma {:induction false} DecodedText(chunks: seq<seq<Byte>>)
    requires DecodeChunks(chunks).Some?
    ensures EncodeAll(DecodeChunks(chunks).value) == Joined(chunks)
  {
    if chunks != [] {
      var n := |chunks| - 1;
      DecodedText(chunks[..n]);
      EncodeDecode(chunks[n]);
      EncodeAppend(DecodeChunks(chunks[..n]).value, Decode(chunks[n]).value);
    }
  }

  /** Why each sink refuses: no such name; a malformed fragment, too many scalars in all, or none. */
  lemma SinkRefusals(text: seq<Byte>, cs: seq<Scalar>, bytes: seq<Byte>)
    ensures (exists outcome :: text == NameOf(outcome)) || LifecycleFinish(text) == Err(InvalidEnum)
    ensures Decode(bytes).None? ==> ResolutionFeed(cs, bytes) == Err(InvalidScalarFragment)
    ensures Decode(bytes).Some? && |cs| + |Decode(bytes).value| > 65536 ==>
              ResolutionFeed(cs, bytes) == Err(StringTooLong)
    ensures ResolutionFinish([]) == Err(EmptyString)
  {
    if LifecycleFinish(text).Ok? {
      FinishedName(text, LifecycleFinish(text).value);
    }
  }

  /** Every cut between fragments lies on a character boundary of the whole. */
  ghost predicate CutAtBoundaries(chunks: seq<seq<Byte>>)
  {
    forall k :: 0 <= k <= |chunks| ==> Boundary(Joined(chunks), |Joined(chunks[..k])|)
  }

  lemma {:induction false} JoinedPrefix(chunks: seq<seq<Byte>>, k: nat)
    requires k <= |chunks|
    ensures Joined(chunks[..k]) <= Joined(chunks)
  {
    if k < |chunks| {
      var n := |chunks| - 1;
      JoinedPrefix(chunks[..n], k);
      assert chunks[..n][..k] == chunks[..k];
    } else {
      assert chunks[..k] == chunks;
    }
  }

  /** Text in front of well-formed text ends on a boundary, and its own boundaries stay boundaries. */
  lemma BoundaryBefore(front: seq<Byte>, cs: seq<Scalar>, i: nat)
    requires i <= |front| && Boundary(front, i)
    ensures Boundary(front + EncodeAll(cs), i)
  {
    if cs != [] && i == |front| {
      EncodeShape(cs[0]);
    }
  }

  lemma {:induction false} DecodedCuts(chunks: seq<seq<Byte>>, k: nat)
    requires DecodeChunks(chunks).Some? && k <= |chunks|
    ensures Boundary(Joined(chunks), |Joined(chunks[..k])|)
  {
    if k == |chunks| {
      assert chunks[..k] == chunks;
    } else {
      var n := |chunks| - 1;
      DecodedCuts(chunks[..n], k);
      assert chunks[..n][..k] == chunks[..k];
      JoinedPrefix(chunks[..n], k);
      EncodeDecode(chunks[n]);
      BoundaryBefore(Joined(chunks[..n]), Decode(chunks[n]).value, |Joined(chunks[..k])|);
    }
  }

  lemma EncodedSplit(cs: seq<Scalar>, k: nat)
    requires k <= |cs|
    ensures EncodeAll(cs) == EncodeAll(cs[..k]) + EncodeAll(cs[k..])
  {
    assert cs == cs[..k] + cs[k..];
    EncodeAppend(cs[..k], cs[k..]);
  }

  lemma SameCut(front: seq<Byte>, back: seq<Byte>, a: seq<Byte>, b: seq<Byte>)
    requires front + back == a + b && |front| == |a|
    ensures front == a && back == b
  {
    assert front == (front + back)[..|front|] && back == (front + back)[|front|..];
    assert a == (a + b)[..|a|] && b == (a + b)[|a|..];
  }

  /** Well-formed text cut at a boundary is two well-formed texts. */
  lemma CutText(front: seq<Byte>, back: seq<Byte>)
    requires Decode(front + back).Some? && Boundary(front + back, |front|)
    ensures Decode(front).Some? && Decode(back).Some?
  {
    var cs := Decode(front + back).value;
    EncodeDecode(front + back);
    var k := BoundaryIsPrefix(cs, |front|);
    EncodedSplit(cs, k);
    SameCut(front, back, EncodeAll(cs[..k]), EncodeAll(cs[k..]));
    DecodeEncode(cs[..k]);
    DecodeEncode(cs[k..]);
  }

  lemma {:induction false} CutsDecode(chunks: seq<seq<Byte>>)
    requires Decode(Joined(chunks)).Some? && CutAtBoundaries(chunks)
    ensures DecodeChunks(chunks).Some?
  {
    if chunks != [] {
      var n := |chunks| - 1;
      assert Boundary(Joined(chunks), |Joined(chunks[..n])|);
      CutText(Joined(chunks[..n]), chunks[n]);
      FrontCuts(chunks);
      CutsDecode(chunks[..n]);
    }
  }

  lemma FrontCuts(chunks: seq<seq<Byte>>)
    requires chunks != [] && CutAtBoundaries(chunks)
    ensures CutAtBoundaries(chunks[..|chunks| - 1])
  {
    var n := |chunks| - 1;
    forall k | 0 <= k <= n
      ensures Boundary(Joined(chunks[..n]), |Joined(chunks[..n][..k])|)
    {
      assert chunks[..n][..k] == chunks[..k];
      JoinedPrefix(chunks[..n], k);
      assert Boundary(Joined(chunks), |Joined(chunks[..k])|);
    }
  }

  /** Fragments are each well formed if and only if the whole is and no cut splits a character. */
  lemma ChunksDecodeIff(chunks: seq<seq<Byte>>)
    ensures DecodeChunks(chunks).Some? <==> Decode(Joined(chunks)).Some? && CutAtBoundaries(chunks)
    ensures DecodeChunks(chunks).Some? ==> DecodeChunks(chunks) == Decode(Joined(chunks))
  {
    if DecodeChunks(chunks).Some? {
      DecodedText(chunks);
      DecodeEncode(DecodeChunks(chunks).value);
      forall k | 0 <= k <= |chunks|
        ensures Boundary(Joined(chunks), |Joined(chunks[..k])|)
      {
        DecodedCuts(chunks, k);
      }
    } else if Decode(Joined(chunks)).Some? && CutAtBoundaries(chunks) {
      CutsDecode(chunks);
    }
  }

  /** A resolution is accepted exactly when its fragments are well-formed UTF-8 of 1 to 65,536 scalars in all,
      and it is returned unchanged. */
  lemma ResolutionAccepts(events: seq<Event>, text: seq<Byte>)
    ensures Seal(After(Ascii("resolution"), ResolutionSink(), events)) == Ok(text) <==>
            exists name, value ::
              && events == Rendering(name, value) && Joined(name) == Ascii("resolution")
              && DecodeChunks(value).Some? && 1 <= |DecodeChunks(value).value| <= 65536
              && text == Joined(value)
  {
    Recognises(Ascii("resolution"), ResolutionSink(), events, text);
    forall name, value
      ensures Renders(Ascii("resolution"), ResolutionSink(), events, text, name, value) <==>
              && events == Rendering(name, value) && Joined(name) == Ascii("resolution")
              && DecodeChunks(value).Some? && 1 <= |DecodeChunks(value).value| <= 65536
              && text == Joined(value)
    {
      if FeedAll(ResolutionSink(), value).Ok? {
        ResolutionReads(value, FeedAll(ResolutionSink(), value).value);
      }
      if DecodeChunks(value).Some? {
        ResolutionReads(value, DecodeChunks(value).value);
        DecodedText(value);
        EncodedLength(DecodeChunks(value).value);
      }
    }
  }
}
