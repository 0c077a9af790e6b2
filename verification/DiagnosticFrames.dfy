/** Newline-delimited diagnostic frames: bounded reading from a buffered stream, trimming and truncation. */
module DiagnosticFrames {
  import opened Common
  import opened Utf8

  const MAX_FRAME_BYTES: nat := 262144
  const MAX_MESSAGE_BYTES: nat := 512

  const NEWLINE: Byte := 10
  const RETURN: Byte := 13

  datatype BoundedLine = Eof | Line(bytes: seq<Byte>) | LineTooLong(prefix: seq<Byte>)

  // Reference: lines of a byte stream

  /** Length of the first line, its newline included. */
  function LineLength(s: seq<Byte>): (n: nat)
    ensures n <= |s| && (s != [] ==> n > 0)
  {
    if s == [] then 0 else if s[0] == NEWLINE then 1 else 1 + LineLength(s[1..])
  }

  function Bounded(line: seq<Byte>, limit: nat): (r: BoundedLine)
  {
    if |line| <= limit then Line(line) else LineTooLong(line[..limit])
  }

  function SplitLines(s: seq<Byte>): (lines: seq<seq<Byte>>)
  {
    if s == [] then [] else [s[..LineLength(s)]] + SplitLines(s[LineLength(s)..])
  }

  function BoundAll(lines: seq<seq<Byte>>, limit: nat): (r: seq<BoundedLine>)
  {
    if lines == [] then [] else [Bounded(lines[0], limit)] + BoundAll(lines[1..], limit)
  }

  lemma {:induction false} LineLengthWithin(p: seq<Byte>, s: seq<Byte>)
    requires NEWLINE !in p
    ensures LineLength(p + s) == |p| + LineLength(s)
  {
    if p == [] {
      assert p + s == s;
    } else {
      assert (p + s)[1..] == p[1..] + s;
      LineLengthWithin(p[1..], s);
    }
  }

  lemma {:induction false} SplitJoins(s: seq<Byte>)
    ensures Joined(SplitLines(s)) == s
    decreases |s|
  {
    if s != [] {
      var n := LineLength(s);
      SplitJoins(s[n..]);
      assert SplitLines(s)[1..] == SplitLines(s[n..]);
      JoinedFirst(SplitLines(s));
    }
  }

  lemma {:induction false} SplitEnds(s: seq<Byte>, i: nat)
    requires i < |SplitLines(s)|
    ensures var line := SplitLines(s)[i];
            && line != [] && NEWLINE !in line[..|line| - 1]
            && (i < |SplitLines(s)| - 1 ==> line[|line| - 1] == NEWLINE)
    decreases |s|
  {
    var n := LineLength(s);
    assert SplitLines(s)[1..] == SplitLines(s[n..]);
    if i == 0 {
      FirstLine(s);
      assert s[..n][..n - 1] == s[..n - 1];
    } else {
      SplitEnds(s[n..], i - 1);
    }
  }

  /** Splitting loses nothing, and every line holds a newline exactly where it ends, if at all. */
  lemma SplitIsExact(s: seq<Byte>)
    ensures Joined(SplitLines(s)) == s
    ensures forall i :: 0 <= i < |SplitLines(s)| ==>
              var line := SplitLines(s)[i];
              && line != [] && NEWLINE !in line[..|line| - 1]
              && (i < |SplitLines(s)| - 1 ==> line[|line| - 1] == NEWLINE)
  {
    SplitJoins(s);
    forall i | 0 <= i < |SplitLines(s)|
      ensures var line := SplitLines(s)[i];
              && line != [] && NEWLINE !in line[..|line| - 1]
              && (i < |SplitLines(s)| - 1 ==> line[|line| - 1] == NEWLINE)
    {
      SplitEnds(s, i);
    }
  }

  lemma {:induction false} FirstLine(s: seq<Byte>)
    requires s != []
    ensures NEWLINE !in s[..LineLength(s) - 1]
    ensures LineLength(s) < |s| ==> s[LineLength(s) - 1] == NEWLINE
  {
    if s[0] != NEWLINE && s[1..] != [] {
      FirstLine(s[1..]);
      assert s[..LineLength(s) - 1] == [s[0]] + s[1..][..LineLength(s[1..]) - 1];
    }
  }

  // The buffered reader

  /** A `BufRead`: the buffers still to be delivered, cut wherever the operating system cut them. */
  class Reader {
    var chunks: seq<seq<Byte>>
    const reliable: bool

    ghost predicate Valid()
      reads this
    {
      forall i :: 0 <= i < |chunks| ==> chunks[i] != []
    }

    ghost function Contents(): (s: seq<Byte>)
      reads this
    {
      Joined(chunks)
    }

    constructor (chunks: seq<seq<Byte>>, reliable: bool)
      requires forall i :: 0 <= i < |chunks| ==> chunks[i] != []
      ensures Valid() && this.chunks == chunks && this.reliable == reliable
    {
      this.chunks, this.reliable := chunks, reliable;
    }

    method FillBuf() returns (r: Result<seq<Byte>, Done>)
      requires Valid()
      ensures r.Ok? ==> r.value == if chunks == [] then [] else chunks[0]
      ensures r.Ok? ==> r.value <= Contents() && (r.value == [] <==> Contents() == [])
      ensures reliable ==> r.Ok?
    {
      var ok := true;
      if !reliable {
        ok := *;
      }
      if chunks != [] {
        JoinedFirst(chunks);
      }
      r := if !ok then Err(Done) else Ok(if chunks == [] then [] else chunks[0]);
    }

    method Consume(amount: nat)
      requires Valid() && chunks != [] && amount <= |chunks[0]|
      modifies this
      ensures |old(Contents())| >= amount
      ensures Valid() && Contents() == old(Contents())[amount..]
    {
      ghost var before := chunks;
      JoinedFirst(chunks);
      if amount == |chunks[0]| {
        chunks := chunks[1..];
      } else {
        chunks := [chunks[0][amount..]] + chunks[1..];
        assert chunks[1..] == before[1..];
        JoinedFirst(chunks);
      }
    }
  }

  function IndexOf(s: seq<Byte>): (index: Option<nat>)
  {
    if s == [] then None
    else if s[0] == NEWLINE then Some(0)
    else match IndexOf(s[1..]) case None => None case Some(i) => Some(i + 1)
  }

  lemma {:induction false} IndexOfFirst(s: seq<Byte>)
    ensures match IndexOf(s)
            case None => NEWLINE !in s
            case Some(i) => i < |s| && NEWLINE !in s[..i] && s[i] == NEWLINE
  {
    if s != [] && s[0] != NEWLINE {
      IndexOfFirst(s[1..]);
      if IndexOf(s[1..]).Some? {
        var i := IndexOf(s[1..]).value;
        assert s[..i + 1] == [s[0]] + s[1..][..i];
      } else {
        assert s == [s[0]] + s[1..];
      }
    }
  }

  /** What the reader holds after the newline-free prefix `p` of a line. */
  predicate Held(p: seq<Byte>, limit: nat, line: seq<Byte>, overLimit: bool)
  {
    overLimit == (|p| > limit) && line == if overLimit then p[..limit] else p
  }

  method Extend(available: seq<Byte>, take: nat, limit: nat, line: seq<Byte>, overLimit: bool, ghost p: seq<Byte>)
    returns (line': seq<Byte>, overLimit': bool)
    requires take <= |available| && Held(p, limit, line, overLimit)
    ensures Held(p + available[..take], limit, line', overLimit')
  {
    line', overLimit' := line, overLimit;
    if !overLimit {
      var budget := if |line| < limit then limit - |line| else 0;
      if take > budget {
        line' := line + available[..budget];
        overLimit' := true;
      } else {
        line' := line + available[..take];
      }
    }
  }

  datatype Turn = Ended | Found | More

  /** One turn of the loop of `read_bounded_line_bytes`: up to the newline, or all that is buffered. */
  method TakeBuffered(
    reader: Reader, limit: nat, line: seq<Byte>, overLimit: bool, ghost s: seq<Byte>, ghost p: seq<Byte>)
    returns (r: Result<Turn, Done>, line': seq<Byte>, overLimit': bool, ghost p': seq<Byte>)
    requires reader.Valid() && s == p + reader.Contents() && NEWLINE !in p && Held(p, limit, line, overLimit)
    modifies reader
    ensures reader.Valid() && Held(p', limit, line', overLimit') && s == p' + reader.Contents()
    ensures r.Err? ==> !reader.reliable && reader.Contents() == old(reader.Contents())
    ensures r == Ok(Ended) ==> p' == p && reader.Contents() == []
    ensures r == Ok(Found) ==> s != [] && p' == s[..LineLength(s)]
    ensures r == Ok(More) ==> NEWLINE !in p' && |reader.Contents()| < |old(reader.Contents())|
  {
    line', overLimit', p' := line, overLimit, p;
    var filled := reader.FillBuf();
    if filled.Err? {
      return Err(Done), line, overLimit, p;
    }
    var available := filled.value;
    if available == [] {
      return Ok(Ended), line, overLimit, p;
    }
    var newline := IndexOf(available);
    IndexOfFirst(available);
    var take := if newline.Some? then newline.value + 1 else |available|;
    ghost var before := reader.Contents();
    line', overLimit' := Extend(available, take, limit, line, overLimit, p);
    reader.Consume(take);
    p' := p + available[..take];
    if newline.Some? {
      FoundLine(s, p, available, newline.value, before);
      r := Ok(Found);
    } else {
      r := Ok(More);
    }
    MoreToRead(s, p, available, take, before);
  }

  /** What is read of a stream: nothing of an empty one, and otherwise all up to its first byte 10 or its end, whole if
      it fits the limit and else as many bytes of it as the limit allows; the rest stays. */
  ghost predicate ReadsLine(s: seq<Byte>, limit: nat, r: BoundedLine, rest: seq<Byte>)
  {
    if s == [] then r == Eof && rest == []
    else
      exists n :: 0 < n <= |s| && (forall k :: 0 <= k < n - 1 ==> s[k] != 10) && (s[n - 1] == 10 || n == |s|) &&
                  rest == s[n..] && r == if n <= limit then Line(s[..n]) else LineTooLong(s[..limit])
  }

  lemma LineRead(s: seq<Byte>, limit: nat)
    ensures ReadsLine(s, limit, if s == [] then Eof else Bounded(s[..LineLength(s)], limit), s[LineLength(s)..])
  {
    if s != [] {
      var n := LineLength(s);
      FirstLine(s);
      var front := s[..n - 1];
      assert forall k :: 0 <= k < n - 1 ==> front[k] == s[k];
      LastLine(s);
      assert n > limit ==> s[..n][..limit] == s[..limit];
    }
  }

  lemma {:induction false} LastLine(s: seq<Byte>)
    requires s != []
    ensures s[LineLength(s) - 1] == 10 || LineLength(s) == |s|
  {
    if LineLength(s) < |s| {
      FirstLine(s);
    }
  }

  /** The loop of `read_bounded_line_bytes`. */
  method NextLine(reader: Reader, limit: nat) returns (r: Result<BoundedLine, Done>)
    requires reader.Valid()
    modifies reader
    ensures reader.Valid()
    ensures r.Ok? ==>
              var s := old(reader.Contents());
              && r.value == (if s == [] then Eof else Bounded(s[..LineLength(s)], limit))
              && reader.Contents() == s[LineLength(s)..]
    ensures r.Err? ==> !reader.reliable && |reader.Contents()| <= |old(reader.Contents())|
  {
    ghost var s := reader.Contents();
    ghost var p: seq<Byte> := [];
    var line: seq<Byte> := [];
    var overLimit := false;
    while true
      invariant reader.Valid()
      invariant s == p + reader.Contents() && NEWLINE !in p
      invariant Held(p, limit, line, overLimit)
      decreases |reader.Contents()|
    {
      var turn;
      turn, line, overLimit, p := TakeBuffered(reader, limit, line, overLimit, s, p);
      if turn.Err? {
        return Err(Done);
      }
      if turn.value == Ended {
        EndOfStream(s, p);
        return Ok(if line == [] && !overLimit then Eof else if overLimit then LineTooLong(line) else Line(line));
      }
      if turn.value == Found {
        return Ok(if overLimit then LineTooLong(line) else Line(line));
      }
    }
  }

  /** `read_bounded_line_bytes`: the answer depends on the stream alone, never on how it was buffered, and
      exactly one line is consumed, so the reader stays in step even after an overlong line. */
  method ReadBoundedLine(reader: Reader, limit: nat) returns (r: Result<BoundedLine, Done>)
    requires reader.Valid()
    modifies reader
    ensures reader.Valid()
    ensures r.Ok? ==> ReadsLine(old(reader.Contents()), limit, r.value, reader.Contents())
    ensures r.Err? ==> !reader.reliable && |reader.Contents()| <= |old(reader.Contents())|
  {
    LineRead(reader.Contents(), limit);
    r := NextLine(reader, limit);
  }

  lemma EndOfStream(s: seq<Byte>, p: seq<Byte>)
    requires s == p + [] && NEWLINE !in p
    ensures s == p && LineLength(s) == |s| && s[..|s|] == s && s[|s|..] == []
  {
    LineLengthWithin(p, []);
  }

  lemma MoreToRead(s: seq<Byte>, p: seq<Byte>, available: seq<Byte>, take: nat, before: seq<Byte>)
    requires s == p + before && available <= before && take <= |available|
    ensures s == p + available[..take] + before[take..]
  {
  }

  lemma FoundLine(s: seq<Byte>, p: seq<Byte>, available: seq<Byte>, i: nat, before: seq<Byte>)
    requires s == p + before && NEWLINE !in p && i < |available| && available <= before
    requires NEWLINE !in available[..i] && available[i] == NEWLINE
    ensures LineLength(s) == |p| + i + 1
    ensures s[..LineLength(s)] == p + available[..i + 1]
    ensures s[LineLength(s)..] == before[i + 1..]
  {
    var q := p + available[..i];
    assert s == q + before[i..];
    assert before[i..][0] == NEWLINE;
    LineLengthWithin(q, before[i..]);
  }

  lemma SplitFirst(s: seq<Byte>, limit: nat)
    requires s != []
    ensures BoundAll(SplitLines(s), limit) ==
            [Bounded(s[..LineLength(s)], limit)] + BoundAll(SplitLines(s[LineLength(s)..]), limit)
  {
  }

  /** Reading to the end of the stream gives its lines in order, each bounded, for every buffering. */
  method ReadAll(reader: Reader, limit: nat) returns (r: Result<seq<BoundedLine>, Done>)
    requires reader.Valid()
    modifies reader
    ensures r.Ok? ==> r.value == BoundAll(SplitLines(old(reader.Contents())), limit) && reader.Contents() == []
    ensures r.Err? ==> !reader.reliable
  {
    ghost var s := reader.Contents();
    var lines := [];
    while true
      invariant reader.Valid()
      invariant BoundAll(SplitLines(s), limit) == lines + BoundAll(SplitLines(reader.Contents()), limit)
      decreases |reader.Contents()|
    {
      ghost var rest := reader.Contents();
      var next := NextLine(reader, limit);
      if next.Err? {
        return Err(Done);
      }
      if next.value == Eof {
        return Ok(lines);
      }
      SplitFirst(rest, limit);
      lines := lines + [next.value];
    }
  }

  // Frames

  function Frame(payload: seq<Byte>): (r: Option<seq<Byte>>)
  {
    if |payload| + 1 > MAX_FRAME_BYTES then None else Some(payload + [NEWLINE])
  }

  function Frames(payloads: seq<seq<Byte>>): (s: seq<Byte>)
  {
    if payloads == [] then [] else payloads[0] + [NEWLINE] + Frames(payloads[1..])
  }

  /** A frame is its payload and byte 10, of at most 262,144 bytes together. */
  lemma FrameAnswer(payload: seq<Byte>)
    ensures Frame(payload) == if |payload| < 262144 then Some(payload + [10]) else None
  {
  }

  /** Serialized frames come back one by one: what was framed is what is read, in order, none too long. */
  lemma {:induction false} FramesReadBack(payloads: seq<seq<Byte>>)
    requires forall i :: 0 <= i < |payloads| ==> NEWLINE !in payloads[i] && Frame(payloads[i]).Some?
    ensures |BoundAll(SplitLines(Frames(payloads)), MAX_FRAME_BYTES)| == |payloads|
    ensures forall i :: 0 <= i < |payloads| ==>
              BoundAll(SplitLines(Frames(payloads)), MAX_FRAME_BYTES)[i] == Line(Frame(payloads[i]).value)
  {
    if payloads != [] {
      var s := Frames(payloads);
      var rest := Frames(payloads[1..]);
      assert s == payloads[0] + ([NEWLINE] + rest);
      LineLengthWithin(payloads[0], [NEWLINE] + rest);
      assert s[LineLength(s)..] == rest;
      assert s[..LineLength(s)] == payloads[0] + [NEWLINE];
      assert SplitLines(s)[1..] == SplitLines(rest);
      FramesReadBack(payloads[1..]);
    }
  }

  predicate LineEnd(b: Byte)
  {
    b == NEWLINE || b == RETURN
  }

  /** `r` is `frame` without its trailing run of line-end bytes. */
  ghost predicate Trims(frame: seq<Byte>, r: seq<Byte>)
  {
    && r <= frame && (forall i :: |r| <= i < |frame| ==> LineEnd(frame[i]))
    && (r != [] ==> !LineEnd(r[|r| - 1]))
  }

  /** `trim_ascii_line_end` */
  method TrimLineEnd(frame: seq<Byte>) returns (r: seq<Byte>)
    ensures Trims(frame, r)
    ensures forall i :: |r| <= i < |frame| ==> frame[i] == 10 || frame[i] == 13
    ensures r != [] ==> r[|r| - 1] != 10 && r[|r| - 1] != 13
  {
    r := frame;
    while r != [] && LineEnd(r[|r| - 1])
      invariant r <= frame && (forall i :: |r| <= i < |frame| ==> LineEnd(frame[i]))
    {
      r := r[..|r| - 1];
    }
  }

  /** Trimming a read frame gives back its payload exactly when the payload does not itself end in one. */
  lemma TrimmedFrame(payload: seq<Byte>, r: seq<Byte>)
    requires Trims(payload + [NEWLINE], r)
    ensures r == payload <==> payload == [] || !LineEnd(payload[|payload| - 1])
  {
    var frame := payload + [NEWLINE];
    assert frame[|payload|] == NEWLINE;
    assert r <= payload;
    if |r| < |payload| {
      assert LineEnd(frame[|payload| - 1]);
    }
  }

  /** Write, read, trim: of any payloads framed one after the other, each comes back as a whole line, which trims to the
      payload if and only if the payload does not end in a line end. */
  lemma FramesRoundTrip(payloads: seq<seq<Byte>>, i: nat, r: seq<Byte>)
    requires forall k :: 0 <= k < |payloads| ==> NEWLINE !in payloads[k] && Frame(payloads[k]).Some?
    requires i < |payloads|
    ensures var lines := BoundAll(SplitLines(Frames(payloads)), MAX_FRAME_BYTES);
            && |lines| == |payloads| && lines[i].Line?
            && (Trims(lines[i].bytes, r) ==>
                  (r == payloads[i] <==> payloads[i] == [] || !LineEnd(payloads[i][|payloads[i]| - 1])))
  {
    FramesReadBack(payloads);
    if Trims(payloads[i] + [NEWLINE], r) {
      TrimmedFrame(payloads[i], r);
    }
  }

  // Messages

  /** `truncate_protocol_message`: the longest prefix of whole scalars that fits. */
  method TruncateMessage(value: seq<Byte>, ghost cs: seq<Scalar>) returns (r: seq<Byte>)
    requires value == EncodeAll(cs)
    ensures r == EncodeAll(cs[..Fit(cs, 512)])
    ensures |r| <= 512 && r <= value && (|value| <= 512 ==> r == value)
  {
    FitIsLongest(cs, MAX_MESSAGE_BYTES, |cs|);
    assert cs[..|cs|] == cs;
    if |value| <= MAX_MESSAGE_BYTES {
      return value;
    }
    var end := MAX_MESSAGE_BYTES;
    ghost var best := Fit(cs, MAX_MESSAGE_BYTES);
    FitIsLongest(cs, MAX_MESSAGE_BYTES, best);
    PrefixIsBoundary(cs, best);
    while end > 0 && !Boundary(value, end)
      invariant |EncodeAll(cs[..best])| <= end <= MAX_MESSAGE_BYTES
    {
      end := end - 1;
    }
    ghost var k := BoundaryIsPrefix(cs, end);
    FitIsLongest(cs, MAX_MESSAGE_BYTES, k);
    PrefixGrows(cs, k, best);
    PrefixIsBoundary(cs, k);
    r := value[..end];
  }

  lemma PrefixGrows(cs: seq<Scalar>, j: nat, k: nat)
    requires j <= k <= |cs|
    ensures |EncodeAll(cs[..j])| + (k - j) <= |EncodeAll(cs[..k])|
  {
    assert cs[..k] == cs[..j] + cs[j..k];
    EncodeAppend(cs[..j], cs[j..k]);
    EncodedLength(cs[j..k]);
  }
}
