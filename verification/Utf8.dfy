/** UTF-8 as defined by section 3 of RFC 3629: encoding, strict decoding and character boundaries. */
module Utf8 {
  import opened Common

  type Byte = b: nat | b < 256

  /** A Unicode scalar value: a code point that is not a surrogate. */
  type Scalar = n: nat | n <= 0x10FFFF && !(0xD800 <= n <= 0xDFFF)

  /** The bytes of fragments put together. */
  function Joined(chunks: seq<seq<Byte>>): (s: seq<Byte>)
  {
    if chunks == [] then [] else Joined(chunks[..|chunks| - 1]) + chunks[|chunks| - 1]
  }

  lemma {:induction false} JoinedFirst(chunks: seq<seq<Byte>>)
    requires chunks != []
    ensures Joined(chunks) == chunks[0] + Joined(chunks[1..])
  {
    var n := |chunks| - 1;
    if n > 0 {
      JoinedFirst(chunks[..n]);
      assert chunks[..n][1..] == chunks[1..][..n - 1];
    }
  }

  function Encode(c: Scalar): (bytes: seq<Byte>)
    ensures 1 <= |bytes| <= 4
  {
    if c < 0x80 then [c]
    else if c < 0x800 then [0xC0 + c / 64, 0x80 + c % 64]
    else if c < 0x10000 then [0xE0 + c / 64 / 64, 0x80 + c / 64 % 64, 0x80 + c % 64]
    else [0xF0 + c / 64 / 64 / 64, 0x80 + c / 64 / 64 % 64, 0x80 + c / 64 % 64, 0x80 + c % 64]
  }

  predicate Continuation(b: Byte)
  {
    0x80 <= b < 0xC0
  }

  /** Appends the six payload bits of a continuation byte. */
  function Shift(high: nat, b: Byte): (n: nat)
    requires Continuation(b)
    ensures n / 64 == high && n % 64 == b - 0x80
  {
    high * 64 + (b - 0x80)
  }

  /** The first scalar of `bytes`, or `None` when they do not start with a shortest-form encoding of one. */
  function First(bytes: seq<Byte>): (c: Option<Scalar>)
  {
    if bytes == [] then None
    else if bytes[0] < 0x80 then Some(bytes[0])
    else if 0xC0 <= bytes[0] < 0xE0 && |bytes| >= 2 && Continuation(bytes[1]) then
      InRange(Shift(bytes[0] - 0xC0, bytes[1]), 0x80)
    else if 0xE0 <= bytes[0] < 0xF0 && |bytes| >= 3 && Continuation(bytes[1]) && Continuation(bytes[2]) then
      InRange(Shift(Shift(bytes[0] - 0xE0, bytes[1]), bytes[2]), 0x800)
    else if 0xF0 <= bytes[0] < 0xF8 && |bytes| >= 4 &&
            Continuation(bytes[1]) && Continuation(bytes[2]) && Continuation(bytes[3]) then
      InRange(Shift(Shift(Shift(bytes[0] - 0xF0, bytes[1]), bytes[2]), bytes[3]), 0x10000)
    else None
  }

  function InRange(n: nat, least: nat): (c: Option<Scalar>)
  {
    if least <= n <= 0x10FFFF && !(0xD800 <= n <= 0xDFFF) then Some(n) else None
  }

  lemma ShiftSplit(n: nat)
    ensures Shift(n / 64, 0x80 + n % 64) == n
  {
  }

  /** The examples of section 7 of RFC 3629, one for each length. */
  lemma EncodeExamples()
    ensures Encode(0x0041) == [0x41] && Encode(0x0391) == [0xCE, 0x91]
    ensures Encode(0x2262) == [0xE2, 0x89, 0xA2] && Encode(0xD55C) == [0xED, 0x95, 0x9C]
    ensures Encode(0x233B4) == [0xF0, 0xA3, 0x8E, 0xB4]
  {
  }

  /** `First` reads back every encoded scalar, whatever follows it. */
  lemma FirstEncode(c: Scalar, rest: seq<Byte>)
    ensures First(Encode(c) + rest) == Some(c)
  {
    var b := Encode(c) + rest;
    assert b[..|Encode(c)|] == Encode(c);
    ShiftSplit(c);
    ShiftSplit(c / 64);
    ShiftSplit(c / 64 / 64);
  }

  /** `First` accepts nothing but encodings. */
  lemma EncodeFirst(bytes: seq<Byte>)
    requires First(bytes).Some?
    ensures Encode(First(bytes).value) <= bytes
  {
  }

  function EncodeAll(cs: seq<Scalar>): (bytes: seq<Byte>)
  {
    if cs == [] then [] else Encode(cs[0]) + EncodeAll(cs[1..])
  }

  /** `str::from_utf8`. */
  function Decode(bytes: seq<Byte>): (r: Option<seq<Scalar>>)
    decreases |bytes|
  {
    if bytes == [] then Some([])
    else
      match First(bytes)
      case None => None
      case Some(c) =>
        EncodeFirst(bytes);
        match Decode(bytes[|Encode(c)|..])
        case None => None
        case Some(cs) => Some([c] + cs)
  }

  lemma {:induction false} DecodeEncode(cs: seq<Scalar>)
    ensures Decode(EncodeAll(cs)) == Some(cs)
  {
    if cs != [] {
      var rest := EncodeAll(cs[1..]);
      FirstEncode(cs[0], rest);
      DecodeEncode(cs[1..]);
      assert (Encode(cs[0]) + rest)[|Encode(cs[0])|..] == rest;
      assert [cs[0]] + cs[1..] == cs;
    }
  }

  lemma {:induction false} EncodeDecode(bytes: seq<Byte>)
    requires Decode(bytes).Some?
    ensures EncodeAll(Decode(bytes).value) == bytes
    decreases |bytes|
  {
    if bytes != [] {
      var c := First(bytes).value;
      EncodeFirst(bytes);
      var rest := bytes[|Encode(c)|..];
      EncodeDecode(rest);
      var cs := Decode(rest).value;
      assert ([c] + cs)[1..] == cs;
      assert Encode(c) + rest == bytes;
    }
  }

  lemma {:induction false} EncodeAppend(a: seq<Scalar>, b: seq<Scalar>)
    ensures EncodeAll(a + b) == EncodeAll(a) + EncodeAll(b)
  {
    if a == [] {
      assert a + b == b;
    } else {
      assert (a + b)[1..] == a[1..] + b;
      EncodeAppend(a[1..], b);
    }
  }

  lemma {:induction false} EncodedLength(cs: seq<Scalar>)
    ensures |cs| <= |EncodeAll(cs)| <= 4 * |cs|
  {
    if cs != [] {
      EncodedLength(cs[1..]);
    }
  }

  // Boundaries

  /** `str::is_char_boundary`. */
  predicate Boundary(bytes: seq<Byte>, i: nat)
  {
    i == 0 || i == |bytes| || (i < |bytes| && !Continuation(bytes[i]))
  }

  lemma EncodeShape(c: Scalar)
    ensures !Continuation(Encode(c)[0])
    ensures forall i :: 0 < i < |Encode(c)| ==> Continuation(Encode(c)[i])
  {
  }

  /** A boundary of well-formed text is exactly the end of some prefix of its scalars. */
  lemma {:induction false} BoundaryIsPrefix(cs: seq<Scalar>, i: nat) returns (k: nat)
    requires i <= |EncodeAll(cs)| && Boundary(EncodeAll(cs), i)
    ensures k <= |cs| && i == |EncodeAll(cs[..k])|
  {
    k := 0;
    if cs != [] && i > 0 {
      EncodeShape(cs[0]);
      var n := |Encode(cs[0])|;
      var rest := EncodeAll(cs[1..]);
      assert n <= i;
      if 0 < i - n < |rest| {
        assert EncodeAll(cs)[i] == rest[i - n];
      }
      var m := BoundaryIsPrefix(cs[1..], i - n);
      k := m + 1;
      assert cs[..k][1..] == cs[1..][..m];
    }
  }

  lemma {:induction false} PrefixIsBoundary(cs: seq<Scalar>, k: nat)
    requires k <= |cs|
    ensures |EncodeAll(cs[..k])| <= |EncodeAll(cs)| && Boundary(EncodeAll(cs), |EncodeAll(cs[..k])|)
    ensures EncodeAll(cs)[..|EncodeAll(cs[..k])|] == EncodeAll(cs[..k])
  {
    assert cs[..k] + cs[k..] == cs;
    EncodeAppend(cs[..k], cs[k..]);
    if k < |cs| {
      EncodeShape(cs[k]);
      var i := |EncodeAll(cs[..k])|;
      assert EncodeAll(cs)[i] == EncodeAll(cs[k..])[0] == Encode(cs[k])[0];
    } else {
      assert cs[..k] == cs;
    }
  }

  /** The longest prefix of scalars whose encoding fits in `limit` bytes. */
  function Fit(cs: seq<Scalar>, limit: nat): (k: nat)
    ensures k <= |cs|
  {
    if cs == [] || |Encode(cs[0])| > limit then 0 else 1 + Fit(cs[1..], limit - |Encode(cs[0])|)
  }

  lemma {:induction false} FitIsLongest(cs: seq<Scalar>, limit: nat, k: nat)
    requires k <= |cs|
    ensures |EncodeAll(cs[..k])| <= limit <==> k <= Fit(cs, limit)
  {
    if k > 0 {
      assert cs[..k][1..] == cs[1..][..k - 1];
      if |Encode(cs[0])| <= limit {
        FitIsLongest(cs[1..], limit - |Encode(cs[0])|, k - 1);
      }
    }
  }
}
