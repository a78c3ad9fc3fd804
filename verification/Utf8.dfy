/** Cutting a file name to a number of UTF-8 bytes. */
module Utf8 {

  type Byte = b: int | 0 <= b < 256

  /** A Unicode scalar value. */
  type Scalar = c: int | (0 <= c < 0xD800) || (0xE000 <= c < 0x110000) witness 0

  const REPLACEMENT: Scalar := 0xFFFD

  // ---------------------------------------------------------------- encoding (RFC 3629, section 3)

  function Width(c: Scalar): (n: nat)
    ensures 1 <= n <= 4
  {
    if c < 0x80 then 1 else if c < 0x800 then 2 else if c < 0x10000 then 3 else 4
  }

  function EncodeScalar(c: Scalar): (r: seq<Byte>)
    ensures |r| == Width(c)
    ensures !Continuation(r[0]) && (Width(c) > 1 <==> MultibyteLead(r[0]))
    ensures forall i :: 0 < i < |r| ==> Continuation(r[i])
  {
    if c < 0x80 then [c]
    else if c < 0x800 then [0xC0 + c / 0x40, 0x80 + c % 0x40]
    else if c < 0x10000 then [0xE0 + c / 0x1000, 0x80 + c / 0x40 % 0x40, 0x80 + c % 0x40]
    else [0xF0 + c / 0x40000, 0x80 + c / 0x1000 % 0x40, 0x80 + c / 0x40 % 0x40, 0x80 + c % 0x40]
  }

  /** What a byte adds beyond its mark. */
  function Bits(b: Byte, mark: int): int {
    var value: int := b;
    value - mark
  }

  /** The table of section 3: which lead byte, how many more, and that their lower bits spell the scalar. */
  lemma BytesSpellScalar(c: Scalar)
    ensures var r := EncodeScalar(c);
      && (0x0 <= c <= 0x7F ==> r == [c])
      && (0x80 <= c <= 0x7FF ==>
           |r| == 2 && 0xC2 <= r[0] <= 0xDF && c == Bits(r[0], 0xC0) * 64 + Bits(r[1], 0x80))
      && (0x800 <= c <= 0xFFFF ==>
           |r| == 3 && 0xE0 <= r[0] <= 0xEF
           && c == Bits(r[0], 0xE0) * 4096 + Bits(r[1], 0x80) * 64 + Bits(r[2], 0x80))
      && (0x10000 <= c <= 0x10FFFF ==>
           |r| == 4 && 0xF0 <= r[0] <= 0xF4
           && c == Bits(r[0], 0xF0) * 262144 + Bits(r[1], 0x80) * 4096 + Bits(r[2], 0x80) * 64 + Bits(r[3], 0x80))
  {
    SixBits(c);
    SixBits(c / 0x40);
    if Width(c) == 4 {
      SixBits(c / 0x1000);
    }
  }

  /** The bytes of all scalars, whatever they are. */
  function Flat(s: seq<Scalar>, e: Scalar -> seq<Byte>): seq<Byte> {
    if s == [] then [] else e(s[0]) + Flat(s[1..], e)
  }

  function Encode(s: seq<Scalar>): seq<Byte> {
    Flat(s, EncodeScalar)
  }

  /** The two top bits are `10`. */
  predicate Continuation(b: Byte) {
    0x80 <= b < 0xC0
  }

  /** The two top bits are `11`. */
  predicate MultibyteLead(b: Byte) {
    0xC0 <= b
  }

  // ---------------------------------------------------------------- decoding

  /** The first scalar of a non-empty byte string and the bytes it takes. An ill-formed sequence gives one replacement
      character for its longest prefix that could begin a well-formed one. */
  function DecodeFirst(b: seq<Byte>): (r: (Scalar, nat))
    requires b != []
    ensures 1 <= r.1 <= |b|
  {
    var lead: int := b[0];
    if lead < 0x80 then (lead, 1)
    else if !(0xC2 <= lead <= 0xF4) || |b| < 2 || !SecondOk(b[0], b[1]) then (REPLACEMENT, 1)
    else if lead < 0xE0 then (Join(lead - 0xC0, b[1]), 2)
    else if |b| < 3 || !Continuation(b[2]) then (REPLACEMENT, 2)
    else if lead < 0xF0 then (Join(Join(lead - 0xE0, b[1]), b[2]), 3)
    else if |b| < 4 || !Continuation(b[3]) then (REPLACEMENT, 3)
    else (Join(Join(Join(lead - 0xF0, b[1]), b[2]), b[3]), 4)
  }

  /** Six more bits. */
  function Join(high: int, b: Byte): int
    requires Continuation(b)
  {
    var low: int := b;
    high * 0x40 + low - 0x80
  }

  /** The second bytes that may follow a lead byte: no overlong forms, no surrogates, nothing above U+10FFFF. */
  predicate SecondOk(lead: Byte, second: Byte) {
    && Continuation(second)
    && (lead == 0xE0 ==> 0xA0 <= second) && (lead == 0xED ==> second < 0xA0)
    && (lead == 0xF0 ==> 0x90 <= second) && (lead == 0xF4 ==> second < 0x90)
  }

  function Decode(b: seq<Byte>): seq<Scalar>
    decreases |b|
  {
    if b == [] then [] else [DecodeFirst(b).0] + Decode(b[DecodeFirst(b).1..])
  }

  lemma DecodeFirstOfScalar(c: Scalar, rest: seq<Byte>)
    ensures DecodeFirst(EncodeScalar(c) + rest) == (c, Width(c))
  {
    var e := EncodeScalar(c);
    var b := e + rest;
    assert forall i :: 0 <= i < Width(c) ==> b[i] == e[i];
    SixBits(c);
    SixBits(c / 0x40);
    if Width(c) == 4 {
      SixBits(c / 0x1000);
    }
  }

  lemma SixBits(c: int)
    requires 0 <= c
    ensures c == c / 0x40 * 0x40 + c % 0x40 && c / 0x40 / 0x40 == c / 0x1000 && c / 0x1000 / 0x40 == c / 0x40000
  {
  }

  lemma DecodeOfOne(c: Scalar, rest: seq<Byte>)
    ensures Decode(EncodeScalar(c) + rest) == [c] + Decode(rest)
  {
    DecodeFirstOfScalar(c, rest);
    assert (EncodeScalar(c) + rest)[Width(c)..] == rest;
  }

  /** Decoding undoes encoding, up to whatever follows. */
  lemma {:induction false} DecodeOfEncode(s: seq<Scalar>, rest: seq<Byte>)
    ensures Decode(Encode(s) + rest) == s + Decode(rest)
  {
    if s == [] {
      assert Encode(s) + rest == rest;
    } else {
      FlatOfOne(s, EncodeScalar, rest);
      DecodeOfOne(s[0], Encode(s[1..]) + rest);
      DecodeOfEncode(s[1..], rest);
      PrependOne(s, Decode(Encode(s[1..]) + rest), Decode(rest));
    }
  }

  lemma FlatOfOne(s: seq<Scalar>, e: Scalar -> seq<Byte>, rest: seq<Byte>)
    requires s != []
    ensures Flat(s, e) + rest == e(s[0]) + (Flat(s[1..], e) + rest)
  {
  }

  lemma PrependOne(s: seq<Scalar>, tail: seq<Scalar>, rest: seq<Scalar>)
    requires s != [] && tail == s[1..] + rest
    ensures [s[0]] + tail == s + rest
  {
  }

  /** A multi-byte scalar without its last byte decodes to one replacement character. */
  lemma DecodeOfCutScalar(c: Scalar)
    requires Width(c) > 1
    ensures Decode(EncodeScalar(c)[..Width(c) - 1]) == [REPLACEMENT]
  {
    var cut := EncodeScalar(c)[..Width(c) - 1];
    assert DecodeFirst(cut) == (REPLACEMENT, |cut|);
    assert cut[|cut|..] == [];
  }

  // ---------------------------------------------------------------- code-point boundaries

  /** Where the k-th scalar of a string starts in its encoding. */
  function Start(s: seq<Scalar>, k: nat): nat
    requires k <= |s|
  {
    if k == 0 then 0 else Width(s[0]) + Start(s[1..], k - 1)
  }

  lemma {:induction false} FlatSplits(s: seq<Scalar>, e: Scalar -> seq<Byte>, k: nat)
    requires k <= |s|
    ensures Flat(s, e) == Flat(s[..k], e) + Flat(s[k..], e)
  {
    if k == 0 {
      assert s[..0] == [] && s[0..] == s;
    } else {
      FlatSplits(s[1..], e, k - 1);
      assert s[..k][0] == s[0] && s[..k][1..] == s[1..][..k - 1];
      assert s[1..][k - 1..] == s[k..];
    }
  }

  lemma FlatOfTail(s: seq<Scalar>, e: Scalar -> seq<Byte>, k: nat)
    requires k < |s|
    ensures Flat(s[k..], e) == e(s[k]) + Flat(s[k + 1..], e)
  {
    assert s[k..][0] == s[k] && s[k..][1..] == s[k + 1..];
  }

  /** Where the bytes of the k-th scalar are, and what comes before any of them. */
  lemma FlatAt(s: seq<Scalar>, e: Scalar -> seq<Byte>, k: nat, n: nat)
    requires k < |s| && n <= |e(s[k])|
    ensures var at := |Flat(s[..k], e)|;
      && at + |e(s[k])| <= |Flat(s, e)|
      && Flat(s, e)[at..at + |e(s[k])|] == e(s[k])
      && Flat(s, e)[..at + n] == Flat(s[..k], e) + e(s[k])[..n]
  {
    FlatSplits(s, e, k);
    FlatOfTail(s, e, k);
    var x, y, z := Flat(s[..k], e), e(s[k]), Flat(s[k + 1..], e);
    Concats(Flat(s, e), x, y, z, n);
  }

  lemma Concats(whole: seq<Byte>, x: seq<Byte>, y: seq<Byte>, z: seq<Byte>, n: nat)
    requires whole == x + (y + z) && n <= |y|
    ensures |x| + |y| <= |whole| && whole[|x|..|x| + |y|] == y && whole[..|x| + n] == x + y[..n]
  {
  }

  lemma {:induction false} StartIsLength(s: seq<Scalar>, k: nat)
    requires k <= |s|
    ensures Start(s, k) == |Encode(s[..k])|
  {
    if k > 0 {
      StartIsLength(s[1..], k - 1);
      assert s[..k][0] == s[0] && s[..k][1..] == s[1..][..k - 1];
    }
  }

  lemma {:induction false} NextStart(s: seq<Scalar>, k: nat)
    requires k < |s|
    ensures Start(s, k + 1) == Start(s, k) + Width(s[k])
  {
    if k > 0 {
      NextStart(s[1..], k - 1);
    }
  }

  /** How many scalars fit into a number of bytes. */
  function Fitting(s: seq<Scalar>, bytes: nat): (k: nat)
    ensures k <= |s|
  {
    if s == [] || Width(s[0]) > bytes then 0 else 1 + Fitting(s[1..], bytes - Width(s[0]))
  }

  /** The start of the scalar at the cut is the largest boundary within the limit, at most three bytes below it. */
  lemma {:induction false} FittingIsLargest(s: seq<Scalar>, bytes: nat)
    ensures Start(s, Fitting(s, bytes)) <= bytes
    ensures Fitting(s, bytes) < |s| ==> bytes < Start(s, Fitting(s, bytes)) + Width(s[Fitting(s, bytes)])
    ensures forall j :: 0 <= j <= |s| && Start(s, j) <= bytes ==> j <= Fitting(s, bytes)
    ensures Fitting(s, bytes) == |s| <==> |Encode(s)| <= bytes
  {
    var k := Fitting(s, bytes);
    if s != [] && Width(s[0]) <= bytes {
      FittingIsLargest(s[1..], bytes - Width(s[0]));
    }
    forall j | 0 <= j <= |s| && Start(s, j) <= bytes
      ensures j <= k
    {
      if j > 0 {
        assert Start(s, j) == Width(s[0]) + Start(s[1..], j - 1);
      }
    }
  }

  /** A scalar's bytes start where it starts. */
  lemma BytesOfScalar(s: seq<Scalar>, k: nat)
    requires k < |s|
    ensures Start(s, k) + Width(s[k]) <= |Encode(s)|
    ensures Encode(s)[Start(s, k)..Start(s, k) + Width(s[k])] == EncodeScalar(s[k])
  {
    StartIsLength(s, k);
    FlatAt(s, EncodeScalar, k, 0);
  }

  /** Of a scalar's bytes all but the first are continuation bytes. */
  lemma LeadAndContinuations(s: seq<Scalar>, k: nat)
    requires k < |s|
    ensures Start(s, k) + Width(s[k]) <= |Encode(s)| && !Continuation(Encode(s)[Start(s, k)])
    ensures forall i :: Start(s, k) < i < Start(s, k) + Width(s[k]) ==> Continuation(Encode(s)[i])
  {
    BytesOfScalar(s, k);
    var at, e := Start(s, k), EncodeScalar(s[k]);
    assert Encode(s)[at] == e[0];
    forall i | at < i < at + Width(s[k]) ensures Continuation(Encode(s)[i]) {
      assert Encode(s)[i] == e[i - at];
    }
  }

  // ---------------------------------------------------------------- the cut

  /** The string the cut produces. */
  function Cut(s: seq<Scalar>, maxBytes: nat): seq<Scalar> {
    var k := Fitting(s, maxBytes);
    if k == |s| || k == 0 || Width(s[k]) == 1 then s[..k]
    else if Width(s[k - 1]) == 1 then s[..k - 1]
    else s[..k - 1] + [REPLACEMENT]
  }

  /** The backward loop stops at the largest code-point boundary within the limit. */
  method StepBack(encoded: seq<Byte>, maxBytes: nat, ghost s: seq<Scalar>) returns (end: nat)
    requires encoded == Encode(s) && maxBytes < |encoded|
    ensures end == Start(s, Fitting(s, maxBytes)) && end <= maxBytes <= end + 3
  {
    FittingIsLargest(s, maxBytes);
    ghost var k := Fitting(s, maxBytes);
    LeadAndContinuations(s, k);
    end := maxBytes;
    while end > 0 && Continuation(encoded[end])
      invariant Start(s, k) <= end <= maxBytes
    {
      end := end - 1;
    }
  }

  method TruncateToBytes(s: seq<Scalar>, maxBytes: nat) returns (r: seq<Scalar>)
    ensures r == Cut(s, maxBytes)
  {
    var encoded := Encode(s);
    FittingIsLargest(s, maxBytes);
    if |encoded| <= maxBytes {
      return s;
    }
    var end := StepBack(encoded, maxBytes, s);
    ghost var k := Fitting(s, maxBytes);
    BytesOfScalar(s, k);
    assert encoded[end] == EncodeScalar(s[k])[0];
    StartIsZeroIff(s, k);
    if end > 0 && MultibyteLead(encoded[end]) {
      end := end - 1;
      DecodeOfStepTooFar(s, k);
    } else {
      EncodedPrefix(s, k);
      DecodeOfEncode(s[..k], []);
    }
    return Decode(encoded[..end]);
  }

  lemma EncodedPrefix(s: seq<Scalar>, k: nat)
    requires k <= |s|
    ensures Start(s, k) <= |Encode(s)| && Encode(s)[..Start(s, k)] == Encode(s[..k]) + []
  {
    StartIsLength(s, k);
    FlatSplits(s, EncodeScalar, k);
  }

  lemma StartIsZeroIff(s: seq<Scalar>, k: nat)
    requires k <= |s|
    ensures Start(s, k) == 0 <==> k == 0
  {
  }

  /** One byte before a boundary. */
  lemma DecodeOfStepTooFar(s: seq<Scalar>, k: nat)
    requires 0 < k <= |s|
    ensures 0 < Start(s, k) <= |Encode(s)|
    ensures Decode(Encode(s)[..Start(s, k) - 1]) == s[..k - 1] + if Width(s[k - 1]) == 1 then [] else [REPLACEMENT]
  {
    var c := s[k - 1];
    BytesBelowBoundary(s, k);
    DecodeOfEncode(s[..k - 1], EncodeScalar(c)[..Width(c) - 1]);
    if Width(c) > 1 {
      DecodeOfCutScalar(c);
    } else {
      assert EncodeScalar(c)[..0] == [];
    }
  }

  lemma BytesBelowBoundary(s: seq<Scalar>, k: nat)
    requires 0 < k <= |s|
    ensures 0 < Start(s, k) <= |Encode(s)|
    ensures Encode(s)[..Start(s, k) - 1] == Encode(s[..k - 1]) + EncodeScalar(s[k - 1])[..Width(s[k - 1]) - 1]
  {
    StartIsLength(s, k - 1);
    NextStart(s, k - 1);
    FlatAt(s, EncodeScalar, k - 1, Width(s[k - 1]) - 1);
  }

  // ---------------------------------------------------------------- what the cut keeps

  /** The cut keeps every scalar that fits exactly when the first one that does not is a single byte, or nothing fits,
      or everything does; or when the scalar it spoils is the replacement character anyway. */
  lemma CutKeepsAllThatFitsIff(s: seq<Scalar>, maxBytes: nat)
    ensures var k := Fitting(s, maxBytes);
      Cut(s, maxBytes) == s[..k] <==> k == |s| || k == 0 || Width(s[k]) == 1 || s[k - 1] == REPLACEMENT
  {
    var k := Fitting(s, maxBytes);
    if 0 < k < |s| && Width(s[k]) > 1 {
      assert |s[..k - 1]| != |s[..k]|;
      assert s[..k] == s[..k - 1] + [s[k - 1]];
      assert Cut(s, maxBytes) == s[..k] ==> Cut(s, maxBytes)[k - 1] == s[k - 1];
    }
  }

  lemma EncodeOfAppend(s: seq<Scalar>, c: Scalar)
    ensures |Encode(s + [c])| == |Encode(s)| + Width(c)
  {
    FlatSplits(s + [c], EncodeScalar, |s|);
    assert (s + [c])[..|s|] == s && (s + [c])[|s|..] == [c];
    FlatOfOne([c], EncodeScalar, []);
  }

  /** The limit is exceeded, by one byte, exactly when a multi-byte scalar starts at the limit itself and the scalar
      before it takes two bytes. */
  lemma LimitExceededIff(s: seq<Scalar>, maxBytes: nat)
    ensures var k := Fitting(s, maxBytes);
      |Encode(Cut(s, maxBytes))| > maxBytes <==>
        0 < k < |s| && Start(s, k) == maxBytes && Width(s[k]) > 1 && Width(s[k - 1]) == 2
    ensures |Encode(Cut(s, maxBytes))| <= maxBytes + 1
  {
    var k := Fitting(s, maxBytes);
    FittingIsLargest(s, maxBytes);
    StartIsLength(s, k);
    if 0 < k < |s| && Width(s[k]) > 1 {
      StartIsLength(s, k - 1);
      NextStart(s, k - 1);
      EncodeOfAppend(s[..k - 1], REPLACEMENT);
    }
  }

  function Repeat(c: Scalar, n: nat): (r: seq<Scalar>)
    ensures |r| == n && forall i :: 0 <= i < n ==> r[i] == c
  {
    if n == 0 then [] else [c] + Repeat(c, n - 1)
  }

  /** Of two-byte scalars half as many fit as there are bytes. */
  lemma {:induction false} FittingOfRepeat(c: Scalar, n: nat, bytes: nat)
    requires Width(c) == 2 && 2 * n > bytes
    ensures Fitting(Repeat(c, n), bytes) == bytes / 2
  {
    assert Repeat(c, n)[1..] == Repeat(c, n - 1);
    if bytes >= 2 {
      FittingOfRepeat(c, n - 1, bytes - 2);
    }
  }

  lemma {:induction false} StartOfRepeat(c: Scalar, n: nat, k: nat)
    requires Width(c) == 2 && k <= n
    ensures Start(Repeat(c, n), k) == 2 * k
  {
    if k > 0 {
      StartOfRepeat(c, n - 1, k - 1);
      assert Repeat(c, n)[1..] == Repeat(c, n - 1);
    }
  }

  /** A name that breaks the 255-byte cap: one ASCII letter and 128 two-byte letters come out as 256 bytes. */
  lemma CapIsBroken()
    ensures |Encode(Cut([0x61] + Repeat(0xE9, 128), 255))| == 256
  {
    var s := [0x61] + Repeat(0xE9, 128);
    FittingOfRepeat(0xE9, 128, 254);
    StartOfRepeat(0xE9, 128, 127);
    assert s[1..] == Repeat(0xE9, 128);
    assert Fitting(s, 255) == 1 + Fitting(s[1..], 254) == 128;
    assert Start(s, 128) == 1 + Start(s[1..], 127) == 255;
    LimitExceededIff(s, 255);
  }
}
