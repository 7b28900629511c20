/** UTF-8 of JavaScript text: each surrogate pair is one scalar value, and a surrogate that stands alone
    is written as U+FFFD. */
module Utf8 {
  import opened JsText

  type Byte = b: int | 0 <= b < 0x100
  type Scalar = c: int | 0 <= c < 0xD800 || 0xE000 <= c < 0x11_0000

  const REPLACEMENT: Scalar := 0xFFFD

  /** The first two code units are a surrogate pair. */
  predicate Paired(t: Text) {
    |t| >= 2 && IsHighSurrogate(t[0]) && IsLowSurrogate(t[1])
  }

  function FirstScalar(t: Text): Scalar
    requires t != []
  {
    if Paired(t) then 0x1_0000 + (t[0] - 0xD800) * 0x400 + (t[1] - 0xDC00)
    else if IsSurrogate(t[0]) then REPLACEMENT
    else t[0]
  }

  function AfterFirst(t: Text): Text
    requires t != []
  {
    if Paired(t) then t[2..] else t[1..]
  }

  /** The Unicode text that JavaScript text reads as. */
  function Scalars(t: Text): seq<Scalar>
    decreases |t|
  {
    if t == [] then [] else [FirstScalar(t)] + Scalars(AfterFirst(t))
  }

  predicate WellFormed(t: Text)
    decreases |t|
  {
    t == [] || ((Paired(t) || !IsSurrogate(t[0])) && WellFormed(AfterFirst(t)))
  }

  function EncodeScalar(c: Scalar): seq<Byte> {
    if c < 0x80 then [c]
    else if c < 0x800 then [0xC0 + c / 0x40, 0x80 + c % 0x40]
    else if c < 0x1_0000 then [0xE0 + c / 0x1000, 0x80 + c / 0x40 % 0x40, 0x80 + c % 0x40]
    else [0xF0 + c / 0x4_0000, 0x80 + c / 0x1000 % 0x40, 0x80 + c / 0x40 % 0x40, 0x80 + c % 0x40]
  }

  function EncodeScalars(s: seq<Scalar>): seq<Byte> {
    if s == [] then [] else EncodeScalar(s[0]) + EncodeScalars(s[1..])
  }

  /** `Buffer.from(text, 'utf8')` */
  function Encode(t: Text): seq<Byte> {
    EncodeScalars(Scalars(t))
  }

  // ----- one scalar value can be read back -----

  /** How many bytes the first one announces, and the scalar value they spell. */
  function ScalarWidth(first: Byte): int {
    if first < 0x80 then 1 else if first < 0xE0 then 2 else if first < 0xF0 then 3 else 4
  }

  function ReadScalar(bytes: seq<int>): int
    requires bytes != [] && 0 <= bytes[0] < 0x100 && ScalarWidth(bytes[0]) <= |bytes|
  {
    match ScalarWidth(bytes[0])
    case 1 => bytes[0]
    case 2 => (bytes[0] - 0xC0) * 0x40 + bytes[1] - 0x80
    case 3 => (bytes[0] - 0xE0) * 0x1000 + (bytes[1] - 0x80) * 0x40 + bytes[2] - 0x80
    case _ => (bytes[0] - 0xF0) * 0x4_0000 + (bytes[1] - 0x80) * 0x1000 + (bytes[2] - 0x80) * 0x40 + bytes[3] - 0x80
  }

  lemma ScalarReadsAlone(c: Scalar)
    ensures var bytes := EncodeScalar(c); ScalarWidth(bytes[0]) == |bytes| && ReadScalar(bytes) == c
  {
    var q := c / 0x40;
    assert c == 0x40 * q + c % 0x40;
    if c >= 0x1_0000 {
      var r := q / 0x40;
      assert c / 0x1000 == r && c / 0x4_0000 == r / 0x40;
      assert q == 0x40 * r + q % 0x40 && r == 0x40 * (r / 0x40) + r % 0x40;
    } else if c >= 0x800 {
      assert c / 0x1000 == q / 0x40;
    }
  }

  lemma ScalarReadsBack(c: Scalar, rest: seq<Byte>)
    ensures var bytes := EncodeScalar(c) + rest;
      && ScalarWidth(bytes[0]) == |EncodeScalar(c)|
      && ReadScalar(bytes) == c && bytes[ScalarWidth(bytes[0])..] == rest
  {
    ScalarReadsAlone(c);
    var e := EncodeScalar(c);
    hide EncodeScalar;
    assert forall i :: 0 <= i < |e| ==> (e + rest)[i] == e[i];
  }

  lemma NoBytesNoText(s: seq<Scalar>)
    ensures EncodeScalars(s) == [] <==> s == []
  {
  }

  /** Different sequences of scalar values have different bytes. */
  lemma {:induction false} EncodeScalarsInjective(a: seq<Scalar>, b: seq<Scalar>)
    requires EncodeScalars(a) == EncodeScalars(b)
    ensures a == b
  {
    NoBytesNoText(a);
    NoBytesNoText(b);
    if a != [] {
      ScalarReadsBack(a[0], EncodeScalars(a[1..]));
      ScalarReadsBack(b[0], EncodeScalars(b[1..]));
      hide EncodeScalar, ReadScalar, ScalarWidth;
      EncodeScalarsInjective(a[1..], b[1..]);
      assert a == [a[0]] + a[1..] && b == [b[0]] + b[1..];
    }
  }

  lemma {:induction false} EncodeScalarsConcat(a: seq<Scalar>, b: seq<Scalar>)
    ensures EncodeScalars(a + b) == EncodeScalars(a) + EncodeScalars(b)
  {
    hide EncodeScalar;
    if a == [] {
      assert a + b == b;
    } else {
      assert (a + b)[1..] == a[1..] + b;
      EncodeScalarsConcat(a[1..], b);
    }
  }

  // ----- text -----

  /** The two texts may be joined without making a surrogate pair at the seam. */
  predicate Seamless(a: Text, b: Text) {
    a == [] || b == [] || !IsHighSurrogate(a[|a| - 1]) || !IsLowSurrogate(b[0])
  }

  lemma FirstOfJoined(a: Text, b: Text)
    requires a != [] && Seamless(a, b)
    ensures FirstScalar(a + b) == FirstScalar(a) && AfterFirst(a + b) == AfterFirst(a) + b && Seamless(AfterFirst(a), b)
  {
    assert Paired(a + b) <==> Paired(a);
  }

  lemma {:induction false} ScalarsConcat(a: Text, b: Text)
    requires Seamless(a, b)
    ensures Scalars(a + b) == Scalars(a) + Scalars(b)
    decreases |a|
  {
    if a == [] {
      assert a + b == b;
    } else {
      FirstOfJoined(a, b);
      hide FirstScalar, Seamless;
      ScalarsConcat(AfterFirst(a), b);
    }
  }

  lemma EncodeConcat(a: Text, b: Text)
    requires Seamless(a, b)
    ensures Encode(a + b) == Encode(a) + Encode(b)
  {
    ScalarsConcat(a, b);
    EncodeScalarsConcat(Scalars(a), Scalars(b));
  }

  /** Two texts have the same bytes exactly when they read as the same Unicode text. */
  lemma SameBytes(a: Text, b: Text)
    ensures Encode(a) == Encode(b) <==> Scalars(a) == Scalars(b)
  {
    if Encode(a) == Encode(b) {
      EncodeScalarsInjective(Scalars(a), Scalars(b));
    }
  }

  lemma {:induction false} WellFormedInjective(a: Text, b: Text)
    requires WellFormed(a) && WellFormed(b) && Scalars(a) == Scalars(b)
    ensures a == b
    decreases |a|
  {
    if a != [] && b != [] {
      assert Scalars(a)[0] == FirstScalar(a) && Scalars(b)[0] == FirstScalar(b);
      assert Scalars(a)[1..] == Scalars(AfterFirst(a)) && Scalars(b)[1..] == Scalars(AfterFirst(b));
      WellFormedInjective(AfterFirst(a), AfterFirst(b));
      SplitFirst(a);
      SplitFirst(b);
    }
  }

  /** A pair spells its scalar value by the rule of UTF-16, section 3.9 of the Unicode Standard. */
  lemma PairsSpellScalars(t: Text, c: Scalar)
    requires Paired(t) && c >= 0x1_0000
    ensures FirstScalar(t) == c <==> t[0] == 0xD800 + (c - 0x1_0000) / 0x400 && t[1] == 0xDC00 + (c - 0x1_0000) % 0x400
  {
  }

  lemma SplitFirst(t: Text)
    requires t != []
    ensures t == if Paired(t) then [t[0], t[1]] + AfterFirst(t) else [t[0]] + AfterFirst(t)
  {
  }

  lemma {:induction false} AsciiIsItself(t: Text)
    requires IsAscii(t)
    ensures Encode(t) == t
  {
    if t != [] {
      AsciiIsItself(t[1..]);
      assert Scalars(t)[1..] == Scalars(t[1..]);
      assert t == [t[0]] + t[1..];
    }
  }

  /** A text is shorter in bytes than any text it is a proper prefix of, even when the seam completes a
      surrogate pair. */
  lemma LongerText(a: Text, b: Text)
    requires b != []
    ensures |Encode(a)| < |Encode(a + b)|
  {
    if Seamless(a, b) {
      EncodeConcat(a, b);
      SomeBytes(b);
    } else {
      var front, high := a[..|a| - 1], a[|a| - 1..];
      assert a == front + high && a + b == front + (high + b);
      EncodeConcat(front, high);
      EncodeConcat(front, high + b);
      PairBytes(high, b);
    }
  }

  lemma SomeBytes(b: Text)
    requires b != []
    ensures |Encode(b)| >= 1
  {
    assert Scalars(b)[0] == FirstScalar(b);
  }

  lemma PairBytes(high: Text, b: Text)
    requires |high| == 1 && IsHighSurrogate(high[0]) && b != [] && IsLowSurrogate(b[0])
    ensures |Encode(high)| == 3 && |Encode(high + b)| >= 4
  {
    assert Scalars(high) == [REPLACEMENT] by {
      assert AfterFirst(high) == [];
    }
    assert Scalars(high + b)[0] >= 0x1_0000;
    var s := Scalars(high + b);
    assert |EncodeScalar(s[0])| == 4;
    assert EncodeScalars([REPLACEMENT]) == EncodeScalar(REPLACEMENT) + EncodeScalars([]);
  }
}
