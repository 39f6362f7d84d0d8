/** UTF-16 texts and their UTF-8 bytes: encoding with replacement of lone surrogates,
    decoding with replacement of ill-formed parts (section 3 of RFC 3629). */
module Unicode {

  type CodeUnit = x: int | 0 <= x < 0x1_0000

  type Byte = x: int | 0 <= x < 0x100

  /** A string as the program sees it: UTF-16 code units, surrogates in any order. */
  type Text = seq<CodeUnit>

  type CodePoint = x: int | 0 <= x < 0x11_0000

  const REPLACEMENT: CodePoint := 0xFFFD

  predicate IsHigh(u: CodeUnit) { 0xD800 <= u < 0xDC00 }

  predicate IsLow(u: CodeUnit) { 0xDC00 <= u < 0xE000 }

  predicate IsSurrogate(c: int) { 0xD800 <= c < 0xE000 }

  // ---------- characters of a text ----------

  /** How many code units the first character of a text takes: two for a surrogate pair. */
  function FirstLength(t: Text): (n: nat)
    requires t != []
    ensures 1 <= n <= 2 && n <= |t|
  {
    if |t| > 1 && IsHigh(t[0]) && IsLow(t[1]) then 2 else 1
  }

  function FromPair(high: int, low: int): int {
    0x1_0000 + (high - 0xD800) * 0x400 + (low - 0xDC00)
  }

  /** The first character, which may be a lone surrogate. */
  function FirstPoint(t: Text): CodePoint
    requires t != []
  {
    if FirstLength(t) == 2 then FromPair(t[0], t[1]) else t[0]
  }

  function FromPoint(c: CodePoint): Text {
    if c < 0x1_0000 then [c] else [0xD800 + (c - 0x1_0000) / 0x400, 0xDC00 + (c - 0x1_0000) % 0x400]
  }

  /** No surrogate stands alone. */
  predicate WellFormed(t: Text)
    decreases |t|
  {
    t == [] || (!IsSurrogate(FirstPoint(t)) && WellFormed(t[FirstLength(t)..]))
  }

  /** The text with every lone surrogate replaced. */
  function ToWellFormed(t: Text): (r: Text)
    ensures |r| == |t|
    decreases |t|
  {
    if t == [] then []
    else (if IsSurrogate(FirstPoint(t)) then [REPLACEMENT] else t[..FirstLength(t)]) + ToWellFormed(t[FirstLength(t)..])
  }

  // ---------- encoding ----------

  function EncodePoint(c: CodePoint): (b: seq<Byte>)
    ensures 1 <= |b| <= 4
  {
    if c < 0x80 then [c]
    else if c < 0x800 then [0xC0 + c / 0x40, 0x80 + c % 0x40]
    else if c < 0x1_0000 then [0xE0 + c / 0x1000, 0x80 + c / 0x40 % 0x40, 0x80 + c % 0x40]
    else [0xF0 + c / 0x4_0000, 0x80 + c / 0x1000 % 0x40, 0x80 + c / 0x40 % 0x40, 0x80 + c % 0x40]
  }

  function Scalar(c: CodePoint): (r: CodePoint)
    ensures !IsSurrogate(r)
  {
    if IsSurrogate(c) then REPLACEMENT else c
  }

  function Utf8(t: Text): seq<Byte>
    decreases |t|
  {
    if t == [] then [] else EncodePoint(Scalar(FirstPoint(t))) + Utf8(t[FirstLength(t)..])
  }

  /** Joining texts joins their bytes unless a surrogate pair forms across the seam. */
  lemma {:induction false} Utf8Concat(a: Text, b: Text)
    requires a == [] || b == [] || !IsHigh(a[|a| - 1]) || !IsLow(b[0])
    ensures Utf8(a + b) == Utf8(a) + Utf8(b)
    decreases |a|
  {
    if a == [] {
      assert a + b == b;
    } else {
      var n := FirstLength(a);
      assert FirstLength(a + b) == n && FirstPoint(a + b) == FirstPoint(a);
      assert (a + b)[n..] == a[n..] + b;
      Utf8Concat(a[n..], b);
    }
  }

  /** No text has more code units than UTF-8 bytes. */
  lemma {:induction false} Utf8Length(t: Text)
    ensures |t| <= |Utf8(t)|
    decreases |t|
  {
    if t != [] {
      Utf8Length(t[FirstLength(t)..]);
    }
  }

  /** ASCII texts have one byte a code unit. */
  lemma {:induction false} AsciiSize(t: Text)
    requires forall i :: 0 <= i < |t| ==> t[i] < 0x80
    ensures |Utf8(t)| == |t|
  {
    if t != [] {
      AsciiSize(t[1..]);
    }
  }

  // ---------- decoding ----------

  /** The first character read from bytes and how many bytes it takes; the longest part that
      could still have become one is replaced as a whole. */
  datatype Step = Step(point: CodePoint, taken: nat)

  predicate Continues(b: seq<Byte>, i: nat, low: int, high: int) {
    i < |b| && low <= b[i] <= high
  }

  function Two(b0: int, b1: int): int { (b0 - 0xC0) * 0x40 + (b1 - 0x80) }

  function Three(b0: int, b1: int, b2: int): int { (b0 - 0xE0) * 0x1000 + (b1 - 0x80) * 0x40 + (b2 - 0x80) }

  function Four(b0: int, b1: int, b2: int, b3: int): int {
    (b0 - 0xF0) * 0x4_0000 + (b1 - 0x80) * 0x1000 + (b2 - 0x80) * 0x40 + (b3 - 0x80)
  }

  function DecodeFirst(b: seq<Byte>): (s: Step)
    requires b != []
    ensures 1 <= s.taken <= |b|
  {
    var b0 := b[0];
    if b0 < 0x80 then Step(b0, 1)
    else if 0xC2 <= b0 < 0xE0 then
      if Continues(b, 1, 0x80, 0xBF) then Step(Two(b0, b[1]), 2) else Step(REPLACEMENT, 1)
    else if 0xE0 <= b0 < 0xF0 then
      if !Continues(b, 1, if b0 == 0xE0 then 0xA0 else 0x80, if b0 == 0xED then 0x9F else 0xBF) then
        Step(REPLACEMENT, 1)
      else if !Continues(b, 2, 0x80, 0xBF) then Step(REPLACEMENT, 2)
      else Step(Three(b0, b[1], b[2]), 3)
    else if 0xF0 <= b0 < 0xF5 then
      if !Continues(b, 1, if b0 == 0xF0 then 0x90 else 0x80, if b0 == 0xF4 then 0x8F else 0xBF) then
        Step(REPLACEMENT, 1)
      else if !Continues(b, 2, 0x80, 0xBF) then Step(REPLACEMENT, 2)
      else if !Continues(b, 3, 0x80, 0xBF) then Step(REPLACEMENT, 3)
      else Step(Four(b0, b[1], b[2], b[3]), 4)
    else Step(REPLACEMENT, 1)
  }

  function Utf8Decode(b: seq<Byte>): Text
    decreases |b|
  {
    if b == [] then [] else var s := DecodeFirst(b); FromPoint(s.point) + Utf8Decode(b[s.taken..])
  }

  lemma DecodeFirstOf2(c: CodePoint, rest: seq<Byte>)
    requires c < 0x800
    ensures DecodeFirst(EncodePoint(c) + rest) == Step(c, |EncodePoint(c)|)
  {
  }

  lemma ThreeRange(c: CodePoint)
    requires 0x800 <= c < 0x1_0000 && !IsSurrogate(c)
    ensures 0xE0 <= 0xE0 + c / 0x1000 < 0xF0
    ensures c / 0x1000 == 0 ==> 0x20 <= c / 0x40 % 0x40
    ensures c / 0x1000 == 0xD ==> c / 0x40 % 0x40 < 0x20
    ensures Three(0xE0 + c / 0x1000, 0x80 + c / 0x40 % 0x40, 0x80 + c % 0x40) == c
  {
    assert c / 0x1000 == c / 0x40 / 0x40;
  }

  lemma DecodeFirstOf3(c: CodePoint, rest: seq<Byte>)
    requires 0x800 <= c < 0x1_0000 && !IsSurrogate(c)
    ensures DecodeFirst(EncodePoint(c) + rest) == Step(c, 3)
  {
    hide Three;
    var b := EncodePoint(c) + rest;
    ThreeRange(c);
    assert b[0] == 0xE0 + c / 0x1000 && b[1] == 0x80 + c / 0x40 % 0x40 && b[2] == 0x80 + c % 0x40;
  }

  lemma FourRange(c: CodePoint)
    requires 0x1_0000 <= c
    ensures 0xF0 <= 0xF0 + c / 0x4_0000 < 0xF5
    ensures c / 0x4_0000 == 0 ==> 0x10 <= c / 0x1000 % 0x40
    ensures c / 0x4_0000 == 4 ==> c / 0x1000 % 0x40 < 0x10
    ensures Four(0xF0 + c / 0x4_0000, 0x80 + c / 0x1000 % 0x40, 0x80 + c / 0x40 % 0x40, 0x80 + c % 0x40) == c
  {
    assert c / 0x1000 == c / 0x40 / 0x40 && c / 0x4_0000 == c / 0x1000 / 0x40;
  }

  lemma DecodeFirstOf4(c: CodePoint, rest: seq<Byte>)
    requires 0x1_0000 <= c
    ensures DecodeFirst(EncodePoint(c) + rest) == Step(c, 4)
  {
    hide Four;
    var b := EncodePoint(c) + rest;
    FourRange(c);
    assert b[0] == 0xF0 + c / 0x4_0000 && b[1] == 0x80 + c / 0x1000 % 0x40;
    assert b[2] == 0x80 + c / 0x40 % 0x40 && b[3] == 0x80 + c % 0x40;
  }

  lemma DecodeFirstOf(c: CodePoint, rest: seq<Byte>)
    requires !IsSurrogate(c)
    ensures DecodeFirst(EncodePoint(c) + rest) == Step(c, |EncodePoint(c)|)
  {
    if c < 0x800 {
      DecodeFirstOf2(c, rest);
    } else if c < 0x1_0000 {
      DecodeFirstOf3(c, rest);
    } else {
      DecodeFirstOf4(c, rest);
    }
  }

  lemma PointRoundTrip(t: Text)
    requires t != []
    ensures FromPoint(FirstPoint(t)) == t[..FirstLength(t)]
  {
  }

  /** Encoding and decoding gives the text back, lone surrogates replaced. */
  lemma {:induction false} Utf8RoundTrip(t: Text)
    ensures Utf8Decode(Utf8(t)) == ToWellFormed(t)
    decreases |t|
  {
    if t != [] {
      hide DecodeFirst, EncodePoint;
      var c, rest := FirstPoint(t), t[FirstLength(t)..];
      Utf8RoundTrip(rest);
      DecodeFirstOf(Scalar(c), Utf8(rest));
      PointRoundTrip(t);
      var head := EncodePoint(Scalar(c));
      assert Utf8(t) == head + Utf8(rest);
      assert (head + Utf8(rest))[|head|..] == Utf8(rest);
      assert FromPoint(REPLACEMENT) == [REPLACEMENT];
    }
  }

  lemma {:induction false} WellFormedIsKept(t: Text)
    ensures WellFormed(t) <==> ToWellFormed(t) == t
    decreases |t|
  {
    if t != [] {
      var n := FirstLength(t);
      WellFormedIsKept(t[n..]);
      assert t == t[..n] + t[n..];
      if ToWellFormed(t) == t {
        assert ToWellFormed(t)[0] == t[0];
        assert ToWellFormed(t)[n..] == ToWellFormed(t[n..]);
      }
    }
  }
}
