/** The formats that the codecs write, as the standards have them: the table and bits of base64url
    (RFC 4648), the byte patterns of UTF-8 (RFC 3629), surrogate pairs in order, and JSON strings read
    back by a reader of their own (section 7 of RFC 8259). */
module CodecFormats {
  import opened Basics
  import opened Unicode
  import Base64Url
  import FrameFitting
  import OperatorMessageIds
  import TelegramReplyCodec

  /** The code units of an ASCII string. */
  predicate Spells(t: Text, s: string) {
    |t| == |s| && forall i :: 0 <= i < |s| ==> t[i] == s[i] as int
  }

  // ---------- base64url ----------

  /** Table 2 of RFC 4648: the letters A to Z and a to z, the digits, a hyphen and an underscore. */
  function TableLetter(v: Base64Url.Sextet): char {
    if v < 26 then 'A' + v as char else if v < 52 then 'a' + (v - 26) as char
    else if v < 62 then '0' + (v - 52) as char else if v == 62 then '-' else '_'
  }

  /** Six bits are written as the letter that the table has for them, and read back as them. */
  lemma LettersAreTheTable(v: Base64Url.Sextet)
    ensures Base64Url.Letter(v) == TableLetter(v) as int && Base64Url.Value(TableLetter(v) as int) == v
  {
  }

  function Power(base: nat, n: nat): nat {
    if n == 0 then 1 else base * Power(base, n - 1)
  }

  /** The number that digits write, most significant first. */
  function Number(digits: seq<int>, base: nat): int {
    if digits == [] then 0 else digits[0] * Power(base, |digits| - 1) + Number(digits[1..], base)
  }

  function Scale(n: nat): nat {
    if n % 3 == 0 then 1 else if n % 3 == 1 then 16 else 4
  }

  lemma SmallPowers()
    ensures Power(64, 0) == 1 && Power(64, 2) == 4_096 && Power(64, 3) == 262_144
    ensures Power(256, 0) == 1 && Power(256, 1) == 256 && Power(256, 2) == 65_536
  {
    assert Power(64, 1) == 64 * Power(64, 0) && Power(64, 2) == 64 * Power(64, 1) && Power(64, 3) == 64 * Power(64, 2);
    assert Power(256, 1) == 256 * Power(256, 0) && Power(256, 2) == 256 * Power(256, 1);
  }

  lemma {:induction false} PowersMatch(n: nat)
    ensures Power(64, (n * 4 + 2) / 3) == Power(256, n) * Scale(n)
  {
    hide Power;
    if n >= 3 {
      PowersMatch(n - 3);
      assert (n * 4 + 2) / 3 == ((n - 3) * 4 + 2) / 3 + 4 && Scale(n) == Scale(n - 3);
      FourMore(((n - 3) * 4 + 2) / 3);
      ThreeMore(n - 3);
      Times(16_777_216, Power(256, n - 3), Scale(n));
    } else {
      SmallPowers();
    }
  }

  lemma FourMore(m: nat)
    ensures Power(64, m + 4) == 16_777_216 * Power(64, m)
  {
    assert Power(64, m + 4) == 64 * (64 * (64 * (64 * Power(64, m)))) by {
      assert Power(64, m + 4) == 64 * Power(64, m + 3) && Power(64, m + 3) == 64 * Power(64, m + 2);
      assert Power(64, m + 2) == 64 * Power(64, m + 1) && Power(64, m + 1) == 64 * Power(64, m);
    }
  }

  lemma ThreeMore(m: nat)
    ensures Power(256, m + 3) == 16_777_216 * Power(256, m)
  {
    assert Power(256, m + 3) == 256 * (256 * (256 * Power(256, m))) by {
      assert Power(256, m + 3) == 256 * Power(256, m + 2) && Power(256, m + 2) == 256 * Power(256, m + 1);
      assert Power(256, m + 1) == 256 * Power(256, m);
    }
  }

  lemma DigitsOn(d: int, rest: seq<int>, base: nat)
    ensures Number([d] + rest, base) == d * Power(base, |rest|) + Number(rest, base)
  {
    assert ([d] + rest)[1..] == rest;
  }

  lemma Times(v: int, p: int, k: int)
    ensures v * (p * k) == (v * p) * k
  {
  }

  lemma Spread(x: int, y: int, p: int)
    ensures (x + y) * p == x * p + y * p
  {
  }

  lemma PowerOn(base: nat, n: nat)
    ensures Power(base, n + 1) == base * Power(base, n)
  {
  }

  lemma ThreePlaces(a: int, b: int, c: int, p: int)
    ensures a * (256 * (256 * p)) + b * (256 * p) + c * p == (a * 65_536 + b * 256 + c) * p
  {
    Times(a, 65_536, p);
    Times(b, 256, p);
    Spread(a * 65_536, b * 256, p);
    Spread(a * 65_536 + b * 256, c, p);
  }

  lemma FourPlaces(a: int, b: int, c: int, d: int, p: int)
    ensures a * (64 * (64 * (64 * p))) + b * (64 * (64 * p)) + c * (64 * p) + d * p
      == (a * 262_144 + b * 4_096 + c * 64 + d) * p
  {
    Times(a, 262_144, p);
    Times(b, 4_096, p);
    Times(c, 64, p);
    Spread(a * 262_144, b * 4_096, p);
    Spread(a * 262_144 + b * 4_096, c * 64, p);
    Spread(a * 262_144 + b * 4_096 + c * 64, d, p);
  }

  lemma ThreeDigits(a: int, b: int, c: int, rest: seq<int>)
    ensures Number([a, b, c] + rest, 256) == (a * 65_536 + b * 256 + c) * Power(256, |rest|) + Number(rest, 256)
  {
    hide Number, Power;
    var n := |rest|;
    assert [a, b, c] + rest == [a] + ([b] + ([c] + rest));
    DigitsOn(a, [b] + ([c] + rest), 256);
    DigitsOn(b, [c] + rest, 256);
    DigitsOn(c, rest, 256);
    PowerOn(256, n);
    PowerOn(256, n + 1);
    ThreePlaces(a, b, c, Power(256, n));
  }

  lemma FourDigits(a: int, b: int, c: int, d: int, rest: seq<int>)
    ensures Number([a, b, c, d] + rest, 64) ==
      (a * 262_144 + b * 4_096 + c * 64 + d) * Power(64, |rest|) + Number(rest, 64)
  {
    hide Number, Power;
    var n := |rest|;
    assert [a, b, c, d] + rest == [a] + ([b] + ([c] + ([d] + rest)));
    DigitsOn(a, [b] + ([c] + ([d] + rest)), 64);
    DigitsOn(b, [c] + ([d] + rest), 64);
    DigitsOn(c, [d] + rest, 64);
    DigitsOn(d, rest, 64);
    PowerOn(64, n);
    PowerOn(64, n + 1);
    PowerOn(64, n + 2);
    FourPlaces(a, b, c, d, Power(64, n));
  }

  /** The number of three bytes. */
  function Triple(a: int, b: int, c: int): int {
    a * 65_536 + b * 256 + c
  }

  lemma GroupNumber(a: Byte, b: Byte, c: Byte)
    ensures a / 4 * 262_144 + (a % 4 * 16 + b / 16) * 4_096 + (b % 16 * 4 + c / 64) * 64 + c % 64 == Triple(a, b, c)
  {
  }

  lemma GroupDigits(a: Byte, b: Byte, c: Byte, rest: seq<int>)
    ensures Number(Base64Url.Group3(a, b, c) + rest, 64) == Triple(a, b, c) * Power(64, |rest|) + Number(rest, 64)
    ensures Number([a, b, c] + rest, 256) == Triple(a, b, c) * Power(256, |rest|) + Number(rest, 256)
  {
    hide Number, Power;
    FourDigits(a / 4, a % 4 * 16 + b / 16, b % 16 * 4 + c / 64, c % 64, rest);
    ThreeDigits(a, b, c, rest);
    GroupNumber(a, b, c);
  }

  lemma Combined(v: int, p: int, k: int, x: int)
    ensures v * (p * k) + x * k == (v * p + x) * k
  {
    Times(v, p, k);
    Spread(v * p, x, k);
  }

  lemma SextetsOn(a: Byte, b: Byte, c: Byte, rest: seq<Byte>)
    ensures Base64Url.Sextets([a, b, c] + rest) == Base64Url.Group3(a, b, c) + Base64Url.Sextets(rest)
  {
    hide Base64Url.Group3;
    assert ([a, b, c] + rest)[3..] == rest;
  }

  /** The six-bit digits write the number that the bytes write, with zero bits added at the end up to a whole
      digit: two bits after two bytes, four after one. */
  lemma {:induction false} SextetsAreTheBits(b: seq<Byte>)
    ensures Number(Base64Url.Sextets(b), 64) == Number(b, 256) * Scale(|b|)
  {
    hide Number, Power, Base64Url.Group3, Base64Url.Sextets, Triple;
    if |b| >= 3 {
      var rest, q := b[3..], Base64Url.Sextets(b[3..]);
      SextetsAreTheBits(rest);
      SextetsOn(b[0], b[1], b[2], rest);
      assert b == [b[0], b[1], b[2]] + rest;
      GroupDigits(b[0], b[1], b[2], rest);
      GroupDigits(b[0], b[1], b[2], q);
      PowersMatch(|rest|);
      Combined(Triple(b[0], b[1], b[2]), Power(256, |rest|), Scale(|rest|), Number(rest, 256));
    } else {
      ShortBits(b);
    }
  }

  lemma BitCount(n: nat)
    ensures (n * 4 + 2) / 3 * 6 == n * 8 + (if n % 3 == 0 then 0 else if n % 3 == 1 then 4 else 2)
  {
    var q := n / 3;
    if n % 3 == 0 {
      assert n == 3 * q && (n * 4 + 2) / 3 == 4 * q;
    } else if n % 3 == 1 {
      assert n == 3 * q + 1 && (n * 4 + 2) / 3 == 4 * q + 2;
    } else {
      assert n == 3 * q + 2 && (n * 4 + 2) / 3 == 4 * q + 3;
    }
  }

  /** There are as many digits as the bits need. */
  lemma SextetCount(b: seq<Byte>)
    ensures |Base64Url.Sextets(b)| * 6 == |b| * 8 + (if |b| % 3 == 0 then 0 else if |b| % 3 == 1 then 4 else 2)
  {
    hide Base64Url.Sextets;
    BitCount(|b|);
  }

  lemma TwoDigits(a: int, b: int, base: nat)
    ensures Number([a], base) == a && Number([a, b], base) == a * base + b
  {
    assert Power(base, 1) == base * Power(base, 0);
    assert Number([], base) == 0;
    DigitsOn(a, [], base);
    DigitsOn(b, [], base);
    DigitsOn(a, [b], base);
    assert [a] + [] == [a] && [b] + [] == [b] && [a] + [b] == [a, b];
  }

  lemma OneByte(a: Byte)
    ensures a / 4 * 64 + a % 4 * 16 == a * 16
  {
  }

  lemma TwoBytes(a: Byte, b: Byte)
    ensures a / 4 * 4_096 + (a % 4 * 16 + b / 16) * 64 + b % 16 * 4 == (a * 256 + b) * 4
  {
  }

  lemma ShortBits(b: seq<Byte>)
    requires |b| < 3
    ensures Number(Base64Url.Sextets(b), 64) == Number(b, 256) * Scale(|b|)
  {
    hide Number, Power, Base64Url.Sextets;
    if |b| == 2 {
      TwoByteBits(b[0], b[1]);
      assert b == [b[0], b[1]];
    } else if |b| == 1 {
      OneByteBits(b[0]);
      assert b == [b[0]];
    } else {
      NoDigits();
      assert b == [];
    }
  }

  lemma OneByteBits(a: Byte)
    ensures Number(Base64Url.Sextets([a]), 64) == Number([a], 256) * 16
  {
    hide Number, Power;
    assert Base64Url.Sextets([a]) == [a / 4, a % 4 * 16];
    TwoDigits(a / 4, a % 4 * 16, 64);
    TwoDigits(a, 0, 256);
    OneByte(a);
  }

  lemma TwoByteBits(a: Byte, b: Byte)
    ensures Number(Base64Url.Sextets([a, b]), 64) == Number([a, b], 256) * 4
  {
    hide Number, Power;
    var x, y, z := a / 4, a % 4 * 16 + b / 16, b % 16 * 4;
    assert Base64Url.Sextets([a, b]) == [x] + [y, z];
    DigitsOn(x, [y, z], 64);
    TwoDigits(y, z, 64);
    TwoDigits(a, b, 256);
    SmallPowers();
    TwoBytes(a, b);
  }

  lemma NoDigits()
    ensures Number(Base64Url.Sextets([]), 64) == 0 && Number([], 256) == 0
  {
  }

  // ---------- UTF-8 ----------

  predicate Tail(b: Byte) {
    0x80 <= b <= 0xBF
  }

  /** Six more bits. */
  function Six(high: int, b: int): int {
    high * 64 + (b - 0x80)
  }

  /** The table of section 3 of RFC 3629: how long a character is written, which bits say so, and that the
      other bits are the character's, most significant first. */
  lemma Utf8Table(c: CodePoint)
    ensures var b := EncodePoint(c);
      if c <= 0x7F then b == [c]
      else if c <= 0x7FF then
        |b| == 2 && 0xC0 <= b[0] <= 0xDF && Tail(b[1]) && c == Six(Bits(b[0], 0xC0), b[1])
      else if c <= 0xFFFF then
        && |b| == 3 && 0xE0 <= b[0] <= 0xEF && Tail(b[1]) && Tail(b[2])
        && c == Six(Six(Bits(b[0], 0xE0), b[1]), b[2])
      else
        && |b| == 4 && 0xF0 <= b[0] <= 0xF7 && Tail(b[1]) && Tail(b[2]) && Tail(b[3])
        && c == Six(Six(Six(Bits(b[0], 0xF0), b[1]), b[2]), b[3])
  {
    if 0x7FF < c <= 0xFFFF {
      assert c / 0x1000 == c / 0x40 / 0x40;
    } else if c > 0xFFFF {
      assert c / 0x1000 == c / 0x40 / 0x40 && c / 0x4_0000 == c / 0x1000 / 0x40;
    }
  }

  /** The bytes are the beginning of what is written for some character. */
  ghost predicate Begins(p: seq<Byte>) {
    exists c: CodePoint :: !IsSurrogate(c) && p <= EncodePoint(c)
  }

  /** What the second byte may be after a first one (section 4 of RFC 3629). */
  predicate SecondFits(b0: Byte, b1: Byte) {
    || (0xC2 <= b0 <= 0xDF && Tail(b1))
    || (b0 == 0xE0 && 0xA0 <= b1 <= 0xBF) || (b0 == 0xED && 0x80 <= b1 <= 0x9F)
    || (0xE1 <= b0 <= 0xEF && b0 != 0xED && Tail(b1))
    || (b0 == 0xF0 && 0x90 <= b1 <= 0xBF) || (0xF1 <= b0 <= 0xF3 && Tail(b1)) || (b0 == 0xF4 && 0x80 <= b1 <= 0x8F)
  }

  lemma Parts(c: CodePoint)
    requires !IsSurrogate(c)
    ensures var e := EncodePoint(c);
      && (forall i :: 1 <= i < |e| ==> Tail(e[i])) && (|e| > 1 ==> SecondFits(e[0], e[1]))
      && |e| == if e[0] <= 0x7F then 1 else if e[0] <= 0xDF then 2 else if e[0] <= 0xEF then 3 else 4
  {
    hide Three, Four;
    if 0x800 <= c < 0x1_0000 { ThreeRange(c); } else if c >= 0x1_0000 { FourRange(c); }
  }

  lemma TwoBack(b0: Byte, b1: Byte)
    requires 0xC2 <= b0 <= 0xDF && Tail(b1)
    ensures 0x80 <= Two(b0, b1) < 0x800 && EncodePoint(Two(b0, b1)) == [b0, b1]
  {
  }

  lemma ThreeBack(b0: Byte, b1: Byte, b2: Byte)
    requires 0xE0 <= b0 <= 0xEF && SecondFits(b0, b1) && Tail(b2)
    ensures 0x800 <= Three(b0, b1, b2) < 0x1_0000 && !IsSurrogate(Three(b0, b1, b2))
    ensures EncodePoint(Three(b0, b1, b2)) == [b0, b1, b2]
  {
    var c := Three(b0, b1, b2);
    assert c / 0x40 == (b0 - 0xE0) * 0x40 + (b1 - 0x80);
    assert c / 0x1000 == c / 0x40 / 0x40 == b0 - 0xE0;
  }

  lemma FourBack(b0: Byte, b1: Byte, b2: Byte, b3: Byte)
    requires 0xF0 <= b0 <= 0xF4 && SecondFits(b0, b1) && Tail(b2) && Tail(b3)
    ensures 0x1_0000 <= Four(b0, b1, b2, b3) < 0x11_0000
    ensures EncodePoint(Four(b0, b1, b2, b3)) == [b0, b1, b2, b3]
  {
    var c := Four(b0, b1, b2, b3);
    assert c / 0x40 == (b0 - 0xF0) * 0x1000 + (b1 - 0x80) * 0x40 + (b2 - 0x80);
    assert c / 0x1000 == c / 0x40 / 0x40 == (b0 - 0xF0) * 0x40 + (b1 - 0x80);
    assert c / 0x4_0000 == c / 0x1000 / 0x40 == b0 - 0xF0;
  }

  /** What no character begins is no longer than what is taken. */
  lemma LongerBeginsNothing(b: seq<Byte>, n: nat, c: CodePoint)
    requires b != [] && !IsSurrogate(c) && n <= |b| && b[..n] <= EncodePoint(c)
    ensures n <= DecodeFirst(b).taken
  {
    hide Two, Three, Four, EncodePoint, Tail;
    Parts(c);
    var e := EncodePoint(c);
    if n > 1 {
      assert e[0] == b[..n][0] && e[1] == b[..n][1];
      assert SecondFits(b[0], b[1]);
      TailsAlike(b, n, e);
    }
  }

  lemma TailsAlike(b: seq<Byte>, n: nat, e: seq<Byte>)
    requires n <= |b| && b[..n] <= e && (forall i :: 1 <= i < |e| ==> Tail(e[i]))
    ensures forall i :: 1 <= i < n ==> 0x80 <= b[i] <= 0xBF
  {
    forall i | 1 <= i < n ensures Tail(b[i]) { assert e[i] == b[..n][i]; }
  }

  /** More than one byte is replaced only when a character begins with them. */
  lemma TakenBegins(b: seq<Byte>)
    requires b != [] && DecodeFirst(b).taken > 1
    ensures Begins(b[..DecodeFirst(b).taken])
  {
    hide EncodePoint, Two, Three, Four;
    var b0, n := b[0], DecodeFirst(b).taken;
    assert SecondFits(b0, b[1]);
    if b0 < 0xE0 {
      TwoBack(b0, b[1]);
      assert b[..n] <= EncodePoint(Two(b0, b[1]));
    } else if b0 < 0xF0 {
      var b2: Byte := if n > 2 then b[2] else 0x80;
      ThreeBack(b0, b[1], b2);
      assert b[..n] <= EncodePoint(Three(b0, b[1], b2));
    } else {
      var b2: Byte, b3: Byte := if n > 2 then b[2] else 0x80, if n > 3 then b[3] else 0x80;
      FourBack(b0, b[1], b2, b3);
      assert b[..n] <= EncodePoint(Four(b0, b[1], b2, b3));
    }
  }

  lemma ReadIsWritten(b: seq<Byte>)
    requires b != [] && DecodeFirst(b).point != 0xFFFD
    ensures var s := DecodeFirst(b); !IsSurrogate(s.point) && EncodePoint(s.point) <= b
  {
    hide Two, Three, Four;
    var b0 := b[0];
    if b0 >= 0xF0 {
      FourBack(b0, b[1], b[2], b[3]);
    } else if b0 >= 0xE0 {
      ThreeBack(b0, b[1], b[2]);
    } else if b0 >= 0xC0 {
      TwoBack(b0, b[1]);
    }
  }

  /** The decoder reads the character that the bytes begin with, if they begin with one. If not,
      U+FFFD stands for the longest part with which a character could have begun, or for one byte. */
  lemma DecodesFirst(b: seq<Byte>)
    requires b != []
    ensures var s := DecodeFirst(b);
      if exists c: CodePoint :: !IsSurrogate(c) && EncodePoint(c) <= b
      then !IsSurrogate(s.point) && EncodePoint(s.point) <= b && s.taken == |EncodePoint(s.point)|
      else
        && s.point == 0xFFFD && 1 <= s.taken <= |b| && (s.taken > 1 ==> Begins(b[..s.taken]))
        && forall n :: s.taken < n <= |b| ==> !Begins(b[..n])
  {
    hide DecodeFirst, EncodePoint;
    if c: CodePoint :| !IsSurrogate(c) && EncodePoint(c) <= b {
      DecodeFirstOf(c, b[|EncodePoint(c)|..]);
      assert EncodePoint(c) + b[|EncodePoint(c)|..] == b;
    } else {
      if DecodeFirst(b).point != 0xFFFD { ReadIsWritten(b); }
      if DecodeFirst(b).taken > 1 { TakenBegins(b); }
      forall n | DecodeFirst(b).taken < n <= |b| ensures !Begins(b[..n]) {
        if c: CodePoint :| !IsSurrogate(c) && b[..n] <= EncodePoint(c) { LongerBeginsNothing(b, n, c); }
      }
    }
  }

  /** What a leading byte has beside its mark. */
  function Bits(b: int, mark: int): int {
    b - mark
  }

  /** Surrogate pairs, in order, write the characters from U+10000 to U+10FFFF. */
  lemma PairsInOrder(high: CodeUnit, low: CodeUnit)
    requires IsHigh(high) && IsLow(low)
    ensures FirstLength([high, low]) == 2
    ensures high == 0xD800 && low == 0xDC00 ==> FirstPoint([high, low]) == 0x10000
    ensures high == 0xDBFF && low == 0xDFFF ==> FirstPoint([high, low]) == 0x10FFFF
    ensures low < 0xDFFF ==> FirstPoint([high, low + 1]) == FirstPoint([high, low]) + 1
    ensures high < 0xDBFF ==> FirstPoint([high + 1, 0xDC00]) == FirstPoint([high, 0xDFFF]) + 1
  {
  }

  // ---------- JSON strings ----------

  function HexValue(u: CodeUnit): (r: Option<int>)
    ensures r.Some? ==> 0 <= r.value < 16
  {
    if 48 <= u <= 57 then Some(u - 48) else if 97 <= u <= 102 then Some(u - 87)
    else if 65 <= u <= 70 then Some(u - 55) else None
  }

  /** What a short escape stands for, by the letter after the backslash. */
  function Escaped(u: CodeUnit): Option<CodeUnit> {
    if u == '"' as int || u == '\\' as int || u == '/' as int then Some(u)
    else if u == 'b' as int then Some(0x08) else if u == 'f' as int then Some(0x0C)
    else if u == 'n' as int then Some(0x0A) else if u == 'r' as int then Some(0x0D)
    else if u == 't' as int then Some(0x09) else None
  }

  /** Four hexadecimal digits. */
  function HexCode(a: CodeUnit, b: CodeUnit, c: CodeUnit, d: CodeUnit): (r: Option<CodeUnit>) {
    var x := TwoHex(a, b);
    var y := TwoHex(c, d);
    if x.None? || y.None? then None else Some(x.value * 0x100 + y.value)
  }

  function TwoHex(a: CodeUnit, b: CodeUnit): (r: Option<Byte>) {
    if HexValue(a).None? || HexValue(b).None? then None else Some(HexValue(a).value * 16 + HexValue(b).value)
  }

  datatype Unit = Unit(value: CodeUnit, rest: Text)

  /** The first code unit that a JSON string body stands for: no control character, quote or backslash
      stands for itself. */
  function ReadUnit(t: Text): Option<Unit>
    requires t != []
  {
    if t[0] < 0x20 || t[0] == '"' as int then None
    else if t[0] != '\\' as int then Some(Unit(t[0], t[1..]))
    else if |t| == 1 then None
    else if t[1] != 'u' as int then
      if Escaped(t[1]).Some? then Some(Unit(Escaped(t[1]).value, t[2..])) else None
    else if |t| < 6 then None
    else
      var code := HexCode(t[2], t[3], t[4], t[5]);
      if code.None? then None else Some(Unit(code.value, t[6..]))
  }

  /** What a JSON string body stands for. */
  function ReadBody(t: Text): Option<Text>
    decreases |t|
  {
    if t == [] then Some([])
    else
      var first := ReadUnit(t);
      if first.None? then None
      else
        var rest := ReadBody(first.value.rest);
        if rest.None? then None else Some([first.value.value] + rest.value)
  }

  lemma HexReads(v: int)
    requires 0 <= v < 16
    ensures HexValue(FrameFitting.HexDigit(v)) == Some(v)
  {
  }

  lemma UnicodeEscapeReads(c: CodePoint, rest: Text)
    requires c < 0x1_0000
    ensures ReadUnit(FrameFitting.UnicodeEscape(c) + rest) == Some(Unit(c, rest))
  {
    hide HexValue, FrameFitting.HexDigit;
    var t := FrameFitting.UnicodeEscape(c) + rest;
    HexReads(c / 0x1000);
    HexReads(c / 0x100 % 16);
    HexReads(c / 16 % 16);
    HexReads(c % 16);
    assert t[6..] == rest;
    assert c / 0x100 == c / 16 / 16 && c / 0x1000 == c / 0x100 / 16;
  }

  lemma CharacterReads(c: CodePoint, rest: Text, tail: Text)
    requires ReadBody(rest) == Some(tail) && (c < 0x1_0000 || !IsSurrogate(c))
    ensures ReadBody(FrameFitting.JsonCharacter(c) + rest) == Some(FromPoint(c) + tail)
  {
    var t := FrameFitting.JsonCharacter(c) + rest;
    if FrameFitting.ShortEscape(c).Some? {
      assert t[2..] == rest;
    } else if c < 0x20 || IsSurrogate(c) {
      UnicodeEscapeReads(c, rest);
    } else if c < 0x1_0000 {
      assert t[1..] == rest;
    } else {
      PairReads(c, rest, tail);
    }
  }

  lemma PairReads(c: CodePoint, rest: Text, tail: Text)
    requires ReadBody(rest) == Some(tail) && c >= 0x1_0000
    ensures ReadBody(FromPoint(c) + rest) == Some(FromPoint(c) + tail)
  {
    var t := FromPoint(c) + rest;
    assert t[1..] == [t[1]] + rest && t[1..][1..] == rest;
    assert ReadBody(t[1..]) == Some([t[1]] + tail);
    assert FromPoint(c) + tail == [t[0]] + ([t[1]] + tail);
  }

  lemma BodyOn(t: Text)
    requires t != []
    ensures FrameFitting.JsonBody(t)
      == FrameFitting.JsonCharacter(FirstPoint(t)) + FrameFitting.JsonBody(t[FirstLength(t)..])
  {
    hide FrameFitting.JsonCharacter, FirstPoint, FirstLength;
  }

  lemma TextOn(t: Text)
    requires t != []
    ensures FromPoint(FirstPoint(t)) + t[FirstLength(t)..] == t
  {
    hide FirstPoint, FirstLength, FromPoint;
    PointRoundTrip(t);
  }

  lemma PairIsNoSurrogate(t: Text)
    requires t != []
    ensures FirstPoint(t) < 0x1_0000 || !IsSurrogate(FirstPoint(t))
  {
  }

  /** An escape that has no short form is `\\u` and four lower-case hexadecimal digits. */
  lemma EscapeDigits(c: CodePoint)
    requires c < 0x1_0000
    ensures var t := FrameFitting.UnicodeEscape(c);
      && |t| == 6 && Spells(t[..2], "\\u")
      && forall i :: 0 <= i < 4 ==>
           "0123456789abcdef"[c / [0x1000, 0x100, 0x10, 1][i] % 16] as int == t[i + 2]
  {
    var t := FrameFitting.UnicodeEscape(c);
    forall i | 0 <= i < 4 ensures "0123456789abcdef"[c / [0x1000, 0x100, 0x10, 1][i] % 16] as int == t[i + 2] {
      HexLetter(c / [0x1000, 0x100, 0x10, 1][i] % 16);
    }
  }

  lemma HexLetter(v: int)
    requires 0 <= v < 16
    ensures FrameFitting.HexDigit(v) == "0123456789abcdef"[v] as int
  {
  }

  /** What is counted is a JSON string for the text: read back it gives the same code units, lone surrogates
      included. */
  lemma {:induction false} JsonRoundTrip(t: Text)
    ensures ReadBody(FrameFitting.JsonBody(t)) == Some(t)
    decreases |t|
  {
    hide FrameFitting.JsonCharacter, FrameFitting.JsonBody, ReadBody, FirstPoint, FirstLength, FromPoint;
    if t != [] {
      var rest := t[FirstLength(t)..];
      JsonRoundTrip(rest);
      BodyOn(t);
      TextOn(t);
      PairIsNoSurrogate(t);
      CharacterReads(FirstPoint(t), FrameFitting.JsonBody(rest), rest);
    } else {
      EmptyBody();
    }
  }

  lemma EmptyBody()
    ensures ReadBody(FrameFitting.JsonBody([])) == Some([])
  {
  }

  /** The count of a character is 2 for what has a short escape, 6 for other control characters and lone
      surrogates, and otherwise the length of its UTF-8 form. */
  lemma CountTable(c: CodePoint)
    ensures FrameFitting.CharacterBytes(c) ==
      if c == '"' as int || c == '\\' as int || c == 0x08 || c == 0x09 || c == 0x0A || c == 0x0C || c == 0x0D then 2
      else if c <= 0x1F || 0xD800 <= c <= 0xDFFF then 6
      else if c <= 0x7F then 1 else if c <= 0x7FF then 2 else if c <= 0xFFFF then 3 else 4
  {
  }

  // ---------- ids and labels ----------

  function LowFirst(low: int, high: int): int {
    high * 0x100 + low
  }

  /** The UTF-16 bytes of a text, low byte first. */
  lemma {:induction false} Utf16LeUnits(t: Text, i: nat)
    requires i < |t|
    ensures var b := OperatorMessageIds.Utf16Le(t);
      |b| == 2 * |t| && t[i] == LowFirst(b[2 * i], b[2 * i + 1])
  {
    if i > 0 {
      Utf16LeUnits(t[1..], i - 1);
      assert OperatorMessageIds.Utf16Le(t)[2..] == OperatorMessageIds.Utf16Le(t[1..]);
    }
  }

  predicate LetterOrDigit(c: CodeUnit) {
    'A' as int <= c <= 'Z' as int || 'a' as int <= c <= 'z' as int || '0' as int <= c <= '9' as int
  }

  /** At most 256 letters, digits and `._:@/-`, a letter or digit first. */
  predicate Plain(t: Text) {
    && 1 <= |t| <= 256 && LetterOrDigit(t[0])
    && forall i :: 0 <= i < |t| ==>
         LetterOrDigit(t[i]) || t[i] in {'.' as int, '_' as int, ':' as int, '@' as int, '/' as int, '-' as int}
  }

  lemma PlainIs(t: Text)
    ensures OperatorMessageIds.PlainIdentifier(t) <==> Plain(t)
  {
  }

  /** An id is shown if it has a code unit, no NUL and at most 522 UTF-8 bytes: as it is when it is
      plain, and otherwise as `message~u16:` and the base64url form of its UTF-16 bytes. */
  lemma ShownForm(value: Text)
    ensures var shown := OperatorMessageIds.OperatorMessageId(value);
      && (shown.Some? <==> value != [] && 0 !in value && |Utf8(value)| <= 522)
      && (shown.Some? ==>
          var t := shown.value;
          if Plain(value) then t == value
          else
            && |t| >= 12 && Spells(t[..12], "message~u16:")
            && Base64Url.AllInAlphabet(t[12..]) && Base64Url.Decode(t[12..]) == OperatorMessageIds.Utf16Le(value))
  {
    hide OperatorMessageIds.PlainIdentifier, OperatorMessageIds.MessageIdentifier, OperatorMessageIds.EncodedId, Plain,
      Base64Url.Decode, Utf8;
    OperatorMessageIds.ValidIdsAreShown(value);
    EncodedForm(value);
    PlainIs(value);
  }

  /** The receiver takes a plain identifier, and of at most 1 408 letters the prefix and something
      from the base64url alphabet. */
  lemma ReceivedForm(t: Text)
    ensures OperatorMessageIds.MessageIdentifier(t) <==>
      || Plain(t)
      || (12 < |t| <= 1_408 && Spells(t[..12], "message~u16:") && Base64Url.AllInAlphabet(t[12..]))
  {
    hide OperatorMessageIds.PlainIdentifier, Plain, Base64Url.AllInAlphabet;
    PlainIs(t);
    PlainIsShort(t);
    PrefixSpelt(t);
  }

  lemma PlainIsShort(t: Text)
    ensures Plain(t) ==> 0 < |t| <= 256
  {
  }

  lemma PrefixSpelt(t: Text)
    ensures OperatorMessageIds.PREFIX <= t <==> |t| >= 12 && Spells(t[..12], "message~u16:")
  {
    if |t| >= 12 && Spells(t[..12], "message~u16:") {
      assert t[..12] == OperatorMessageIds.PREFIX;
    }
    if OperatorMessageIds.PREFIX <= t {
      assert t[..12] == OperatorMessageIds.PREFIX;
    }
  }

  lemma EncodedForm(value: Text)
    ensures var t := OperatorMessageIds.EncodedId(value);
      && |t| >= 12 && Spells(t[..12], "message~u16:")
      && Base64Url.AllInAlphabet(t[12..]) && Base64Url.Decode(t[12..]) == OperatorMessageIds.Utf16Le(value)
  {
    hide Base64Url.Encode, Base64Url.Decode, OperatorMessageIds.Utf16Le;
    var b := OperatorMessageIds.Utf16Le(value);
    var t := OperatorMessageIds.EncodedId(value);
    assert t[..12] == OperatorMessageIds.PREFIX && t[12..] == Base64Url.Encode(b);
    Base64Url.RoundTrip(b);
  }

  /** A reply button carries `reply:` and the base64url form of the label's UTF-8 bytes. */
  lemma ReplyForm(name: Text)
    ensures var t := TelegramReplyCodec.ReplyData(name);
      && |t| >= 6 && Spells(t[..6], "reply:")
      && Base64Url.AllInAlphabet(t[6..]) && Base64Url.Decode(t[6..]) == Utf8(name)
  {
    hide Base64Url.Encode, Base64Url.Decode, Utf8;
    var t := TelegramReplyCodec.ReplyData(name);
    assert t[..6] == TelegramReplyCodec.PREFIX && t[6..] == Base64Url.Encode(Utf8(name));
    Base64Url.RoundTrip(Utf8(name));
  }

  /** A label is acceptable exactly when it has 1 to 64 code units and at most 43 UTF-8 bytes. */
  lemma LabelFits(name: Text)
    ensures TelegramReplyCodec.AcceptableLabel(name) <==> 1 <= |name| <= 64 && |Utf8(name)| <= 43
  {
    hide Base64Url.Encode, Utf8;
    var data := TelegramReplyCodec.ReplyData(name);
    assert |data| == 6 + (|Utf8(name)| * 4 + 2) / 3;
    forall i | 0 <= i < |data| ensures data[i] < 0x80 {
      assert i >= 6 ==> data[i] == Base64Url.Encode(Utf8(name))[i - 6];
    }
    AsciiSize(data);
  }
}
