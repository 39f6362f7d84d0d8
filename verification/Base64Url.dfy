/** Base64url without padding (section 5 of RFC 4648), as texts of ASCII code units. */
module Base64Url {
  import opened Unicode

  type Sextet = x: int | 0 <= x < 64

  // ---------- the alphabet ----------

  function Letter(v: Sextet): (c: CodeUnit)
    ensures InAlphabet(c)
  {
    if v < 26 then 65 + v else if v < 52 then 71 + v else if v < 62 then v - 4 else if v == 62 then 45 else 95
  }

  predicate InAlphabet(c: CodeUnit) {
    65 <= c <= 90 || 97 <= c <= 122 || 48 <= c <= 57 || c == 45 || c == 95
  }

  function Value(c: CodeUnit): (v: Sextet)
    requires InAlphabet(c)
    ensures Letter(v) == c
  {
    if 65 <= c <= 90 then c - 65 else if 97 <= c <= 122 then c - 71 else if 48 <= c <= 57 then c + 4
    else if c == 45 then 62 else 63
  }

  predicate AllInAlphabet(t: Text) {
    forall i :: 0 <= i < |t| ==> InAlphabet(t[i])
  }

  // ---------- groups ----------

  function Group1(a: Byte): seq<Sextet> { [a / 4, a % 4 * 16] }

  function Group2(a: Byte, b: Byte): seq<Sextet> { [a / 4, a % 4 * 16 + b / 16, b % 16 * 4] }

  function Group3(a: Byte, b: Byte, c: Byte): seq<Sextet> {
    [a / 4, a % 4 * 16 + b / 16, b % 16 * 4 + c / 64, c % 64]
  }

  function Sextets(b: seq<Byte>): (s: seq<Sextet>)
    ensures |s| == (|b| * 4 + 2) / 3
  {
    if b == [] then []
    else if |b| == 1 then Group1(b[0])
    else if |b| == 2 then Group2(b[0], b[1])
    else Group3(b[0], b[1], b[2]) + Sextets(b[3..])
  }

  function Join1(p: int, q: int): int { p * 4 + q / 16 }

  function Join2(q: int, r: int): int { q % 16 * 16 + r / 4 }

  function Join3(r: int, s: int): int { r % 4 * 64 + s }

  /** What the lenient decoder makes of the alphabet: left-over bits are dropped. */
  function Bytes(s: seq<Sextet>): seq<Byte> {
    if |s| < 2 then []
    else if |s| == 2 then [Join1(s[0], s[1])]
    else if |s| == 3 then [Join1(s[0], s[1]), Join2(s[1], s[2])]
    else [Join1(s[0], s[1]), Join2(s[1], s[2]), Join3(s[2], s[3])] + Bytes(s[4..])
  }

  /** The sextets of a group hold the bits of its bytes. */
  lemma JoinHigh(a: Byte, b: Byte)
    ensures Join1(a / 4, a % 4 * 16 + b / 16) == a && Join1(a / 4, a % 4 * 16) == a
  {
  }

  lemma LowDigit(x: int, h: int)
    requires 0 <= h < 16
    ensures (x * 16 + h) % 16 == h
  {
  }

  lemma HighDigit(l: int, d: int)
    requires 0 <= d < 4
    ensures (l * 4 + d) / 4 == l
  {
  }

  lemma JoinMiddle(a: Byte, b: Byte, c: Byte)
    ensures Join2(a % 4 * 16 + b / 16, b % 16 * 4 + c / 64) == b && Join2(a % 4 * 16 + b / 16, b % 16 * 4) == b
  {
    LowDigit(a % 4, b / 16);
    HighDigit(b % 16, c / 64);
    HighDigit(b % 16, 0);
  }

  lemma JoinLow(b: Byte, c: Byte)
    ensures Join3(b % 16 * 4 + c / 64, c % 64) == c
  {
  }

  lemma BytesOfGroup(a: Byte, b: Byte, c: Byte, rest: seq<Sextet>)
    ensures Bytes(Group3(a, b, c) + rest) == [a, b, c] + Bytes(rest)
  {
    hide Join1, Join2, Join3;
    JoinHigh(a, b);
    JoinMiddle(a, b, c);
    JoinLow(b, c);
    var s := Group3(a, b, c) + rest;
    assert s[4..] == rest && s[0] == a / 4 && s[1] == a % 4 * 16 + b / 16;
    assert s[2] == b % 16 * 4 + c / 64 && s[3] == c % 64;
  }

  lemma BytesOfTail(a: Byte, b: Byte)
    ensures Bytes(Group1(a)) == [a] && Bytes(Group2(a, b)) == [a, b]
  {
    hide Join1, Join2, Join3;
    JoinHigh(a, b);
    JoinMiddle(a, b, 0);
  }

  lemma {:induction false} BytesOfSextets(b: seq<Byte>)
    ensures Bytes(Sextets(b)) == b
  {
    hide Group1, Group2, Group3, Bytes;
    if |b| >= 3 {
      BytesOfSextets(b[3..]);
      BytesOfGroup(b[0], b[1], b[2], Sextets(b[3..]));
      assert b == [b[0], b[1], b[2]] + b[3..];
    } else if |b| == 2 {
      BytesOfTail(b[0], b[1]);
      assert b == [b[0], b[1]];
    } else if |b| == 1 {
      BytesOfTail(b[0], 0);
      assert b == [b[0]];
    } else {
      NoBytes();
    }
  }

  lemma NoBytes()
    ensures Bytes([]) == []
  {
  }

  // ---------- texts ----------

  function Spell(s: seq<Sextet>): (t: Text)
    ensures |t| == |s| && AllInAlphabet(t)
  {
    seq(|s|, i requires 0 <= i < |s| => Letter(s[i]))
  }

  function Read(t: Text): (s: seq<Sextet>)
    requires AllInAlphabet(t)
    ensures |s| == |t|
  {
    seq(|t|, i requires 0 <= i < |t| => Value(t[i]))
  }

  function Encode(b: seq<Byte>): (t: Text)
    ensures AllInAlphabet(t) && |t| == (|b| * 4 + 2) / 3
  {
    Spell(Sextets(b))
  }

  function Decode(t: Text): seq<Byte>
    requires AllInAlphabet(t)
  {
    Bytes(Read(t))
  }

  /** Decoding an encoding gives the bytes back. */
  lemma RoundTrip(b: seq<Byte>)
    ensures Decode(Encode(b)) == b
  {
    var s := Sextets(b);
    assert Read(Spell(s)) == s by {
      forall i | 0 <= i < |s| ensures Read(Spell(s))[i] == s[i] { }
    }
    BytesOfSextets(b);
  }

  lemma Injective(a: seq<Byte>, b: seq<Byte>)
    requires Encode(a) == Encode(b)
    ensures a == b
  {
    RoundTrip(a);
    RoundTrip(b);
  }

}
