/** Fitting text into a frame: the size of a JSON string body, counted character by
    character, and the longest prefix of whole characters within two limits. */
module FrameFitting {
  import opened Basics
  import opened Unicode

  // ---------- the body of a JSON string ----------

  function HexDigit(v: int): (c: CodeUnit)
    ensures c < 0x80
  {
    if 0 <= v < 10 then 48 + v else if 10 <= v < 16 then 87 + v else 48
  }

  /** `\u` and four hexadecimal digits. */
  function UnicodeEscape(c: CodePoint): Text {
    [92, 117, HexDigit(c / 0x1000), HexDigit(c / 0x100 % 16), HexDigit(c / 16 % 16), HexDigit(c % 16)]
  }

  /** The escape of a character that has a short one: quote, backslash, `\b \t \n \f \r`. */
  function ShortEscape(c: CodePoint): Option<CodeUnit> {
    if c == 34 || c == 92 then Some(c)
    else if c == 8 then Some(98) else if c == 9 then Some(116) else if c == 10 then Some(110)
    else if c == 12 then Some(102) else if c == 13 then Some(114) else None
  }

  /** A character as it stands between the quotes (section 7 of RFC 8259): control
      characters and lone surrogates are escaped. */
  function JsonCharacter(c: CodePoint): Text {
    if ShortEscape(c).Some? then [92, ShortEscape(c).value]
    else if c < 0x20 || IsSurrogate(c) then UnicodeEscape(c)
    else FromPoint(c)
  }

  function JsonBody(t: Text): Text
    decreases |t|
  {
    if t == [] then [] else JsonCharacter(FirstPoint(t)) + JsonBody(t[FirstLength(t)..])
  }

  /** `jsonStringContentBytes`: the UTF-8 size of what stands between the quotes. */
  function ContentBytes(t: Text): nat {
    |Utf8(JsonBody(t))|
  }

  // ---------- the count ----------

  /** `jsonStringCharacterBytes`. */
  function CharacterBytes(c: CodePoint): (n: nat)
    ensures n >= 1
  {
    if c >= 0x1_0000 then 4
    else if ShortEscape(c).Some? then 2
    else if c < 0x20 || IsSurrogate(c) then 6
    else |EncodePoint(Scalar(c))|
  }

  function CountedBytes(t: Text): nat
    decreases |t|
  {
    if t == [] then 0 else CharacterBytes(FirstPoint(t)) + CountedBytes(t[FirstLength(t)..])
  }

  lemma CharacterSize(c: CodePoint)
    requires c < 0x1_0000 || !IsSurrogate(c)
    ensures |Utf8(JsonCharacter(c))| == CharacterBytes(c) && !IsHigh(JsonCharacter(c)[|JsonCharacter(c)| - 1])
  {
    var j := JsonCharacter(c);
    if ShortEscape(c).Some? || c < 0x20 || IsSurrogate(c) {
      AsciiSize(j);
    }
  }

  /** The counts of the characters add up to the exact size of the JSON string body. */
  lemma {:induction false} CountIsExact(t: Text)
    ensures CountedBytes(t) == ContentBytes(t)
    decreases |t|
  {
    if t != [] {
      hide JsonCharacter, CharacterBytes, EncodePoint;
      var c, rest := FirstPoint(t), t[FirstLength(t)..];
      CountIsExact(rest);
      CharacterSize(c);
      Utf8Concat(JsonCharacter(c), JsonBody(rest));
    }
  }

  // ---------- prefixes of whole characters ----------

  /** No character of the text straddles position `n`. */
  predicate IsBoundary(t: Text, n: nat)
    decreases |t|
  {
    n == 0 || (t != [] && FirstLength(t) <= n && IsBoundary(t[FirstLength(t)..], n - FirstLength(t)))
  }

  predicate Fits(t: Text, n: nat, maxCharacters: nat, budget: int)
    requires n <= |t|
  {
    n <= maxCharacters && ContentBytes(t[..n]) <= budget
  }

  /** Counting a longer prefix continues the count of a shorter one. */
  lemma {:induction false} PrefixCount(t: Text, n: nat, m: nat)
    requires IsBoundary(t, n) && IsBoundary(t, m) && n <= m <= |t|
    ensures CountedBytes(t[..n]) <= CountedBytes(t[..m])
    decreases |t|
  {
    if n > 0 {
      var f := FirstLength(t);
      PrefixCount(t[f..], n - f, m - f);
      HeadCount(t, n);
      HeadCount(t, m);
    } else {
      assert t[..n] == [];
    }
  }

  lemma HeadCount(t: Text, n: nat)
    requires IsBoundary(t, n) && 0 < n <= |t|
    ensures CountedBytes(t[..n]) == CharacterBytes(FirstPoint(t)) +
      CountedBytes(t[FirstLength(t)..][..n - FirstLength(t)])
  {
    var f := FirstLength(t);
    assert FirstLength(t[..n]) == f && FirstPoint(t[..n]) == FirstPoint(t);
    assert t[..n][f..] == t[f..][..n - f];
  }

  lemma {:induction false} NextBoundary(t: Text, n: nat)
    requires IsBoundary(t, n) && n < |t|
    ensures var f := FirstLength(t[n..]); IsBoundary(t, n + f) && forall m :: n < m < n + f ==> !IsBoundary(t, m)
    decreases |t|
  {
    if n == 0 {
      assert t[0..] == t;
    } else {
      var f := FirstLength(t);
      NextBoundary(t[f..], n - f);
      assert t[f..][n - f..] == t[n..];
      assert n + FirstLength(t[n..]) - f == n - f + FirstLength(t[n..]);
    }
  }

  /** What the next character adds to the count. */
  lemma {:induction false} NextCount(t: Text, n: nat)
    requires IsBoundary(t, n) && n < |t|
    ensures CountedBytes(t[..n + FirstLength(t[n..])]) == CountedBytes(t[..n]) + CharacterBytes(FirstPoint(t[n..]))
    decreases |t|
  {
    hide CharacterBytes, FirstPoint, CountedBytes;
    NextBoundary(t, n);
    if n == 0 {
      assert t[0..] == t && t[..0] == [] && t[FirstLength(t)..][..0] == [];
      HeadCount(t, FirstLength(t));
      NothingCounted();
    } else {
      var f, g := FirstLength(t), FirstLength(t[n..]);
      NextCount(t[f..], n - f);
      assert t[f..][n - f..] == t[n..] && n - f + g == n + g - f;
      HeadCount(t, n);
      HeadCount(t, n + g);
    }
  }

  lemma NothingCounted()
    ensures CountedBytes([]) == 0
  {
  }

  /** `fitTextToFrame`, for a frame that costs a constant beside its text. The budget is
      negative when the empty frame alone is over the limit; then nothing is kept. */
  method FitText(text: Text, maxCharacters: nat, budget: int) returns (fitted: Text, truncated: bool)
    ensures |fitted| <= |text| && fitted == text[..|fitted|] && IsBoundary(text, |fitted|)
    ensures if budget >= 0 then Fits(text, |fitted|, maxCharacters, budget) else fitted == []
    ensures forall m :: |fitted| < m <= |text| && IsBoundary(text, m) ==> !Fits(text, m, maxCharacters, budget)
    ensures truncated <==> if budget >= 0 then !Fits(text, |text|, maxCharacters, budget) else text != []
  {
    hide ContentBytes, CountedBytes, IsBoundary;
    WholeIsBoundary(text);
    assert text[..|text|] == text;
    if |text| <= maxCharacters && ContentBytes(text) <= budget {
      return text, false;
    }
    var consumed, bytes := 0, 0;
    NothingFits(text);
    while consumed < |text|
      invariant consumed <= |text| && IsBoundary(text, consumed) && bytes == CountedBytes(text[..consumed])
      invariant consumed <= maxCharacters && (consumed > 0 || budget >= 0 ==> bytes <= budget) && bytes >= 0
      decreases |text| - consumed
    {
      var rest := text[consumed..];
      NextBoundary(text, consumed);
      NextCount(text, consumed);
      if consumed + FirstLength(rest) > maxCharacters {
        TooLong(text, consumed, maxCharacters, budget);
        break;
      }
      if bytes + CharacterBytes(FirstPoint(rest)) > budget {
        TooLong(text, consumed, maxCharacters, budget);
        break;
      }
      bytes := bytes + CharacterBytes(FirstPoint(rest));
      consumed := consumed + FirstLength(rest);
    }
    CountIsExact(text[..consumed]);
    fitted := text[..consumed];
    truncated := |fitted| != |text|;
  }

  lemma {:induction false} WholeIsBoundary(t: Text)
    ensures IsBoundary(t, |t|)
    decreases |t|
  {
    if t != [] {
      WholeIsBoundary(t[FirstLength(t)..]);
    }
  }

  lemma NothingFits(t: Text)
    ensures IsBoundary(t, 0) && CountedBytes(t[..0]) == 0
  {
    assert t[..0] == [];
  }

  /** When the next character does not fit, no longer prefix does. */
  lemma TooLong(t: Text, n: nat, maxCharacters: nat, budget: int)
    requires IsBoundary(t, n) && n < |t|
    requires var f := FirstLength(t[n..]);
      n + f > maxCharacters || CountedBytes(t[..n]) + CharacterBytes(FirstPoint(t[n..])) > budget
    ensures forall m :: n < m <= |t| && IsBoundary(t, m) ==> !Fits(t, m, maxCharacters, budget)
  {
    hide ContentBytes, CountedBytes, IsBoundary;
    var f := FirstLength(t[n..]);
    NextBoundary(t, n);
    NextCount(t, n);
    forall m | n < m <= |t| && IsBoundary(t, m) ensures !Fits(t, m, maxCharacters, budget) {
      PrefixCount(t, n + f, m);
      CountIsExact(t[..m]);
    }
  }
}
