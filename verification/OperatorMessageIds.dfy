/** Operator message ids: a runtime's message id is shown as it is or encoded, and never two
    ids as the same. */
module OperatorMessageIds {
  import opened Basics
  import opened Unicode
  import Base64Url

  const CORE_ASSISTANT_MESSAGE_ID_MAX_BYTES := 522
  const IDENTIFIER_CHARACTERS := 256
  const MESSAGE_IDENTIFIER_CHARACTERS := 1_408

  /** `message~u16:` */
  const PREFIX: Text := [109, 101, 115, 115, 97, 103, 101, 126, 117, 49, 54, 58]

  predicate Alphanumeric(c: CodeUnit) {
    65 <= c <= 90 || 97 <= c <= 122 || 48 <= c <= 57
  }

  /** Letters, digits and `. _ : @ / -`, beginning with a letter or digit. */
  predicate PlainIdentifier(t: Text) {
    && 0 < |t| <= IDENTIFIER_CHARACTERS && Alphanumeric(t[0])
    && (forall i :: 0 <= i < |t| ==>
        Alphanumeric(t[i]) || t[i] == 46 || t[i] == 95 || t[i] == 58 || t[i] == 64 || t[i] == 47 || t[i] == 45)
  }

  predicate ValidId(value: Text) {
    value != [] && 0 !in value && |Utf8(value)| <= CORE_ASSISTANT_MESSAGE_ID_MAX_BYTES
  }

  /** The bytes of the code units, low byte first. */
  function Utf16Le(t: Text): (b: seq<Byte>)
    ensures |b| == 2 * |t|
  {
    if t == [] then [] else [t[0] % 0x100, t[0] / 0x100] + Utf16Le(t[1..])
  }

  function EncodedId(value: Text): Text {
    PREFIX + Base64Url.Encode(Utf16Le(value))
  }

  /** `operatorMessageId`; nothing is the error. */
  function OperatorMessageId(value: Text): Option<Text> {
    if !ValidId(value) then None
    else if PlainIdentifier(value) then Some(value)
    else if |EncodedId(value)| > MESSAGE_IDENTIFIER_CHARACTERS then None
    else Some(EncodedId(value))
  }

  /** What the receiving side accepts as a message identifier. */
  predicate MessageIdentifier(t: Text) {
    && 0 < |t| <= MESSAGE_IDENTIFIER_CHARACTERS
    && (PlainIdentifier(t) || (PREFIX <= t && |t| > |PREFIX| && Base64Url.AllInAlphabet(t[|PREFIX|..])))
  }

  lemma {:induction false} Utf16LeInjective(a: Text, b: Text)
    requires Utf16Le(a) == Utf16Le(b)
    ensures a == b
  {
    if a != [] && b != [] {
      assert Utf16Le(a)[0] == Utf16Le(b)[0] && Utf16Le(a)[1] == Utf16Le(b)[1];
      assert Utf16Le(a)[2..] == Utf16Le(a[1..]) && Utf16Le(b)[2..] == Utf16Le(b[1..]);
      Utf16LeInjective(a[1..], b[1..]);
      assert a == [a[0]] + a[1..] && b == [b[0]] + b[1..];
    }
  }

  lemma EncodedInjective(a: Text, b: Text)
    requires EncodedId(a) == EncodedId(b)
    ensures a == b
  {
    assert EncodedId(a)[|PREFIX|..] == Base64Url.Encode(Utf16Le(a));
    assert EncodedId(b)[|PREFIX|..] == Base64Url.Encode(Utf16Le(b));
    Base64Url.Injective(Utf16Le(a), Utf16Le(b));
    Utf16LeInjective(a, b);
  }

  /** An encoded id has a tilde, which no plain one has. */
  lemma EncodedIsNotPlain(value: Text, plain: Text)
    requires PlainIdentifier(plain)
    ensures EncodedId(value) != plain
  {
    assert EncodedId(value)[7] == 126;
  }

  /** Every valid id is shown, the length error never fires: 522 UTF-8 bytes are at most 522
      code units, 1 044 bytes and 1 404 characters; and the receiver accepts what is shown. */
  lemma ValidIdsAreShown(value: Text)
    ensures OperatorMessageId(value).Some? <==> ValidId(value)
    ensures OperatorMessageId(value).Some? ==> MessageIdentifier(OperatorMessageId(value).value)
  {
    Utf8Length(value);
    assert EncodedId(value)[|PREFIX|..] == Base64Url.Encode(Utf16Le(value));
  }

  /** Different ids are shown differently, across plain and encoded ones. */
  lemma ShownIdsDiffer(a: Text, b: Text)
    requires ValidId(a) && ValidId(b) && OperatorMessageId(a) == OperatorMessageId(b)
    ensures a == b
  {
    hide EncodedId, Utf8;
    ValidIdsAreShown(a);
    ValidIdsAreShown(b);
    if PlainIdentifier(a) && !PlainIdentifier(b) {
      EncodedIsNotPlain(b, a);
    } else if !PlainIdentifier(a) && PlainIdentifier(b) {
      EncodedIsNotPlain(a, b);
    } else if !PlainIdentifier(a) {
      EncodedInjective(a, b);
    }
  }
}
