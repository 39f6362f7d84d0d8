/** Telegram reply buttons: labels become callback data, and callback data is decoded back. */
module TelegramReplyCodec {
  import opened Basics
  import opened Unicode
  import Base64Url

  const CALLBACK_DATA_BYTES := 64
  const LABEL_CHARACTERS := 64
  const MAX_LABELS := 8

  /** `reply:` */
  const PREFIX: Text := [114, 101, 112, 108, 121, 58]

  function ReplyData(name: Text): Text {
    PREFIX + Base64Url.Encode(Utf8(name))
  }

  // ---------- the encoder ----------

  datatype Button = Button(name: Text, data: Text)

  /** A metadata value: a string or anything else. */
  type Label = Option<Text>

  predicate AcceptableLabel(name: Text) {
    0 < |name| <= LABEL_CHARACTERS && |Utf8(ReplyData(name))| <= CALLBACK_DATA_BYTES
  }

  /** Between one and eight different labels, each acceptable. */
  predicate AcceptableLabels(values: seq<Label>) {
    && 1 <= |values| <= 8
    && (forall i :: 0 <= i < |values| ==> values[i].Some? && AcceptableLabel(values[i].value))
    && (forall i, j :: 0 <= i < j < |values| ==> values[i] != values[j])
  }

  /** `replyOptions`, for metadata that has the field; nothing means invalid. */
  method ReplyOptions(values: seq<Label>) returns (buttons: Option<seq<Button>>)
    ensures buttons.Some? <==> AcceptableLabels(values)
    ensures buttons.Some? ==> |buttons.value| == |values|
    ensures buttons.Some? ==> forall i :: 0 <= i < |values| ==>
      buttons.value[i] == Button(values[i].value, ReplyData(values[i].value))
  {
    hide ReplyData, AcceptableLabel;
    if |values| < 1 || |values| > MAX_LABELS {
      return None;
    }
    var seen: set<Text> := {};
    var list: seq<Button> := [];
    for i := 0 to |values|
      invariant |list| == i
      invariant forall k :: 0 <= k < i ==> values[k].Some? && AcceptableLabel(values[k].value)
      invariant forall k :: 0 <= k < i ==> list[k] == Button(values[k].value, ReplyData(values[k].value))
      invariant forall j, k :: 0 <= j < k < i ==> values[j] != values[k]
      invariant forall l :: l in seen <==> exists k :: 0 <= k < i && values[k] == Some(l)
    {
      if values[i].None? {
        return None;
      }
      var name := values[i].value;
      if name in seen {
        return None;
      }
      var data := ReplyData(name);
      var fits := Fits(name, data);
      if !fits {
        return None;
      }
      seen := seen + {name};
      list := list + [Button(name, data)];
    }
    return Some(list);
  }

  method Fits(name: Text, data: Text) returns (ok: bool)
    requires data == ReplyData(name)
    ensures ok <==> AcceptableLabel(name)
  {
    ok := 0 < |name| && |name| <= LABEL_CHARACTERS && |Utf8(data)| <= CALLBACK_DATA_BYTES;
  }

  // ---------- the decoder ----------

  function DecodeReplyCallback(data: Text): Option<Text> {
    if !(PREFIX <= data) || |Utf8(data)| > CALLBACK_DATA_BYTES then None
    else
      var encoded := data[|PREFIX|..];
      if encoded == [] || !Base64Url.AllInAlphabet(encoded) then None
      else
        var decoded := Utf8Decode(Base64Url.Decode(encoded));
        if decoded == [] || |decoded| > LABEL_CHARACTERS || ReplyData(decoded) != data then None
        else Some(decoded)
  }

  lemma EncodedPart(name: Text)
    ensures PREFIX <= ReplyData(name) && ReplyData(name)[|PREFIX|..] == Base64Url.Encode(Utf8(name))
    ensures name != [] ==> Base64Url.Encode(Utf8(name)) != []
  {
    Utf8Length(name);
  }

  /** Replacing lone surrogates is what encoding does anyway. */
  lemma {:induction false} ReplacedEncodesAlike(t: Text)
    ensures Utf8(ToWellFormed(t)) == Utf8(t)
    decreases |t|
  {
    if t != [] {
      hide EncodePoint;
      var n := FirstLength(t);
      var head: Text := if IsSurrogate(FirstPoint(t)) then [REPLACEMENT] else t[..n];
      ReplacedEncodesAlike(t[n..]);
      assert ToWellFormed(t) == head + ToWellFormed(t[n..]);
      assert (head + ToWellFormed(t[n..]))[|head|..] == ToWellFormed(t[n..]);
    }
  }

  /** Every accepted label's data is decoded, to the label with its lone surrogates replaced;
      so it comes back as itself exactly when it is well formed. */
  lemma LabelRoundTrip(name: Text)
    requires AcceptableLabel(name)
    ensures DecodeReplyCallback(ReplyData(name)) == Some(ToWellFormed(name))
    ensures DecodeReplyCallback(ReplyData(name)) == Some(name) <==> WellFormed(name)
  {
    hide ReplyData, Utf8, Utf8Decode, Base64Url.Encode, Base64Url.Decode;
    EncodedPart(name);
    Base64Url.RoundTrip(Utf8(name));
    Utf8RoundTrip(name);
    ReplacedEncodesAlike(name);
    SameData(name, ToWellFormed(name));
    WellFormedIsKept(name);
  }

  lemma SameData(a: Text, b: Text)
    requires Utf8(a) == Utf8(b)
    ensures ReplyData(a) == ReplyData(b)
  {
  }

  /** The decoder accepts exactly the data the encoder can make, and gives back a label that
      encodes to that data. */
  lemma AcceptedExactlyEncoded(data: Text)
    ensures DecodeReplyCallback(data).Some? <==> exists name :: AcceptableLabel(name) && ReplyData(name) == data
    ensures DecodeReplyCallback(data).Some? ==> ReplyData(DecodeReplyCallback(data).value) == data
  {
    if DecodeReplyCallback(data).Some? {
      assert AcceptableLabel(DecodeReplyCallback(data).value);
    }
    if exists name :: AcceptableLabel(name) && ReplyData(name) == data {
      var name :| AcceptableLabel(name) && ReplyData(name) == data;
      LabelRoundTrip(name);
    }
  }

  /** Two texts share callback data exactly when they differ in nothing but lone surrogates:
      different well-formed labels never do. */
  lemma LabelsDiffer(a: Text, b: Text)
    ensures ReplyData(a) == ReplyData(b) <==> ToWellFormed(a) == ToWellFormed(b)
    ensures WellFormed(a) && WellFormed(b) && a != b ==> ReplyData(a) != ReplyData(b)
  {
    hide Utf8, Utf8Decode, ToWellFormed, Base64Url.Encode, Base64Url.Decode;
    ReplacedEncodesAlike(a);
    ReplacedEncodesAlike(b);
    WellFormedIsKept(a);
    WellFormedIsKept(b);
    if ReplyData(a) == ReplyData(b) {
      EncodedPart(a);
      EncodedPart(b);
      Base64Url.Injective(Utf8(a), Utf8(b));
      Utf8RoundTrip(a);
      Utf8RoundTrip(b);
    }
  }

  // ---------- labels that do not come back ----------

  const LONE: Text := [0xD800]
  const OTHER_LONE: Text := [0xD801]

  lemma LoneIsAcceptable(unit: CodeUnit)
    requires 0xD800 <= unit < 0xE000
    ensures AcceptableLabel([unit]) && ToWellFormed([unit]) == [0xFFFD]
  {
    var data := ReplyData([unit]);
    assert |Utf8([unit])| == 3;
    assert |data| == 10 && forall i :: 0 <= i < |data| ==> data[i] < 0x80;
    AsciiSize(data);
  }

  /** A lone surrogate is an acceptable label, and its data decodes to the replacement character. */
  lemma LoneSurrogateIsReplaced()
    ensures AcceptableLabel(LONE) && !WellFormed(LONE)
    ensures DecodeReplyCallback(ReplyData(LONE)) == Some([0xFFFD]) && [0xFFFD] != LONE
  {
    hide ReplyData, AcceptableLabel, DecodeReplyCallback;
    LoneIsAcceptable(0xD800);
    LabelRoundTrip(LONE);
  }

  /** Two lone surrogates make an acceptable list of labels whose buttons carry the same data. */
  lemma LoneSurrogatesCollide()
    ensures AcceptableLabels([Some(LONE), Some(OTHER_LONE)]) && LONE != OTHER_LONE
    ensures ReplyData(LONE) == ReplyData(OTHER_LONE)
  {
    hide ReplyData, AcceptableLabel;
    LoneIsAcceptable(0xD800);
    LoneIsAcceptable(0xD801);
    LabelsDiffer(LONE, OTHER_LONE);
  }
}
