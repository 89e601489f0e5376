/**
 * The cipher tool (src/components/cipher-tool.tsx): two text areas, an
 * encode button that turns the input into base64 of its UTF-8 bytes, a
 * decode button that reverses it, and a swap button.
 */
module CipherTool {
  import opened Wrappers
  import opened Utf16
  import Utf8
  import Base64

  const EncodeFailure: string := "Error encoding text. Make sure the input is valid."
  const DecodeFailure: string := "Error decoding text. Make sure the encoded message is correct and was generated here."

  /** The messages as the text areas hold them. */
  const EncodeFailureUnits: seq<CodeUnit> := Encode(EncodeFailure)
  const DecodeFailureUnits: seq<CodeUnit> := Encode(DecodeFailure)

  /** A code unit that `btoa` may emit: a base64 digit or the padding '='. */
  predicate IsBase64Unit(u: CodeUnit)
  {
    u == '=' as int || (u < 0x80 && Base64.IsDigit(u as char))
  }

  /** The UTF-16 form of an ASCII string has one code unit per character, each its code. */
  lemma {:induction false} EncodeAscii(s: string)
    requires forall k | 0 <= k < |s| :: s[k] as int < 0x80
    ensures |Encode(s)| == |s|
    ensures forall k | 0 <= k < |s| :: Encode(s)[k] == s[k] as int
  {
    if s != [] {
      EncodeAscii(s[1..]);
      assert Encode(s) == [s[0] as int] + Encode(s[1..]);
    }
  }

  /**
   * `btoa(unescape(encodeURIComponent(text)))`. `encodeURIComponent`
   * throws on an unpaired surrogate; otherwise `unescape` of its result is
   * the UTF-8 bytes of the text, one character per byte, which `btoa`
   * turns into base64.
   */
  function Encoded(text: seq<CodeUnit>): (r: Option<seq<CodeUnit>>)
    ensures r.None? <==> HasUnpaired(text)
    ensures r.Some? ==> Decode(text).Some? && |r.value| == 4 * ((|Utf8.Encode(Decode(text).value)| + 2) / 3)
    ensures r.Some? ==> forall k | 0 <= k < |r.value| :: IsBase64Unit(r.value[k])
  {
    DecodeFailsIffUnpaired(text);
    match Decode(text)
    case None => None
    case Some(s) =>
      var e := Base64.Encode(Utf8.Encode(s));
      assert forall k | 0 <= k < |e| :: e[k] as int < 0x80;
      EncodeAscii(e);
      Some(Encode(e))
  }

  /**
   * `decodeURIComponent(escape(atob(text)))`. `atob` throws unless the
   * text is forgiving base64 (any surrogate, paired or not, is outside its
   * alphabet); `escape` then percent-encodes the decoded bytes and
   * `decodeURIComponent` reads them as UTF-8, throwing when they are not
   * well-formed.
   */
  function Decoded(text: seq<CodeUnit>): (r: Option<seq<CodeUnit>>)
    ensures r.Some? ==> !HasUnpaired(r.value)
    ensures r.Some? ==>
              && Decode(text).Some? && Base64.Decode(Decode(text).value).Some?
              && Utf8.Decode(Base64.Decode(Decode(text).value).value) == Decode(r.value)
  {
    match Decode(text)
    case None => None
    case Some(s) =>
      match Base64.Decode(s)
      case None => None
      case Some(bytes) =>
        match Utf8.Decode(bytes)
        case None => None
        case Some(t) =>
          DecodeEncode(t);
          DecodeFailsIffUnpaired(Encode(t));
          Some(Encode(t))
  }

  /** Decoding what was encoded gives back every text without an unpaired surrogate. */
  lemma DecodeEncodeText(text: seq<CodeUnit>)
    requires !HasUnpaired(text)
    ensures Encoded(text).Some? && Decoded(Encoded(text).value) == Some(text)
  {
    DecodeFailsIffUnpaired(text);
    var s := Decode(text).value;
    EncodeDecode(text);
    var bytes := Utf8.Encode(s);
    var e := Base64.Encode(bytes);
    DecodeEncode(e);
    Base64.DecodeEncode(bytes);
    Utf8.DecodeEncode(s);
  }

  /** Decoding fails exactly when atob fails or the bytes it yields are not UTF-8. */
  lemma DecodedFailure(text: seq<CodeUnit>)
    ensures Decoded(text).None? <==>
      || Decode(text).None?
      || Base64.Decode(Decode(text).value).None?
      || (forall s: string {:trigger Utf8.Encode(s)} :: Utf8.Encode(s) != Base64.Decode(Decode(text).value).value)
  {
    if Decode(text).Some? && Base64.Decode(Decode(text).value).Some? {
      Utf8.DecodeSucceedsIffEncoding(Base64.Decode(Decode(text).value).value);
    }
  }

  /**
   * Encoding is not the inverse of decoding: `atob` accepts the unpadded
   * "QQ", which decodes to "A", and "A" encodes to "QQ==".
   */
  lemma DecodeIsLenient()
    ensures Decoded(Encode("QQ")) == Some(Encode("A"))
    ensures Encoded(Encode("A")) == Some(Encode("QQ=="))
  {
    DecodeEncode("QQ");
    DecodeEncode("A");
    Base64.MissingPaddingAccepted();
    assert Utf8.Encode("A") == [0x41];
    assert Utf8.Decode([0x41]) == Some("A");
  }

  /** The component's state: the two text areas. */
  class Cipher {
    var inputText: seq<CodeUnit>
    var outputText: seq<CodeUnit>

    constructor ()
      ensures inputText == [] && outputText == []
    {
      inputText := [];
      outputText := [];
    }

    /** The input area's change handler. */
    method SetInputText(text: seq<CodeUnit>)
      modifies this`inputText
      ensures inputText == text && outputText == old(outputText)
    {
      inputText := text;
    }

    /** Only the output changes: the encoding, or the fixed message when encoding throws. */
    method HandleEncode()
      modifies this`outputText
      ensures inputText == old(inputText)
      ensures outputText == Encoded(inputText).GetOr(EncodeFailureUnits)
    {
      match Encoded(inputText)
      case Some(encoded) =>
        outputText := encoded;
      case None =>
        outputText := EncodeFailureUnits;
    }

    /** Only the output changes: the decoding, or the fixed message when decoding throws. */
    method HandleDecode()
      modifies this`outputText
      ensures inputText == old(inputText)
      ensures outputText == Decoded(inputText).GetOr(DecodeFailureUnits)
    {
      match Decoded(inputText)
      case Some(decoded) =>
        outputText := decoded;
      case None =>
        outputText := DecodeFailureUnits;
    }

    /** The two text areas trade contents. */
    method HandleSwap()
      modifies this
      ensures inputText == old(outputText) && outputText == old(inputText)
    {
      inputText, outputText := outputText, inputText;
    }
  }

  /** Typing a text, encoding, swapping and decoding shows the text again. */
  method EncodeSwapDecode(c: Cipher, text: seq<CodeUnit>)
    requires !HasUnpaired(text)
    modifies c
    ensures c.outputText == text
    ensures c.inputText == Encoded(text).value
  {
    c.SetInputText(text);
    c.HandleEncode();
    c.HandleSwap();
    DecodeEncodeText(text);
    c.HandleDecode();
  }

  /** Swapping twice restores both text areas. */
  method SwapTwice(c: Cipher)
    modifies c
    ensures c.inputText == old(c.inputText) && c.outputText == old(c.outputText)
  {
    c.HandleSwap();
    c.HandleSwap();
  }
}
