/** Cutting text to a UTF-8 byte budget. A text is a sequence of code points, as a Python string is. */
module Truncate {

  type CodePoint = c: nat | c <= 0x10FFFF
  type Byte = b: nat | b < 256
  type Text = seq<CodePoint>

  const REPLACEMENT: CodePoint := 0xFFFD

  predicate IsSurrogate(c: CodePoint) { 0xD800 <= c <= 0xDFFF }

  // ----- section 3 of RFC 3629, with Python's errors="replace" on both sides -----

  /** A code point's bytes; a lone surrogate has none and becomes a question mark. */
  function Encode(c: CodePoint): (bs: seq<Byte>)
    ensures 1 <= |bs| <= 4
  {
    if IsSurrogate(c) then [0x3F]
    else if c < 0x80 then [c]
    else
      var c1 := c / 64;
      var c2 := c1 / 64;
      if c < 0x800 then [0xC0 + c1, 0x80 + c % 64]
      else if c < 0x10000 then [0xE0 + c2, 0x80 + c1 % 64, 0x80 + c % 64]
      else [0xF0 + c2 / 64, 0x80 + c2 % 64, 0x80 + c1 % 64, 0x80 + c % 64]
  }

  function EncodeAll(text: Text): seq<Byte> {
    if text == [] then [] else Encode(text[0]) + EncodeAll(text[1..])
  }

  /**
   * The bytes that may follow the lead byte `b`, from which the second one is drawn; no over-long
   * forms, no surrogates.
   */
  predicate SecondByte(b: Byte, b1: Byte) {
    if b == 0xE0 then 0xA0 <= b1 <= 0xBF
    else if b == 0xED then 0x80 <= b1 <= 0x9F
    else if b == 0xF0 then 0x90 <= b1 <= 0xBF
    else if b == 0xF4 then 0x80 <= b1 <= 0x8F
    else Continues(b1)
  }

  predicate Continues(b: Byte) { 0x80 <= b <= 0xBF }

  /** How many bytes the lead byte announces; 0 for a byte that cannot lead. */
  function Announced(b: Byte): nat {
    if b < 0x80 then 1
    else if 0xC2 <= b <= 0xDF then 2
    else if 0xE0 <= b <= 0xEF then 3
    else if 0xF0 <= b <= 0xF4 then 4
    else 0
  }

  /** Length of the longest prefix of `bs` that some encoding starts with, at most one encoding long. */
  function Subpart(bs: seq<Byte>): (n: nat)
    requires bs != []
    ensures 1 <= n <= |bs| && (Announced(bs[0]) > 0 ==> n <= Announced(bs[0]))
  {
    var k := Announced(bs[0]);
    if k <= 1 || |bs| < 2 || !SecondByte(bs[0], bs[1]) then 1
    else if k == 2 || |bs| < 3 || !Continues(bs[2]) then 2
    else if k == 3 || |bs| < 4 || !Continues(bs[3]) then 3
    else 4
  }

  /** The first code point decoded from `bs`: U+FFFD stands for a subpart that is not a whole encoding. */
  function First(bs: seq<Byte>): CodePoint
    requires bs != []
  {
    var k := Announced(bs[0]);
    if k == 0 || Subpart(bs) < k then REPLACEMENT
    else if k == 1 then bs[0]
    else if k == 2 then Shift(bs[0] - 0xC0, bs[1])
    else if k == 3 then Shift(Shift(bs[0] - 0xE0, bs[1]), bs[2])
    else Shift(Shift(Shift(bs[0] - 0xF0, bs[1]), bs[2]), bs[3])
  }

  /** Append the six payload bits of a continuation byte. */
  function Shift(high: nat, b: Byte): nat { high * 64 + b % 64 }

  function Decode(bs: seq<Byte>): Text {
    if bs == [] then [] else [First(bs)] + Decode(bs[Subpart(bs)..])
  }

  /** The text with lone surrogates replaced by question marks. */
  function Encodable(text: Text): (t: Text)
    ensures |t| == |text|
    ensures (forall c :: c in text ==> !IsSurrogate(c)) ==> t == text
  {
    if text == [] then [] else [if IsSurrogate(text[0]) then 0x3F else text[0]] + Encodable(text[1..])
  }

  lemma DecodesBack(c: CodePoint, rest: seq<Byte>)
    ensures var bs := Encode(c) + rest;
      Subpart(bs) == |Encode(c)| && First(bs) == (if IsSurrogate(c) then 0x3F else c)
  {
    var n := |Encode(c)|;
    if n == 2 { DecodesTwo(c, rest); }
    if n == 3 { DecodesThree(c, rest); }
    if n == 4 { DecodesFour(c, rest); }
  }

  lemma DecodesTwo(c: CodePoint, rest: seq<Byte>)
    requires 0x80 <= c < 0x800
    ensures var bs := Encode(c) + rest; Subpart(bs) == 2 && First(bs) == c
  {
    var e := Encode(c);
    var bs := e + rest;
    assert bs[0] == e[0] && bs[1] == e[1];
    assert Announced(e[0]) == 2;
  }

  lemma DecodesThree(c: CodePoint, rest: seq<Byte>)
    requires 0x800 <= c < 0x10000 && !IsSurrogate(c)
    ensures var bs := Encode(c) + rest; Subpart(bs) == 3 && First(bs) == c
  {
    var e := Encode(c);
    var bs := e + rest;
    assert bs[0] == e[0] && bs[1] == e[1] && bs[2] == e[2];
    assert Announced(e[0]) == 3;
    assert SecondByte(e[0], e[1]);
    assert Shift(e[0] - 0xE0, e[1]) == c / 64;
  }

  lemma DecodesFour(c: CodePoint, rest: seq<Byte>)
    requires 0x10000 <= c
    ensures var bs := Encode(c) + rest; Subpart(bs) == 4 && First(bs) == c
  {
    var e := Encode(c);
    var bs := e + rest;
    assert bs[0] == e[0] && bs[1] == e[1] && bs[2] == e[2] && bs[3] == e[3];
    assert Announced(e[0]) == 4;
    assert SecondByte(e[0], e[1]);
    assert Shift(e[0] - 0xF0, e[1]) == c / 64 / 64;
    assert Shift(Shift(e[0] - 0xF0, e[1]), e[2]) == c / 64;
  }

  /** A strict prefix of one encoding decodes to a single U+FFFD. */
  lemma CutDecodes(c: CodePoint, n: nat)
    requires 0 < n < |Encode(c)|
    ensures Decode(Encode(c)[..n]) == [REPLACEMENT]
  {
    var bs := Encode(c)[..n];
    assert bs[0] == Encode(c)[0];
    assert n > 1 ==> bs[1] == Encode(c)[1];
    assert n > 2 ==> bs[2] == Encode(c)[2];
    assert Subpart(bs) == n;
    assert bs[n..] == [];
  }

  lemma {:induction false} RoundTrip(text: Text)
    ensures Decode(EncodeAll(text)) == Encodable(text)
  {
    if text != [] {
      var c, rest := text[0], EncodeAll(text[1..]);
      DecodesBack(c, rest);
      assert (Encode(c) + rest)[|Encode(c)|..] == rest;
      RoundTrip(text[1..]);
    }
  }

  // ----- the cut -----

  /** Number of leading code points whose encodings fit in `budget` bytes together. */
  function Fitting(text: Text, budget: nat): (m: nat)
    ensures m <= |text|
  {
    if text == [] || |Encode(text[0])| > budget then 0 else 1 + Fitting(text[1..], budget - |Encode(text[0])|)
  }

  /** It is the longest such prefix. */
  lemma {:induction false} FittingLongest(text: Text, budget: nat)
    ensures var m := Fitting(text, budget);
      && |EncodeAll(text[..m])| <= budget
      && forall k :: m < k <= |text| ==> |EncodeAll(text[..k])| > budget
  {
    if text != [] {
      assert forall k :: 0 < k <= |text| ==> text[..k][1..] == text[1..][..k - 1];
      if |Encode(text[0])| <= budget {
        FittingLongest(text[1..], budget - |Encode(text[0])|);
        assert forall k :: 0 < k <= |text| ==>
          |EncodeAll(text[..k])| == |Encode(text[0])| + |EncodeAll(text[1..][..k - 1])|;
      }
    }
  }

  /** What decoding the first `budget` bytes gives. */
  function Head(text: Text, budget: nat): Text {
    var kept := text[..Fitting(text, budget)];
    Encodable(kept) + if |EncodeAll(kept)| == budget then [] else [REPLACEMENT]
  }

  lemma HeadStep(text: Text, budget: nat)
    requires text != [] && |Encode(text[0])| <= budget
    ensures Head(text, budget) == Encodable([text[0]]) + Head(text[1..], budget - |Encode(text[0])|)
  {
    var m := Fitting(text, budget);
    var kept, kept' := text[..m], text[1..][..m - 1];
    assert kept == [text[0]] + kept';
    assert kept[1..] == kept' && [text[0]][1..] == [];
    assert Encodable(kept) == Encodable([text[0]]) + Encodable(kept');
  }

  lemma CutInside(c: CodePoint, rest: Text, budget: nat)
    requires budget < |Encode(c)|
    ensures Decode(EncodeAll([c] + rest)[..budget]) == Head([c] + rest, budget)
  {
    var text := [c] + rest;
    assert Fitting(text, budget) == 0 && text[..0] == [];
    assert EncodeAll(text) == Encode(c) + EncodeAll(text[1..]);
    assert EncodeAll(text)[..budget] == Encode(c)[..budget];
    if budget > 0 { CutDecodes(c, budget); }
  }

  lemma DecodeStep(c: CodePoint, rest: seq<Byte>)
    ensures Decode(Encode(c) + rest) == Encodable([c]) + Decode(rest)
  {
    DecodesBack(c, rest);
    assert (Encode(c) + rest)[|Encode(c)|..] == rest;
    assert [c][1..] == [];
  }

  lemma {:induction false} CutDecodesToHead(text: Text, budget: nat)
    requires budget <= |EncodeAll(text)|
    ensures Decode(EncodeAll(text)[..budget]) == Head(text, budget)
  {
    if text != [] {
      var c, tail := text[0], text[1..];
      if |Encode(c)| > budget {
        assert text == [c] + tail;
        CutInside(c, tail, budget);
      } else {
        var less := budget - |Encode(c)|;
        CutDecodesToHead(tail, less);
        assert EncodeAll(text)[..budget] == Encode(c) + EncodeAll(tail)[..less];
        DecodeStep(c, EncodeAll(tail)[..less]);
        HeadStep(text, budget);
      }
    }
  }

  const MARKER: string := "\n... [truncated; see run_dir for full output]"

  function CodePoints(s: string): Text {
    seq(|s|, i requires 0 <= i < |s| => s[i] as int)
  }

  function TruncateWithMarker(text: Text, maxBytes: int): Text {
    if maxBytes <= 0 then []
    else
      var encoded := EncodeAll(text);
      if |encoded| <= maxBytes then text else Decode(encoded[..maxBytes]) + CodePoints(MARKER)
  }

  lemma {:induction false} EncodeAppend(a: Text, b: Text)
    ensures EncodeAll(a + b) == EncodeAll(a) + EncodeAll(b)
  {
    if a == [] {
      assert a + b == b;
    } else {
      assert (a + b)[1..] == a[1..] + b;
      EncodeAppend(a[1..], b);
    }
  }

  lemma {:induction false} EncodableSameBytes(text: Text)
    ensures EncodeAll(Encodable(text)) == EncodeAll(text)
  {
    if text != [] { EncodableSameBytes(text[1..]); }
  }

  lemma HeadBytes(text: Text, budget: nat)
    requires budget < |EncodeAll(text)|
    ensures |EncodeAll(Head(text, budget))| <= budget + 2
  {
    var kept := text[..Fitting(text, budget)];
    assert |EncodeAll(kept)| <= budget by { FittingLongest(text, budget); }
    EncodableSameBytes(kept);
    if |EncodeAll(kept)| < budget {
      EncodeAppend(Encodable(kept), [REPLACEMENT]);
      assert [REPLACEMENT][1..] == [];
      assert EncodeAll([REPLACEMENT]) == Encode(REPLACEMENT) + EncodeAll([]);
      assert |Encode(REPLACEMENT)| == 3;
    } else {
      assert Head(text, budget) == Encodable(kept);
    }
  }

  /**
   * Within budget nothing changes. Over budget, the longest fitting prefix is kept, one U+FFFD
   * stands for a code point cut in two, and the head takes at most two bytes more than allowed.
   */
  lemma TruncateSpec(text: Text, maxBytes: nat)
    requires maxBytes > 0
    ensures |EncodeAll(text)| <= maxBytes ==> TruncateWithMarker(text, maxBytes) == text
    ensures |EncodeAll(text)| > maxBytes ==>
      var m := Fitting(text, maxBytes);
      && TruncateWithMarker(text, maxBytes) == Head(text, maxBytes) + CodePoints(MARKER)
      && m < |text| && |EncodeAll(text[..m])| <= maxBytes < |EncodeAll(text[..m + 1])|
      && |EncodeAll(Head(text, maxBytes))| <= maxBytes + 2
  {
    if |EncodeAll(text)| > maxBytes {
      var m := Fitting(text, maxBytes);
      var kept := text[..m];
      CutDecodesToHead(text, maxBytes);
      FittingLongest(text, maxBytes);
      assert text[..|text|] == text;
      HeadBytes(text, maxBytes);
    }
  }
}
