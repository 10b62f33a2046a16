/** Escaping for Markdown prose and for inline code spans. */
module Markdown {
  import opened Prelude
  import opened Sanitize

  /** The characters of `_MD_CHARS`. */
  predicate IsMark(c: char) {
    || c == '\\' || c == '`' || c == '*' || c == '_' || c == '{' || c == '}' || c == '[' || c == ']' || c == '('
    || c == ')' || c == '#' || c == '+' || c == '-' || c == '.' || c == '!' || c == '|' || c == '<' || c == '>'
  }

  // ----- whitespace -----

  /** `str.isspace`, over which `str.split()` splits. */
  predicate IsSpace(c: char) {
    || '\t' <= c <= '\r' || '\U{1C}' <= c <= ' ' || c == '\U{85}' || c == '\U{A0}' || c == '\U{1680}'
    || '\U{2000}' <= c <= '\U{200A}' || c == '\U{2028}' || c == '\U{2029}' || c == '\U{202F}' || c == '\U{205F}'
      || c == '\U{3000}'
  }

  predicate IsInk(c: char) { !IsSpace(c) }

  function Words(s: string): seq<string> {
    if s == "" then []
    else
      var n := CountWhile(s, IsInk);
      if n == 0 then Words(s[1..]) else [s[..n]] + Words(s[n..])
  }

  function Collapse(s: string): string { Join(" ", Words(s)) }

  // ----- escaping and its inverse -----

  function EscapeChar(c: char): string {
    if IsMark(c) then ['\\', c] else if c == '\n' || c == '\r' || c == '\t' then " " else [c]
  }

  function Escape(s: string): string {
    if s == "" then "" else EscapeChar(s[0]) + Escape(s[1..])
  }

  /** An ASCII punctuation character of section 2.1 of the GitHub Flavored Markdown specification. */
  predicate IsPunctuation(c: char) { '!' <= c <= '/' || ':' <= c <= '@' || '[' <= c <= '`' || '{' <= c <= '~' }

  /** Backslash escapes as section 6.1 of that specification reads them. */
  function Unescape(s: string): string {
    if s == "" then ""
    else if s[0] == '\\' && |s| > 1 && IsPunctuation(s[1]) then [s[1]] + Unescape(s[2..])
    else [s[0]] + Unescape(s[1..])
  }

  /** Read left to right, every Markdown character is the second half of an escape. */
  predicate FullyEscaped(s: string) {
    s == "" || (
      if s[0] == '\\' then |s| > 1 && IsMark(s[1]) && FullyEscaped(s[2..])
      else !IsMark(s[0]) && FullyEscaped(s[1..]))
  }

  function MdSafe(value: Option<string>): string {
    if value.None? then "" else Collapse(Escape(StripControls(value.value)))
  }

  method EscapeForMarkdown(value: Option<string>) returns (r: string)
    ensures r == MdSafe(value)
  {
    if value.None? { return ""; }
    var text := StripControls(value.value);
    var out: string := "";
    for i := 0 to |text|
      invariant out == Escape(text[..i])
    {
      var ch := text[i];
      assert text[..i + 1] == text[..i] + [ch];
      EscapeAppend(text[..i], [ch]);
      EscapeOne(ch);
      if IsMark(ch) {
        out := out + ['\\', ch];
      } else if ch == '\n' || ch == '\r' || ch == '\t' {
        out := out + " ";
      } else {
        out := out + [ch];
      }
    }
    assert text[..|text|] == text;
    r := Join(" ", Words(out));
  }

  // ----- lemmas -----

  predicate Printable(s: string) { forall c :: c in s ==> !IsControl(c) }

  lemma MarksAreInk(c: char)
    requires IsMark(c)
    ensures IsInk(c) && IsPunctuation(c)
  {
  }

  lemma EscapeOne(c: char)
    ensures Escape([c]) == EscapeChar(c)
  {
    assert [c][1..] == "" && EscapeChar(c) + "" == EscapeChar(c);
  }

  lemma {:induction false} EscapeAppend(a: string, b: string)
    ensures Escape(a + b) == Escape(a) + Escape(b)
  {
    if a == "" {
      assert a + b == b;
    } else {
      assert (a + b)[1..] == a[1..] + b;
      EscapeAppend(a[1..], b);
      assert EscapeChar(a[0]) + (Escape(a[1..]) + Escape(b)) == EscapeChar(a[0]) + Escape(a[1..]) + Escape(b);
    }
  }

  lemma {:induction false} EscapeInk(w: string)
    requires Printable(w) && forall c :: c in w ==> IsInk(c)
    ensures forall c :: c in Escape(w) ==> IsInk(c)
    ensures |Escape(w)| >= |w|
  {
    if w != "" {
      if IsMark(w[0]) { MarksAreInk(w[0]); }
      EscapeInk(w[1..]);
      assert w[0] in w && forall c :: c in w[1..] ==> c in w;
    }
  }

  lemma {:induction false} CountWhileRun(w: string, rest: string)
    requires (forall c :: c in w ==> IsInk(c)) && (rest == "" || IsSpace(rest[0]))
    ensures CountWhile(w + rest, IsInk) == |w|
  {
    if w == "" {
      assert w + rest == rest;
    } else {
      assert (w + rest)[1..] == w[1..] + rest;
      CountWhileRun(w[1..], rest);
    }
  }

  function EscapeEach(words: seq<string>): (r: seq<string>)
    ensures |r| == |words|
  {
    if words == [] then [] else [Escape(words[0])] + EscapeEach(words[1..])
  }

  /** Escaping commutes with splitting: it turns no ink into space and no space into ink. */
  lemma {:induction false} EscapeKeepsWords(s: string)
    requires Printable(s)
    ensures Words(Escape(s)) == EscapeEach(Words(s))
    decreases |s|
  {
    if s != "" {
      var n := CountWhile(s, IsInk);
      if n == 0 {
        EscapeKeepsWords(s[1..]);
        EscapeSpace(s);
      } else {
        var w, rest := s[..n], s[n..];
        assert s == w + rest;
        EscapeKeepsWords(rest);
        assert Words(s) == [w] + Words(rest);
        EscapeWord(w, rest);
      }
    }
  }

  lemma EscapeSpace(s: string)
    requires s != "" && Printable(s) && IsSpace(s[0])
    ensures Words(Escape(s)) == Words(Escape(s[1..]))
  {
    if IsMark(s[0]) { MarksAreInk(s[0]); }
    assert s[0] in s && !IsControl(s[0]);
    assert EscapeChar(s[0]) == [s[0]];
    assert Escape(s)[1..] == Escape(s[1..]) && Escape(s)[0] == s[0];
  }

  lemma EscapeWord(w: string, rest: string)
    requires w != "" && Printable(w) && (forall c :: c in w ==> IsInk(c)) && Printable(rest)
      && (rest == "" || IsSpace(rest[0]))
    ensures Words(Escape(w + rest)) == [Escape(w)] + Words(Escape(rest))
  {
    EscapeAppend(w, rest);
    EscapeInk(w);
    if rest != "" {
      if IsMark(rest[0]) { MarksAreInk(rest[0]); }
      assert rest[0] in rest && !IsControl(rest[0]);
      assert Escape(rest)[0] == rest[0];
    }
    var e := Escape(w) + Escape(rest);
    CountWhileRun(Escape(w), Escape(rest));
    assert e[..|Escape(w)|] == Escape(w) && e[|Escape(w)|..] == Escape(rest);
  }

  lemma UnescapeHead(c: char, tail: string)
    requires !IsControl(c)
    ensures Unescape(EscapeChar(c) + tail) == [c] + Unescape(tail)
    ensures FullyEscaped(tail) ==> FullyEscaped(EscapeChar(c) + tail)
  {
    if IsMark(c) {
      MarksAreInk(c);
      assert (['\\', c] + tail)[2..] == tail;
    } else {
      assert ([c] + tail)[1..] == tail;
    }
  }

  lemma {:induction false} UnescapeEscape(w: string, rest: string)
    requires Printable(w)
    ensures Unescape(Escape(w) + rest) == w + Unescape(rest)
    ensures FullyEscaped(rest) ==> FullyEscaped(Escape(w) + rest)
  {
    if w == "" {
      assert Escape(w) + rest == rest;
      assert w + Unescape(rest) == Unescape(rest);
    } else {
      var c, more := w[0], w[1..];
      assert c in w;
      UnescapeEscape(more, rest);
      UnescapeHead(c, Escape(more) + rest);
      Regroup(EscapeChar(c), Escape(more), rest);
      Regroup([c], more, Unescape(rest));
      assert [c] + more == w;
    }
  }

  lemma {:induction false} UnescapeJoin(words: seq<string>)
    requires forall w :: w in words ==> Printable(w)
    ensures Unescape(Join(" ", EscapeEach(words))) == Join(" ", words)
    ensures FullyEscaped(Join(" ", EscapeEach(words)))
  {
    if words == [] {
    } else if |words| == 1 {
      var w := words[0];
      UnescapeEscape(w, "");
      assert Escape(w) + "" == Escape(w) && w + Unescape("") == w;
    } else {
      UnescapeJoin(words[1..]);
      JoinStep(words[0], Join(" ", EscapeEach(words[1..])), Join(" ", words[1..]));
    }
  }

  lemma JoinStep(w: string, more: string, plain: string)
    requires Printable(w) && Unescape(more) == plain && FullyEscaped(more)
    ensures Unescape(Escape(w) + " " + more) == w + " " + plain
    ensures FullyEscaped(Escape(w) + " " + more)
  {
    var rest := " " + more;
    assert rest[1..] == more;
    UnescapeEscape(w, rest);
    assert Escape(w) + " " + more == Escape(w) + rest;
    assert w + (" " + plain) == w + " " + plain;
  }

  lemma {:induction false} WordsPrintable(s: string)
    requires Printable(s)
    ensures forall w :: w in Words(s) ==> Printable(w)
    decreases |s|
  {
    if s != "" {
      var n := CountWhile(s, IsInk);
      WordsPrintable(if n == 0 then s[1..] else s[n..]);
    }
  }

  lemma SpaceAhead(s: string)
    requires s != "" && IsSpace(s[0])
    ensures Words(s) == Words(s[1..])
  {
    assert CountWhile(s, IsInk) == 0;
  }

  lemma OneWord(w: string)
    requires w != "" && forall x :: x in w ==> IsInk(x)
    ensures Words(w) == [w]
  {
    CountWhileRun(w, "");
    assert w + "" == w && w[..|w|] == w && w[|w|..] == "";
    assert Words("") == [] && [w] + [] == [w];
  }

  lemma {:induction false} WordsSplit(a: string, rest: string)
    requires rest != "" && IsSpace(rest[0])
    ensures Words(a + rest) == Words(a) + Words(rest)
    decreases |a|
  {
    if a == "" {
      assert a + rest == rest && [] + Words(rest) == Words(rest);
    } else if IsSpace(a[0]) {
      assert (a + rest)[1..] == a[1..] + rest;
      SpaceAhead(a);
      SpaceAhead(a + rest);
      WordsSplit(a[1..], rest);
    } else {
      var n := CountWhile(a, IsInk);
      var w, more := a[..n], a[n..];
      assert a == w + more;
      WordAhead(w, more, rest);
      WordsSplit(more, rest);
      Regroup([w], Words(more), Words(rest));
    }
  }

  /** A run of characters that are no space is one word, and a space ends one. */
  lemma WordsExact(a: string, c: char, b: string)
    requires IsSpace(c)
    ensures Words(a + [c] + b) == Words(a) + Words(b)
    ensures Words("") == [] && (a != "" && (forall x :: x in a ==> IsInk(x)) ==> Words(a) == [a])
  {
    Regroup(a, [c], b);
    WordsSplit(a, [c] + b);
    SpaceAhead([c] + b);
    assert ([c] + b)[1..] == b;
    if a != "" && forall x :: x in a ==> IsInk(x) { OneWord(a); }
  }

  lemma WordAhead(w: string, more: string, rest: string)
    requires w != "" && (forall x :: x in w ==> IsInk(x)) && (more == "" || IsSpace(more[0]))
    requires rest != "" && IsSpace(rest[0])
    ensures Words(w + more) == [w] + Words(more) && Words(w + more + rest) == [w] + Words(more + rest)
  {
    CountWhileRun(w, more);
    CountWhileRun(w, more + rest);
    assert w + more + rest == w + (more + rest);
    assert (w + more)[..|w|] == w && (w + more)[|w|..] == more;
    assert (w + (more + rest))[..|w|] == w && (w + (more + rest))[|w|..] == more + rest;
  }

  /** The characters that are escaped. */
  lemma MarksExact(c: char)
    ensures IsMark(c) <==> c in "\\`*_{}[]()#+-.!|<>"
  {
  }

  /** Reading the Markdown back gives the value, stripped of controls and with whitespace collapsed. */
  lemma MdSafeRoundTrip(value: string)
    ensures Unescape(MdSafe(Some(value))) == Collapse(StripControls(value))
    ensures FullyEscaped(MdSafe(Some(value)))
  {
    var text := StripControls(value);
    EscapeKeepsWords(text);
    WordsPrintable(text);
    UnescapeJoin(Words(text));
  }

  // ----- inline code -----

  function InlineChar(c: char): string { if c == '`' then "'" else if c == '|' then "\\|" else [c] }

  function Inline(s: string): string {
    if s == "" then "" else InlineChar(s[0]) + Inline(s[1..])
  }

  function MdInline(value: Option<string>, empty: string): string {
    if value.None? || value.value == "" then empty else "`" + Inline(StripControls(value.value)) + "`"
  }

  predicate BarsEscaped(s: string) {
    forall i :: 0 <= i < |s| && s[i] == '|' ==> i > 0 && s[i - 1] == '\\'
  }

  lemma {:induction false} InlineSpec(s: string)
    ensures '`' !in Inline(s) && BarsEscaped(Inline(s))
    ensures Printable(s) ==> Printable(Inline(s))
  {
    if s != "" {
      InlineSpec(s[1..]);
      var rest := Inline(s[1..]);
      var head := InlineChar(s[0]);
      forall i | 0 <= i < |Inline(s)| && Inline(s)[i] == '|' ensures i > 0 && Inline(s)[i - 1] == '\\' {
        if i >= |head| { assert rest[i - |head|] == '|'; }
      }
    }
  }

  /**
   * A code span of section 6.3 of the GitHub Flavored Markdown specification: one backtick on either
   * side of some text without any.
   */
  predicate IsCodeSpan(r: string) {
    |r| >= 3 && r[0] == '`' && r[|r| - 1] == '`' && '`' !in r[1..|r| - 1]
  }

  /** Reading escaped bars back, from the left. */
  function UnescapeBars(s: string): string {
    if s == "" then ""
    else if |s| > 1 && s[0] == '\\' && s[1] == '|' then "|" + UnescapeBars(s[2..])
    else [s[0]] + UnescapeBars(s[1..])
  }

  function Unquoted(s: string): (r: string)
    ensures |r| == |s| && forall i :: 0 <= i < |s| ==> r[i] == if s[i] == '`' then '\'' else s[i]
  {
    seq(|s|, i requires 0 <= i < |s| => if s[i] == '`' then '\'' else s[i])
  }

  lemma BarHead(c: char, tail: string)
    requires tail != "" ==> tail[0] != '|'
    ensures UnescapeBars(InlineChar(c) + tail) == [if c == '`' then '\'' else c] + UnescapeBars(tail)
  {
    assert (InlineChar(c) + tail)[|InlineChar(c)|..] == tail;
  }

  /** Reading the bars back gives the text with its backticks made quotes: nothing else changes. */
  lemma {:induction false} InlineReads(s: string)
    ensures UnescapeBars(Inline(s)) == Unquoted(s)
    ensures Inline(s) != "" ==> Inline(s)[0] != '|'
  {
    if s != "" {
      InlineReads(s[1..]);
      BarHead(s[0], Inline(s[1..]));
      assert Unquoted(s) == [Unquoted(s)[0]] + Unquoted(s[1..]);
    }
  }

  /** What stands between the backticks reads as the value without controls; no value at all gives the stand-in. */
  lemma MdInlineReads(value: string, empty: string)
    ensures MdInline(None, empty) == empty && MdInline(Some(""), empty) == empty
    ensures value != "" ==>
      exists body :: MdInline(Some(value), empty) == "`" + body + "`"
        && UnescapeBars(body) == Unquoted(StripControls(value))
  {
    InlineReads(StripControls(value));
  }

  /**
   * The result is a code span if and only if something of the value is printable; in any case
   * no bar in it can end a table cell and no control character is left.
   */
  lemma MdInlineIsSpanIff(value: string, empty: string)
    requires value != ""
    ensures var r := MdInline(Some(value), empty);
      && (IsCodeSpan(r) <==> StripControls(value) != "")
      && BarsEscaped(r) && Printable(r)
  {
    var text := StripControls(value);
    InlineSpec(text);
    InlineLength(text);
    Enclosed(Inline(text));
  }

  lemma Enclosed(body: string)
    requires '`' !in body && BarsEscaped(body) && Printable(body)
    ensures var r := "`" + body + "`"; (IsCodeSpan(r) <==> body != "") && BarsEscaped(r) && Printable(r)
  {
    var r := "`" + body + "`";
    assert r[1..|r| - 1] == body;
    forall i | 0 <= i < |r| && r[i] == '|' ensures i > 0 && r[i - 1] == '\\' {
      assert body[i - 1] == '|';
    }
  }

  lemma {:induction false} InlineLength(s: string)
    ensures |s| <= |Inline(s)|
  {
    if s != "" { InlineLength(s[1..]); }
  }

  /** Of a value made of controls only, two backticks remain, which open a span and do not close it. */
  lemma MdInlineOfControls(value: string, empty: string)
    requires value != "" && forall c :: c in value ==> IsControl(c)
    ensures MdInline(Some(value), empty) == "``" && !IsCodeSpan(MdInline(Some(value), empty))
  {
    OnlyControls(value);
  }

  lemma {:induction false} OnlyControls(value: string)
    requires forall c :: c in value ==> IsControl(c)
    ensures StripControls(value) == ""
  {
    if value != "" {
      assert value[0] in value;
      OnlyControls(value[1..]);
    }
  }
}
