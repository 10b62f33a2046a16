/** Reading a subprocess's output under a cap on each line and a cap on the whole. */
module BoundedStream {
  import opened Prelude

  const LINE_MARKER := "...[line truncated]\n"
  const CHUNK: nat := 64 * 1024

  function Digits(n: nat): string { (if n < 10 then "" else Digits(n / 10)) + [('0' as int + n % 10) as char] }

  function StreamMarker(maxBytes: nat): string { "...[stream truncated after " + Digits(maxBytes) + " bytes]\n" }

  /** How many characters the first line has, its newline included. */
  function LineLength(text: string): (n: nat)
    ensures n <= |text| && (text != "" ==> n > 0)
  {
    var k := IndexOf(text, '\n');
    if k < |text| then k + 1 else k
  }

  function Lines(text: string): seq<string>
    decreases |text|
  {
    if text == "" then [] else [text[..LineLength(text)]] + Lines(text[LineLength(text)..])
  }

  function Clamp(line: string, maxLine: nat): string {
    if |line| > maxLine then line[..maxLine] + LINE_MARKER else line
  }

  function Clamped(lines: seq<string>, maxLine: nat): (r: seq<string>)
    ensures |r| == |lines| && forall i :: 0 <= i < |r| ==> r[i] == Clamp(lines[i], maxLine)
  {
    seq(|lines|, i requires 0 <= i < |lines| => Clamp(lines[i], maxLine))
  }

  function Joined(pieces: seq<string>): string { if pieces == [] then "" else pieces[0] + Joined(pieces[1..]) }

  function Total(pieces: seq<string>): nat { if pieces == [] then 0 else |pieces[0]| + Total(pieces[1..]) }

  /** How many pieces fit into a budget. */
  function Fitting(pieces: seq<string>, budget: nat): (k: nat)
    ensures k <= |pieces|
  {
    if pieces == [] || |pieces[0]| > budget then 0 else 1 + Fitting(pieces[1..], budget - |pieces[0]|)
  }

  /** A prefix fits exactly when it has at most that many pieces, unless the pieces beyond are empty. */
  lemma {:induction false} FittingLongest(pieces: seq<string>, budget: nat, n: nat)
    requires n <= |pieces|
    ensures Total(pieces[..n]) <= budget <==> n <= Fitting(pieces, budget)
  {
    if n > 0 {
      assert pieces[..n][1..] == pieces[1..][..n - 1];
      if |pieces[0]| <= budget { FittingLongest(pieces[1..], budget - |pieces[0]|, n - 1); }
    }
  }

  lemma {:induction false} LinesJoin(text: string)
    ensures Joined(Lines(text)) == text
    decreases |text|
  {
    if text != "" {
      var first, rest := text[..LineLength(text)], text[LineLength(text)..];
      LinesJoin(rest);
      assert Lines(text) == [first] + Lines(rest);
      assert ([first] + Lines(rest))[1..] == Lines(rest);
      assert text == first + rest;
    }
  }

  /** Every line but the last ends in a newline, and no other of its characters is one. */
  ghost predicate AreLines(lines: seq<string>) {
    && (forall i :: 0 <= i < |lines| ==> lines[i] != "" && '\n' !in lines[i][..|lines[i]| - 1])
    && (forall i :: 0 <= i < |lines| - 1 ==> lines[i][|lines[i]| - 1] == '\n')
  }

  lemma FirstLine(text: string)
    requires text != ""
    ensures var n := LineLength(text);
      '\n' !in text[..n][..n - 1] && (n < |text| ==> text[..n][n - 1] == '\n')
  {
    var k, n := IndexOf(text, '\n'), LineLength(text);
    assert text[..n][..n - 1] == text[..n - 1];
    assert forall i :: 0 <= i < n - 1 ==> text[..n - 1][i] == text[..k][i];
  }

  lemma AreLinesCons(first: string, rest: seq<string>)
    requires AreLines(rest) && first != "" && '\n' !in first[..|first| - 1]
    requires rest != [] ==> first[|first| - 1] == '\n'
    ensures AreLines([first] + rest)
  {
    var lines := [first] + rest;
    forall i | 0 <= i < |lines|
      ensures lines[i] != "" && '\n' !in lines[i][..|lines[i]| - 1]
      ensures i < |lines| - 1 ==> lines[i][|lines[i]| - 1] == '\n'
    {
      if i > 0 { assert lines[i] == rest[i - 1]; }
    }
  }

  lemma {:induction false} LinesSplit(text: string)
    ensures AreLines(Lines(text))
    decreases |text|
  {
    if text != "" {
      var n := LineLength(text);
      FirstLine(text);
      LinesSplit(text[n..]);
      AreLinesCons(text[..n], Lines(text[n..]));
    }
  }

  /** The lines of a text are those that it is the concatenation of. */
  lemma LinesExact(text: string)
    ensures AreLines(Lines(text)) && Joined(Lines(text)) == text
  {
    LinesSplit(text);
    LinesJoin(text);
  }

  function Value(digits: string): int {
    if digits == "" then 0 else Value(digits[..|digits| - 1]) * 10 + (digits[|digits| - 1] as int - '0' as int)
  }

  predicate IsDigit(c: char) { '0' <= c <= '9' }

  lemma ValueAppend(digits: string, c: char)
    ensures Value(digits + [c]) == Value(digits) * 10 + (c as int - '0' as int)
  {
    assert (digits + [c])[..|digits|] == digits;
  }

  lemma LastDigit(n: nat)
    ensures var c := ('0' as int + n % 10) as char; IsDigit(c) && c as int - '0' as int == n % 10
  {
  }

  /** The size in the marker is written in decimal. */
  lemma {:induction false} DigitsRead(n: nat)
    ensures Value(Digits(n)) == n && forall c :: c in Digits(n) ==> IsDigit(c)
  {
    LastDigit(n);
    if n < 10 {
      ValueAppend("", ('0' as int + n % 10) as char);
    } else {
      DigitsRead(n / 10);
      ValueAppend(Digits(n / 10), ('0' as int + n % 10) as char);
    }
  }

  /** What the caller of the generator receives. */
  function Received(text: string, maxLine: nat, maxBytes: nat): seq<string> {
    var pieces := Clamped(Lines(text), maxLine);
    var k := Fitting(pieces, maxBytes);
    pieces[..k] + if k < |pieces| then [StreamMarker(maxBytes)] else []
  }

  /** A readable text stream. */
  class TextStream {
    var rest: string

    constructor (text: string)
      ensures rest == text
    {
      rest := text;
    }

    method NextLine() returns (line: Option<string>)
      modifies this
      ensures old(rest) == "" ==> line.None? && rest == ""
      ensures old(rest) != "" ==>
        var n := LineLength(old(rest)); line == Some(old(rest)[..n]) && rest == old(rest)[n..]
    {
      if rest == "" { return None; }
      var n := LineLength(rest);
      line := Some(rest[..n]);
      rest := rest[n..];
    }

    method Read(n: nat) returns (chunk: string)
      modifies this
      ensures chunk + rest == old(rest) && |chunk| <= n
      ensures chunk == "" ==> n == 0 || rest == ""
    {
      var k := if |rest| < n then |rest| else n;
      chunk, rest := rest[..k], rest[k..];
    }

    /** Reads to the end; `raises(k)` tells whether the k-th read fails, which ends the draining quietly. */
    method Drain(raises: nat -> bool)
      modifies this
      ensures rest == "" || exists k :: raises(k)
    {
      var more, k := true, 0;
      while more
        invariant more || rest == "" || exists j :: raises(j)
        decreases |rest|, more
      {
        if raises(k) { return; }
        var chunk := Read(CHUNK);
        more := chunk != "";
        k := k + 1;
      }
    }
  }

  /** `yielded` are the first clamped lines, within budget, and `pending` the lines that follow. */
  ghost predicate Progress(text: string, maxLine: nat, maxBytes: nat, yielded: seq<string>, pending: seq<string>) {
    var lines, k := Lines(text), |yielded|;
    && k <= |lines| && lines[k..] == pending
    && yielded == Clamped(lines, maxLine)[..k] && Total(yielded) <= maxBytes
  }

  lemma Next(text: string, maxLine: nat, maxBytes: nat, yielded: seq<string>, line: string, rest: seq<string>)
    requires Progress(text, maxLine, maxBytes, yielded, [line] + rest)
    ensures var piece := Clamp(line, maxLine);
      if Total(yielded) + |piece| <= maxBytes then Progress(text, maxLine, maxBytes, yielded + [piece], rest)
      else Received(text, maxLine, maxBytes) == yielded + [StreamMarker(maxBytes)]
    ensures Total(yielded + [Clamp(line, maxLine)]) == Total(yielded) + |Clamp(line, maxLine)|
  {
    var lines, k, piece := Lines(text), |yielded|, Clamp(line, maxLine);
    TotalAppend(yielded, piece);
    SplitAt(lines, k, line, rest);
    assert Clamped(lines, maxLine)[..k + 1] == yielded + [piece];
    if Total(yielded) + |piece| > maxBytes { Overflow(Clamped(lines, maxLine), maxBytes, k); }
  }

  lemma SplitAt<T>(xs: seq<T>, k: nat, x: T, rest: seq<T>)
    requires k <= |xs| && xs[k..] == [x] + rest
    ensures k < |xs| && xs[k] == x && xs[k + 1..] == rest
  {
    assert |xs[k..]| >= 1;
    assert xs[k] == xs[k..][0];
    assert xs[k + 1..] == xs[k..][1..];
  }

  lemma Overflow(pieces: seq<string>, maxBytes: nat, k: nat)
    requires k < |pieces| && Total(pieces[..k]) <= maxBytes < Total(pieces[..k + 1])
    ensures Fitting(pieces, maxBytes) == k
  {
    FittingLongest(pieces, maxBytes, k);
    FittingLongest(pieces, maxBytes, k + 1);
  }

  lemma AllReceived(text: string, maxLine: nat, maxBytes: nat, yielded: seq<string>)
    requires Progress(text, maxLine, maxBytes, yielded, [])
    ensures Received(text, maxLine, maxBytes) == yielded
  {
    var lines := Lines(text);
    assert |lines[|yielded|..]| == |lines| - |yielded|;
    AllFit(Clamped(lines, maxLine), maxBytes, yielded);
    assert yielded + [] == yielded;
  }

  lemma AllFit(pieces: seq<string>, maxBytes: nat, all: seq<string>)
    requires all == pieces[..|pieces|] && Total(all) <= maxBytes
    ensures Fitting(pieces, maxBytes) == |pieces| && all == pieces
  {
    FittingLongest(pieces, maxBytes, |pieces|);
  }

  function Pending(next: Option<string>, rest: string): seq<string> {
    if next.None? then [] else [next.value] + Lines(rest)
  }

  /** `raises` says which reads of the stream fail while the rest is drained. */
  method IterBoundedStream(stream: TextStream, maxLine: nat, maxBytes: nat, raises: nat -> bool)
      returns (yielded: seq<string>)
    modifies stream
    ensures yielded == Received(old(stream.rest), maxLine, maxBytes)
    ensures stream.rest == "" || exists k :: raises(k)
  {
    ghost var text := stream.rest;
    var total: nat := 0;
    yielded := [];
    assert Lines(text)[0..] == Lines(text);
    var next := stream.NextLine();
    while next.Some?
      invariant Progress(text, maxLine, maxBytes, yielded, Pending(next, stream.rest))
      invariant total == Total(yielded)
      invariant next.None? ==> stream.rest == ""
      decreases |stream.rest|, next.Some?
    {
      var line := next.value;
      Next(text, maxLine, maxBytes, yielded, line, Lines(stream.rest));
      if |line| > maxLine { line := line[..maxLine] + LINE_MARKER; }
      if total + |line| > maxBytes {
        yielded := yielded + [StreamMarker(maxBytes)];
        stream.Drain(raises);
        return;
      }
      total := total + |line|;
      yielded := yielded + [line];
      next := stream.NextLine();
    }
    AllReceived(text, maxLine, maxBytes, yielded);
  }

  lemma {:induction false} TotalAppend(pieces: seq<string>, piece: string)
    ensures Total(pieces + [piece]) == Total(pieces) + |piece|
  {
    if pieces == [] {
      assert [piece][1..] == [];
    } else {
      assert (pieces + [piece])[1..] == pieces[1..] + [piece];
      TotalAppend(pieces[1..], piece);
    }
  }

  // ----- what is received -----

  /** `r` is the first `k` pieces, which fit, and the marker if and only if more pieces would not have. */
  ghost predicate CutAt(r: seq<string>, pieces: seq<string>, maxBytes: nat, k: nat) {
    && k <= |pieces| && Total(pieces[..k]) <= maxBytes
    && (forall n :: k < n <= |pieces| ==> Total(pieces[..n]) > maxBytes)
    && r == if k < |pieces| then pieces[..k] + [StreamMarker(maxBytes)] else pieces
  }

  /** The longest prefix of clamped lines that fits, and one marker exactly when a line was dropped. */
  lemma ReceivedSpec(text: string, maxLine: nat, maxBytes: nat)
    ensures exists k: nat :: CutAt(Received(text, maxLine, maxBytes), Clamped(Lines(text), maxLine), maxBytes, k)
  {
    var pieces := Clamped(Lines(text), maxLine);
    var k := Fitting(pieces, maxBytes);
    forall n | 0 <= n <= |pieces| ensures Total(pieces[..n]) <= maxBytes <==> n <= k {
      FittingLongest(pieces, maxBytes, n);
    }
    assert pieces[..|pieces|] == pieces;
    assert CutAt(Received(text, maxLine, maxBytes), pieces, maxBytes, k);
  }

  /** Every piece is bounded, and so is the whole. */
  lemma ReceivedBounded(text: string, maxLine: nat, maxBytes: nat)
    ensures var r := Received(text, maxLine, maxBytes);
      && Total(r) <= maxBytes + |StreamMarker(maxBytes)|
      && forall i :: 0 <= i < |r| ==>
        |r[i]| <= maxLine + |LINE_MARKER| || (i == |r| - 1 && r[i] == StreamMarker(maxBytes))
  {
    var pieces, r := Clamped(Lines(text), maxLine), Received(text, maxLine, maxBytes);
    var k := Fitting(pieces, maxBytes);
    FittingLongest(pieces, maxBytes, k);
    TotalAppend(pieces[..k], StreamMarker(maxBytes));
    assert pieces[..k] + [] == pieces[..k];
  }

  /** Output within both caps comes through unchanged. */
  lemma WithinCapsUnchanged(text: string, maxLine: nat, maxBytes: nat)
    requires |text| <= maxBytes && forall i :: 0 <= i < |Lines(text)| ==> |Lines(text)[i]| <= maxLine
    ensures Joined(Received(text, maxLine, maxBytes)) == text
  {
    var lines := Lines(text);
    assert Clamped(lines, maxLine) == lines;
    LinesJoin(text);
    JoinedLength(lines);
    assert lines[..|lines|] == lines;
    FittingLongest(lines, maxBytes, |lines|);
    assert lines + [] == lines;
  }

  lemma {:induction false} JoinedLength(pieces: seq<string>)
    ensures |Joined(pieces)| == Total(pieces)
  {
    if pieces != [] { JoinedLength(pieces[1..]); }
  }

  /** Each line received is whole when it is short, and else its head and the words that say so. */
  lemma ReceivedLines(text: string, maxLine: nat, maxBytes: nat, i: nat)
    requires i < |Received(text, maxLine, maxBytes)| && i < |Lines(text)|
    ensures var r, line := Received(text, maxLine, maxBytes)[i], Lines(text)[i];
      || r == (if |line| <= maxLine then line else line[..maxLine] + "...[line truncated]\n")
      || (i == |Received(text, maxLine, maxBytes)| - 1 && r == StreamMarker(maxBytes))
  {
  }
}
