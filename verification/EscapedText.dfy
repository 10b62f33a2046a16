/**
 * Text as an agent assembles it: visible pieces, control sequences and operating
 * system commands. Which of it survives the escape stripper.
 */
module EscapedText {
  import opened Prelude
  import opened Sanitize

  /** An OSC string ends in BEL, or in the two-character string terminator ESC `\`. */
  datatype Piece =
    | Plain(text: string)
    | Csi(parameters: string, intermediates: string, final: char)
    | Osc(body: string, bel: bool)

  predicate WellFormed(p: Piece) {
    match p
    case Plain(text) => ESC !in text
    case Csi(pars, mids, f) => (forall c :: c in pars ==> IsParameter(c))
      && (forall c :: c in mids ==> IsIntermediate(c)) && IsFinal(f)
    case Osc(body, _) => ESC !in body && BEL !in body
  }

  predicate AllWellFormed(ps: seq<Piece>) { forall p :: p in ps ==> WellFormed(p) }

  const ST: string := [ESC, '\\']

  function RenderOne(p: Piece): string {
    match p
    case Plain(text) => text
    case Csi(pars, mids, f) => [ESC, '['] + pars + mids + [f]
    case Osc(body, bel) => [ESC, ']'] + body + if bel then [BEL] else ST
  }

  function Render(ps: seq<Piece>): string {
    if ps == [] then "" else RenderOne(ps[0]) + Render(ps[1..])
  }

  /** What a terminal would print. */
  function Visible(ps: seq<Piece>): string {
    if ps == [] then "" else (if ps[0].Plain? then ps[0].text else "") + Visible(ps[1..])
  }

  function NoCsi(ps: seq<Piece>): (qs: seq<Piece>)
    ensures forall p :: p in qs ==> !p.Csi? && p in ps
    ensures Visible(qs) == Visible(ps)
  {
    if ps == [] then [] else
    var qs := (if ps[0].Csi? then [] else [ps[0]]) + NoCsi(ps[1..]);
    assert qs != NoCsi(ps[1..]) ==> qs[1..] == NoCsi(ps[1..]);
    qs
  }

  // ----- the CSI pass removes exactly the CSI pieces -----

  lemma CsiPiece(p: Piece, rest: string)
    requires p.Csi? && WellFormed(p)
    ensures StripCsi(RenderOne(p) + rest) == StripCsi(rest)
  {
    var t := RenderOne(p);
    var s := t + rest;
    var a := 2 + |p.parameters|;
    assert s[..|t|] == t;
    assert forall i :: 2 <= i < a ==> t[i] == p.parameters[i - 2];
    assert forall i :: a <= i < |t| - 1 ==> t[i] == p.intermediates[i - a];
    assert CsiShape(t, a);
    CsiLengthUnique(s, |t|);
    assert s[|t|..] == rest;
  }

  /** No ESC in `s` is followed by `[`, nor ends `s`. */
  predicate NoCsiStart(s: string) {
    forall i :: 0 <= i < |s| && s[i] == ESC ==> i + 1 < |s| && s[i + 1] != '['
  }

  lemma {:induction false} StripCsiPasses(s: string, rest: string)
    requires NoCsiStart(s)
    ensures StripCsi(s + rest) == s + StripCsi(rest)
  {
    if s == "" {
      assert s + rest == rest;
    } else {
      assert (s + rest)[1..] == s[1..] + rest;
      if s[0] == ESC { assert (s + rest)[1] == s[1]; }
      assert CsiLength(s + rest) == None;
      assert forall i :: 0 <= i < |s[1..]| ==> s[1..][i] == s[i + 1];
      StripCsiPasses(s[1..], rest);
      assert [s[0]] + (s[1..] + StripCsi(rest)) == s + StripCsi(rest);
    }
  }

  lemma NoCsiPiece(p: Piece)
    requires WellFormed(p) && !p.Csi?
    ensures NoCsiStart(RenderOne(p))
  {
    var s := RenderOne(p);
    if p.Osc? {
      assert forall i :: 2 <= i < 2 + |p.body| ==> s[i] == p.body[i - 2];
    }
  }

  lemma {:induction false} CsiPass(ps: seq<Piece>)
    requires AllWellFormed(ps)
    ensures StripCsi(Render(ps)) == Render(NoCsi(ps))
  {
    if ps != [] {
      CsiPass(ps[1..]);
      if ps[0].Csi? {
        CsiPiece(ps[0], Render(ps[1..]));
        assert NoCsi(ps) == NoCsi(ps[1..]);
      } else {
        NoCsiPiece(ps[0]);
        StripCsiPasses(RenderOne(ps[0]), Render(ps[1..]));
        assert NoCsi(ps)[1..] == NoCsi(ps[1..]);
      }
    }
  }

  // ----- the OSC pass, and what an unlucky terminator swallows -----

  predicate HasBel(ps: seq<Piece>) { ps != [] && (BelIn(ps[0]) || HasBel(ps[1..])) }

  predicate BelIn(p: Piece) { (p.Plain? && BEL in p.text) || (p.Osc? && p.bel) }

  predicate HasSt(ps: seq<Piece>) { ps != [] && ((ps[0].Osc? && !ps[0].bel) || HasSt(ps[1..])) }

  /** What is left of `ps` after the first BEL in it. */
  function AfterBel(ps: seq<Piece>): (rest: seq<Piece>)
    requires HasBel(ps)
    ensures |rest| <= |ps|
    ensures AllWellFormed(ps) ==> AllWellFormed(rest)
    ensures (forall p :: p in ps ==> !p.Csi?) ==> forall p :: p in rest ==> !p.Csi?
  {
    if !BelIn(ps[0]) then AfterBel(ps[1..])
    else if ps[0].Plain? then
      var text := ps[0].text[IndexOf(ps[0].text, BEL) + 1..];
      assert WellFormed(ps[0]) ==> WellFormed(Plain(text));
      [Plain(text)] + ps[1..]
    else ps[1..]
  }

  /** What is left of `ps` after the last string terminator in it. */
  function AfterLastSt(ps: seq<Piece>): (rest: seq<Piece>)
    ensures |rest| <= |ps|
    ensures AllWellFormed(ps) ==> AllWellFormed(rest)
    ensures (forall p :: p in ps ==> !p.Csi?) ==> forall p :: p in rest ==> !p.Csi?
  {
    if HasSt(ps) then AfterLastSt(ps[1..]) else ps
  }

  /** Where scanning resumes once an OSC closed by ESC `\` has been matched, `tail` being the text behind it. */
  function Resume(tail: seq<Piece>): (rest: seq<Piece>)
    ensures |rest| <= |tail|
    ensures AllWellFormed(tail) ==> AllWellFormed(rest)
    ensures (forall p :: p in tail ==> !p.Csi?) ==> forall p :: p in rest ==> !p.Csi?
  {
    if HasBel(tail) then AfterBel(tail) else AfterLastSt(tail)
  }

  /** What the OSC pass leaves of text without CSI. */
  function Shown(ps: seq<Piece>): string
    decreases |ps|
  {
    if ps == [] then ""
    else match ps[0]
      case Plain(text) => text + Shown(ps[1..])
      case Csi(_, _, _) => Shown(ps[1..])
      case Osc(_, bel) => Shown(if bel then ps[1..] else Resume(ps[1..]))
  }

  /** Nothing visible before the first BEL, which is not itself plain text. */
  predicate ClearToBel(ps: seq<Piece>) {
    ps == [] || (if ps[0].Plain? then ps[0].text == "" && ClearToBel(ps[1..]) else BelIn(ps[0]) || ClearToBel(ps[1..]))
  }

  /** Nothing visible before the last string terminator. */
  predicate ClearToSt(ps: seq<Piece>) {
    HasSt(ps) ==> (ps[0].Plain? ==> ps[0].text == "") && ClearToSt(ps[1..])
  }

  /**
   * No visible text stands between an OSC closed by ESC `\` and the next BEL or, when no BEL
   * follows, the last ESC `\`.
   */
  predicate Intact(ps: seq<Piece>)
    decreases |ps|
  {
    ps == [] || (
      if ps[0].Osc? && !ps[0].bel then ClearToResume(ps[1..]) && Intact(Resume(ps[1..])) else Intact(ps[1..]))
  }

  predicate ClearToResume(tail: seq<Piece>) { if HasBel(tail) then ClearToBel(tail) else ClearToSt(tail) }

  lemma {:induction false} StripOscPasses(s: string, rest: string)
    requires ESC !in s
    ensures StripOsc(s + rest) == s + StripOsc(rest)
  {
    if s == "" {
      assert s + rest == rest;
    } else {
      assert (s + rest)[1..] == s[1..] + rest && (s + rest)[0] == s[0];
      StripOscPasses(s[1..], rest);
      assert [s[0]] + (s[1..] + StripOsc(rest)) == s + StripOsc(rest);
    }
  }

  /** An OSC match that runs through a BEL `k` characters into what follows ESC `]`. */
  lemma OscThroughBel(s: string, upto: string, rest: string)
    requires BEL !in upto && s == [ESC, ']'] + upto + [BEL] + rest
    ensures StripOsc(s) == StripOsc(rest)
  {
    assert s[2..] == upto + [BEL] + rest;
    assert s[2..][..|upto|] == upto;
    IndexOfExact(s[2..], BEL, |upto|);
    assert s[2 + |upto| + 1..] == rest;
  }

  predicate NoStIn(s: string) { forall j :: 0 <= j < |s| ==> !HasStAt(s, j) }

  lemma OscThroughSt(s: string, upto: string, rest: string)
    requires BEL !in upto && BEL !in rest && NoStIn(rest) && s == [ESC, ']'] + upto + ST + rest
    ensures StripOsc(s) == StripOsc(rest)
  {
    var t := s[2..];
    assert t == upto + ST + rest;
    assert BEL !in t;
    assert IndexOf(t, BEL) == |t|;
    assert HasStAt(t, |upto|);
    forall j | |upto| < j < |t| ensures !HasStAt(t, j) {
      if j >= |upto| + 2 {
        assert HasStAt(t, j) ==> HasStAt(rest, j - |upto| - 2);
      }
    }
    assert LastSt(t) == |upto|;
    assert s[2 + |upto| + 2..] == rest;
  }

  lemma Reassociate(a: string, b: string, c: string, d: string)
    ensures a + (b + c + d) == (a + b) + c + d
  {
  }

  lemma Regroup(a: string, b: string, c: string, d: string)
    ensures (a + b + c) + d == a + b + (c + d)
  {
  }

  lemma Glue(a: string, b: string, c: string, d: string, e: string, f: string)
    ensures (a + b + c) + (d + e + f) == a + (b + c + d) + e + f
  {
  }

  /** The swallowed text `gap` up to the first BEL. */
  lemma {:induction false} BelSplit(ps: seq<Piece>) returns (gap: string)
    requires HasBel(ps) && AllWellFormed(ps) && forall p :: p in ps ==> !p.Csi?
    ensures Render(ps) == gap + [BEL] + Render(AfterBel(ps)) && BEL !in gap
  {
    var p := ps[0];
    assert WellFormed(p);
    if !BelIn(p) {
      var gap' := BelSplit(ps[1..]);
      gap := RenderOne(p) + gap';
      Reassociate(RenderOne(p), gap', [BEL], Render(AfterBel(ps)));
    } else if p.Plain? {
      var k := IndexOf(p.text, BEL);
      gap := p.text[..k];
      assert p.text == gap + [BEL] + p.text[k + 1..];
      assert AfterBel(ps)[1..] == ps[1..];
      assert Render(AfterBel(ps)) == p.text[k + 1..] + Render(ps[1..]);
      Regroup(gap, [BEL], p.text[k + 1..], Render(ps[1..]));
    } else {
      gap := [ESC, ']'] + p.body;
    }
  }

  lemma {:induction false} BelHides(ps: seq<Piece>)
    requires HasBel(ps)
    ensures |Visible(AfterBel(ps))| <= |Visible(ps)|
    ensures ClearToBel(ps) ==> Visible(AfterBel(ps)) == Visible(ps)
    ensures !ClearToBel(ps) ==> |Visible(AfterBel(ps))| < |Visible(ps)|
  {
    if BelIn(ps[0]) {
      assert ps[0].Plain? ==> AfterBel(ps)[1..] == ps[1..];
    } else {
      BelHides(ps[1..]);
    }
  }

  /** The swallowed text `gap` up to the last string terminator. */
  lemma {:induction false} StSplit(ps: seq<Piece>) returns (gap: string)
    requires HasSt(ps) && !HasBel(ps) && AllWellFormed(ps) && forall p :: p in ps ==> !p.Csi?
    ensures Render(ps) == gap + ST + Render(AfterLastSt(ps)) && BEL !in gap
    ensures !HasSt(AfterLastSt(ps)) && !HasBel(AfterLastSt(ps))
  {
    var p := ps[0];
    assert WellFormed(p);
    if HasSt(ps[1..]) {
      var gap' := StSplit(ps[1..]);
      gap := RenderOne(p) + gap';
      Reassociate(RenderOne(p), gap', ST, Render(AfterLastSt(ps)));
    } else {
      gap := [ESC, ']'] + p.body;
      assert AfterLastSt(ps) == ps[1..];
    }
  }

  lemma {:induction false} StHides(ps: seq<Piece>)
    ensures |Visible(AfterLastSt(ps))| <= |Visible(ps)|
    ensures ClearToSt(ps) ==> Visible(AfterLastSt(ps)) == Visible(ps)
    ensures !ClearToSt(ps) ==> |Visible(AfterLastSt(ps))| < |Visible(ps)|
  {
    if HasSt(ps) {
      StHides(ps[1..]);
      var own := if ps[0].Plain? then ps[0].text else "";
      assert |Visible(ps)| == |own| + |Visible(ps[1..])|;
      assert own == "" ==> Visible(ps) == Visible(ps[1..]);
    }
  }

  lemma {:induction false} NothingToMatch(ps: seq<Piece>)
    requires !HasBel(ps) && !HasSt(ps) && AllWellFormed(ps) && forall p :: p in ps ==> !p.Csi?
    ensures BEL !in Render(ps) && ESC !in Render(ps) && NoStIn(Render(ps))
  {
    if ps != [] {
      assert WellFormed(ps[0]);
      NothingToMatch(ps[1..]);
    }
  }

  lemma ResumeHides(tail: seq<Piece>)
    ensures |Visible(Resume(tail))| <= |Visible(tail)|
    ensures ClearToResume(tail) ==> Visible(Resume(tail)) == Visible(tail)
    ensures !ClearToResume(tail) ==> |Visible(Resume(tail))| < |Visible(tail)|
  {
    if HasBel(tail) { BelHides(tail); } else { StHides(tail); }
  }

  lemma OscStStripped(p: Piece, tail: seq<Piece>)
    requires WellFormed(p) && p.Osc? && !p.bel && AllWellFormed(tail) && forall q :: q in tail ==> !q.Csi?
    ensures StripOsc(RenderOne(p) + Render(tail)) == StripOsc(Render(Resume(tail)))
  {
    var s := RenderOne(p) + Render(tail);
    if HasBel(tail) {
      var gap := BelSplit(tail);
      Glue([ESC, ']'], p.body, ST, gap, [BEL], Render(Resume(tail)));
      OscThroughBel(s, p.body + ST + gap, Render(Resume(tail)));
    } else if HasSt(tail) {
      var gap := StSplit(tail);
      NothingToMatch(Resume(tail));
      Glue([ESC, ']'], p.body, ST, gap, ST, Render(Resume(tail)));
      OscThroughSt(s, p.body + ST + gap, Render(Resume(tail)));
    } else {
      NothingToMatch(tail);
      OscThroughSt(s, p.body, Render(tail));
    }
  }

  /** The OSC pass leaves `Shown` of its pieces. */
  lemma {:induction false} OscPass(ps: seq<Piece>)
    requires AllWellFormed(ps) && forall p :: p in ps ==> !p.Csi?
    ensures StripOsc(Render(ps)) == Shown(ps)
    decreases |ps|
  {
    if ps != [] {
      var p, tail := ps[0], ps[1..];
      assert WellFormed(p) && p in ps;
      if p.Plain? {
        OscPass(tail);
        StripOscPasses(p.text, Render(tail));
      } else if p.bel {
        OscPass(tail);
        OscThroughBel(Render(ps), p.body, Render(tail));
      } else {
        OscPass(Resume(tail));
        OscStStripped(p, tail);
      }
    }
  }

  /** `Shown` is all the visible text exactly when `Intact` holds. */
  lemma {:induction false} ShownIff(ps: seq<Piece>)
    ensures |Shown(ps)| <= |Visible(ps)|
    ensures Intact(ps) <==> Shown(ps) == Visible(ps)
    decreases |ps|
  {
    if ps != [] {
      var tail := ps[1..];
      match ps[0]
      case Plain(text) =>
        ShownIff(tail);
        assert (text + Shown(tail))[|text|..] == Shown(tail) && (text + Visible(tail))[|text|..] == Visible(tail);
      case Csi(_, _, _) =>
        ShownIff(tail);
        assert Visible(ps) == Visible(tail);
      case Osc(_, bel) =>
        ShownIff(if bel then tail else Resume(tail));
        ResumeHides(tail);
        assert Visible(ps) == Visible(tail);
    }
  }

  // ----- the stripper on assembled text -----

  /** The stripper shows exactly the visible text if and only if no terminator reaches past any of it. */
  lemma StripAnsiShowsVisible(ps: seq<Piece>)
    requires AllWellFormed(ps)
    ensures StripAnsi(Render(ps), false) == Visible(ps) <==> Intact(NoCsi(ps))
  {
    CsiPass(ps);
    OscPass(NoCsi(ps));
    ShownIff(NoCsi(ps));
  }

  lemma {:induction false} BelOnlyIntact(ps: seq<Piece>)
    requires forall p :: p in ps && p.Osc? ==> p.bel
    ensures Intact(ps)
  {
    if ps != [] {
      assert ps[0] in ps;
      BelOnlyIntact(ps[1..]);
    }
  }

  /** With BEL-terminated OSC strings only, nothing visible is ever lost and nothing else ever kept. */
  lemma BelTerminatedTextSurvives(ps: seq<Piece>)
    requires AllWellFormed(ps) && forall p :: p in ps && p.Osc? ==> p.bel
    ensures StripAnsi(Render(ps), false) == Visible(ps)
  {
    BelOnlyIntact(NoCsi(ps));
    StripAnsiShowsVisible(ps);
  }

  /**
   * Of two commands closed by ESC `\` the first one's body runs to the second one's end, and takes the
   * text between along.
   */
  lemma TerminatorSwallowsText(text: string)
    requires text != "" && ESC !in text && BEL !in text
    ensures var ps := [Osc("", false), Plain(text), Osc("", false)];
      AllWellFormed(ps) && Visible(ps) == text && StripAnsi(Render(ps), false) != text
  {
    var last := [Osc("", false)];
    var tail := [Plain(text)] + last;
    var ps := [Osc("", false)] + tail;
    assert ps == [Osc("", false), Plain(text), Osc("", false)];
    assert ps[1..] == tail && tail[1..] == last && last[1..] == [];
    assert NoCsi(last) == last;
    assert NoCsi(tail) == tail;
    assert NoCsi(ps) == ps;
    assert Visible(last) == "";
    assert HasSt(last);
    assert HasSt(tail) && !HasBel(tail);
    assert !Intact(ps);
    StripAnsiShowsVisible(ps);
  }

  // ----- with the erase pre-pass -----

  predicate IsErase(p: Piece) { p == Csi("2", "", 'K') }

  /** The pieces behind the last erase sequence. */
  function AfterErase(ps: seq<Piece>): (rest: seq<Piece>)
    ensures AllWellFormed(ps) ==> AllWellFormed(rest)
  {
    if ps == [] then []
    else if HasErasePiece(ps[1..]) || IsErase(ps[0]) then AfterErase(ps[1..])
    else ps
  }

  predicate HasErasePiece(ps: seq<Piece>) { ps != [] && (IsErase(ps[0]) || HasErasePiece(ps[1..])) }

  function DropReturns(p: Piece): Piece {
    match p
    case Plain(text) => Plain(Without(text, '\r'))
    case Csi(_, _, _) => p
    case Osc(body, bel) => Osc(Without(body, '\r'), bel)
  }

  /** Without carriage returns. */
  function NoReturns(ps: seq<Piece>): seq<Piece> {
    if ps == [] then [] else [DropReturns(ps[0])] + NoReturns(ps[1..])
  }

  /** Nowhere in the first `n` characters does an erase sequence start. */
  ghost predicate NoEraseIn(s: string, n: nat)
    requires n <= |s|
  {
    forall i :: 0 <= i < n ==> !StartsErase(s[i..])
  }

  lemma {:induction false} SkipNoErase(s: string, n: nat)
    requires n <= |s| && NoEraseIn(s, n)
    ensures HasErase(s) <==> HasErase(s[n..])
    ensures HasErase(s[n..]) ==> AfterLastErase(s) == AfterLastErase(s[n..])
  {
    if n == 0 {
      assert s[0..] == s;
    } else {
      assert s[0..] == s && !StartsErase(s);
      forall i | 0 <= i < n - 1 ensures !StartsErase(s[1..][i..]) { assert s[1..][i..] == s[i + 1..]; }
      SkipNoErase(s[1..], n - 1);
      assert s[1..][n - 1..] == s[n..];
    }
  }

  /** An erase sequence starts nowhere in the text of another piece. */
  lemma OtherPieces(p: Piece, rest: string)
    requires WellFormed(p) && !IsErase(p)
    ensures NoEraseIn(RenderOne(p) + rest, |RenderOne(p)|)
  {
    var t := RenderOne(p);
    var s := t + rest;
    forall i | 0 <= i < |t| ensures !StartsErase(s[i..]) {
      assert s[i] == t[i] && (i + 1 < |t| ==> s[i + 1] == t[i + 1]);
      match p
      case Plain(text) => assert t[i] in text;
      case Osc(body, bel) =>
        if i == 0 {
          assert t[1] == ']';
        } else if 2 <= i < 2 + |body| {
          assert t[i] == body[i - 2];
        }
      case Csi(pars, mids, f) => CsiNoErase(p, rest, i);
    }
  }

  lemma CsiErase(p: Piece, rest: string)
    requires WellFormed(p) && p.Csi?
    ensures StartsErase(RenderOne(p) + rest) ==> IsErase(p)
  {
    var pars, mids, f, s := p.parameters, p.intermediates, p.final, RenderOne(p) + rest;
    assert pars == "" && mids == "" ==> s[2] == f;
    assert pars == "" && mids != "" ==> s[2] == mids[0] && mids[0] in mids;
    assert pars != "" ==> s[2] == pars[0];
    assert |pars| > 1 ==> s[3] == pars[1] && pars[1] in pars;
    assert |pars| == 1 && mids != "" ==> s[3] == mids[0] && mids[0] in mids;
    assert |pars| == 1 && mids == "" ==> s[3] == f;
  }

  lemma CsiNoErase(p: Piece, rest: string, i: nat)
    requires WellFormed(p) && p.Csi? && !IsErase(p) && i < |RenderOne(p)|
    ensures !StartsErase((RenderOne(p) + rest)[i..])
  {
    var t := RenderOne(p);
    var s := t + rest;
    if i == 0 {
      CsiErase(p, rest);
      assert s[0..] == s;
    } else {
      var a := 2 + |p.parameters|;
      assert 2 <= i < a ==> t[i] == p.parameters[i - 2] && p.parameters[i - 2] in p.parameters;
      assert a <= i < |t| - 1 ==> t[i] == p.intermediates[i - a] && p.intermediates[i - a] in p.intermediates;
      assert s[i..][0] == t[i] && t[i] != ESC;
    }
  }

  lemma EraseOver(rest: string)
    ensures var s := RenderOne(Csi("2", "", 'K')) + rest;
      StartsErase(s) && HasErase(s) && AfterLastErase(s) == AfterLastErase(rest)
  {
    var s := RenderOne(Csi("2", "", 'K')) + rest;
    assert s[0] == ESC && s[1] == '[' && s[2] == '2' && s[3] == 'K';
    assert s[4..] == rest;
  }

  lemma {:induction false} NoErasePiece(ps: seq<Piece>)
    requires AllWellFormed(ps)
    ensures HasErase(Render(ps)) <==> HasErasePiece(ps)
  {
    if ps != [] {
      var p, rest := ps[0], Render(ps[1..]);
      NoErasePiece(ps[1..]);
      if IsErase(p) {
        EraseOver(rest);
      } else {
        assert p in ps;
        OtherPieces(p, rest);
        SkipNoErase(RenderOne(p) + rest, |RenderOne(p)|);
        assert (RenderOne(p) + rest)[|RenderOne(p)|..] == rest;
      }
    }
  }

  /** Cutting the text behind the last erase sequence is cutting the pieces there. */
  lemma {:induction false} ErasePass(ps: seq<Piece>)
    requires AllWellFormed(ps)
    ensures AfterLastErase(Render(ps)) == Render(AfterErase(ps))
  {
    if ps != [] {
      var p, rest := ps[0], Render(ps[1..]);
      var s := RenderOne(p) + rest;
      ErasePass(ps[1..]);
      NoErasePiece(ps);
      NoErasePiece(ps[1..]);
      if IsErase(p) {
        EraseOver(rest);
      } else if HasErasePiece(ps[1..]) {
        assert p in ps;
        OtherPieces(p, rest);
        SkipNoErase(s, |RenderOne(p)|);
        assert s[|RenderOne(p)|..] == rest;
      } else {
        assert !StartsErase(s);
      }
    }
  }

  lemma {:induction false} WithoutAppend(a: string, b: string, c: char)
    ensures Without(a + b, c) == Without(a, c) + Without(b, c)
  {
    if a == "" {
      assert a + b == b;
    } else {
      assert (a + b)[1..] == a[1..] + b;
      WithoutAppend(a[1..], b, c);
    }
  }

  lemma {:induction false} WithoutMembers(s: string, c: char)
    ensures forall x :: x in Without(s, c) ==> x in s
  {
    if s != "" { WithoutMembers(s[1..], c); }
  }

  lemma DropReturnsPiece(p: Piece)
    requires WellFormed(p)
    ensures WellFormed(DropReturns(p)) && Without(RenderOne(p), '\r') == RenderOne(DropReturns(p))
  {
    match p
    case Plain(text) => WithoutMembers(text, '\r');
    case Csi(pars, mids, f) =>
      var t := RenderOne(p);
      assert forall i :: 2 <= i < 2 + |pars| ==> t[i] == pars[i - 2];
      assert forall i :: 2 + |pars| <= i < |t| - 1 ==> t[i] == mids[i - 2 - |pars|];
      assert '\r' !in t;
    case Osc(body, bel) =>
      var close := if bel then [BEL] else ST;
      WithoutMembers(body, '\r');
      WithoutAppend([ESC, ']'] + body, close, '\r');
      WithoutAppend([ESC, ']'], body, '\r');
      assert Without([ESC, ']'], '\r') == [ESC, ']'] && Without(close, '\r') == close;
  }

  lemma {:induction false} ReturnPass(ps: seq<Piece>)
    requires AllWellFormed(ps)
    ensures AllWellFormed(NoReturns(ps))
    ensures Without(Render(ps), '\r') == Render(NoReturns(ps))
    ensures Without(Visible(ps), '\r') == Visible(NoReturns(ps))
  {
    if ps != [] {
      var p, rest := ps[0], NoReturns(ps[1..]);
      assert p in ps;
      ReturnPass(ps[1..]);
      DropReturnsPiece(p);
      WithoutAppend(RenderOne(p), Render(ps[1..]), '\r');
      WithoutAppend(if p.Plain? then p.text else "", Visible(ps[1..]), '\r');
      assert ([DropReturns(p)] + rest)[1..] == rest;
    }
  }

  /**
   * With the pre-pass, what is shown is the visible text behind the last erase sequence, without
   * carriage returns, under the same condition.
   */
  lemma StripAnsiShowsLastLine(ps: seq<Piece>)
    requires AllWellFormed(ps)
    ensures StripAnsi(Render(ps), true) == Without(Visible(AfterErase(ps)), '\r') <==>
      Intact(NoCsi(NoReturns(AfterErase(ps))))
  {
    var kept := AfterErase(ps);
    ErasePass(ps);
    ReturnPass(kept);
    assert StripAnsi(Render(ps), true) == StripAnsi(Render(NoReturns(kept)), false);
    StripAnsiShowsVisible(NoReturns(kept));
  }
}
