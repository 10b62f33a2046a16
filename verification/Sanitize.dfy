/**
 * The escape stripper. The regular expressions become scanners for the match at the
 * front of a string; each is proved to pick the match the pattern's greedy semantics
 * picks, against a declarative reading of the pattern.
 */
module Sanitize {
  import opened Prelude

  const ESC := '\U{1B}'
  const BEL := '\U{07}'

  predicate IsParameter(c: char) { '0' <= c <= '?' }
  predicate IsIntermediate(c: char) { ' ' <= c <= '/' }
  predicate IsFinal(c: char) { '@' <= c <= '~' }
  predicate IsControl(c: char) { c <= '\U{1F}' || c == '\U{7F}' }

  // ----- the two escape patterns -----

  /** `t` is ESC `[`, parameter bytes up to `a`, intermediate bytes, and one final byte. */
  predicate CsiShape(t: string, a: nat) {
    && 2 <= a < |t| && t[0] == ESC && t[1] == '[' && IsFinal(t[|t| - 1])
    && (forall i :: 2 <= i < a ==> IsParameter(t[i]))
    && (forall i :: a <= i < |t| - 1 ==> IsIntermediate(t[i]))
  }

  /** `\x1b\[[0-?]*[ -/]*[@-~]` matches all of `t`. */
  ghost predicate IsCsi(t: string) { exists a: nat :: CsiShape(t, a) }

  /** `\x1b\][^\x07]*(?:\x07|\x1b\\)` matches all of `t`. */
  predicate IsOsc(t: string) {
    && |t| >= 3 && t[0] == ESC && t[1] == ']'
    && ( || (t[|t| - 1] == BEL && BEL !in t[2..|t| - 1])
         || (|t| >= 4 && t[|t| - 2] == ESC && t[|t| - 1] == '\\' && BEL !in t[2..|t| - 2]))
  }

  /** Length of the CSI match at the front of `s`. */
  function CsiLength(s: string): (n: Option<nat>)
    ensures n.Some? ==> 0 < n.value <= |s|
  {
    if |s| < 2 || s[0] != ESC || s[1] != '[' then None else
    var a := 2 + CountWhile(s[2..], IsParameter);
    var b := a + CountWhile(s[a..], IsIntermediate);
    if b < |s| && IsFinal(s[b]) then Some(b + 1) else None
  }

  predicate HasStAt(s: string, k: nat) { k + 1 < |s| && s[k] == ESC && s[k + 1] == '\\' }

  /** Position of the last string terminator ESC `\`, or |s|. */
  function LastSt(s: string): (k: nat)
    ensures k <= |s| && (k < |s| ==> HasStAt(s, k))
    ensures forall j :: 0 <= j < |s| && HasStAt(s, j) ==> k < |s| && j <= k
  {
    if s == "" then 0 else
    var k := LastSt(s[1..]);
    assert forall j :: 0 < j < |s| && HasStAt(s, j) ==> HasStAt(s[1..], j - 1);
    if k < |s[1..]| then 1 + k else if HasStAt(s, 0) then 0 else |s|
  }

  /** Length of the OSC match at the front of `s`: through the next BEL, else through the last ESC `\`. */
  function OscLength(s: string): (n: Option<nat>)
    ensures n.Some? ==> 0 < n.value <= |s|
  {
    if |s| < 2 || s[0] != ESC || s[1] != ']' then None else
    var rest := s[2..];
    var bel := IndexOf(rest, BEL);
    if bel < |rest| then Some(2 + bel + 1) else
    var st := LastSt(rest);
    if st < |rest| then Some(2 + st + 2) else None
  }

  lemma CsiLengthMatches(s: string)
    requires CsiLength(s).Some?
    ensures IsCsi(s[..CsiLength(s).value])
  {
    var a := 2 + CountWhile(s[2..], IsParameter);
    var b := a + CountWhile(s[a..], IsIntermediate);
    var t := s[..b + 1];
    forall i | 2 <= i < a ensures IsParameter(t[i]) { assert t[i] == s[2..][i - 2]; }
    forall i | a <= i < b ensures IsIntermediate(t[i]) { assert t[i] == s[a..][i - a]; }
    assert CsiShape(t, a);
  }

  /** The three classes are disjoint, so a match at the front is unique and greediness is moot. */
  lemma CsiLengthUnique(s: string, n: nat)
    requires n <= |s| && IsCsi(s[..n])
    ensures CsiLength(s) == Some(n)
  {
    var a: nat :| CsiShape(s[..n], a);
    var t := s[..n];
    assert forall i :: 0 <= i < n ==> t[i] == s[i];
    CountWhileExact(s[2..], IsParameter, a - 2);
    CountWhileExact(s[a..], IsIntermediate, n - 1 - a);
  }

  /** The scanner finds a match at the front exactly when there is one, and finds that one. */
  lemma CsiLengthExact(s: string)
    ensures CsiLength(s).Some? ==> IsCsi(s[..CsiLength(s).value])
    ensures forall n :: 0 <= n <= |s| && IsCsi(s[..n]) ==> CsiLength(s) == Some(n)
  {
    if CsiLength(s).Some? { CsiLengthMatches(s); }
    forall n | 0 <= n <= |s| && IsCsi(s[..n]) ensures CsiLength(s) == Some(n) { CsiLengthUnique(s, n); }
  }

  /** The pattern is greedy: among all matches at the front, the scanner takes the longest. */
  lemma OscLengthLongest(s: string)
    ensures OscLength(s).Some? ==> IsOsc(s[..OscLength(s).value])
    ensures forall n :: 0 <= n <= |s| && IsOsc(s[..n]) ==> OscLength(s).Some? && n <= OscLength(s).value
  {
    if OscLength(s).Some? { OscLengthMatches(s); }
    forall n | 0 <= n <= |s| && IsOsc(s[..n]) ensures OscLength(s).Some? && n <= OscLength(s).value {
      OscMatchBounded(s, n);
    }
  }

  lemma OscLengthMatches(s: string)
    requires OscLength(s).Some?
    ensures IsOsc(s[..OscLength(s).value])
  {
    var rest, t := s[2..], s[..OscLength(s).value];
    var bel := IndexOf(rest, BEL);
    if bel < |rest| {
      assert t[2..|t| - 1] == rest[..bel];
    } else {
      var st := LastSt(rest);
      assert t[2..|t| - 2] == rest[..st];
      assert t[|t| - 2] == rest[st] && t[|t| - 1] == rest[st + 1];
    }
  }

  lemma OscMatchBounded(s: string, n: nat)
    requires n <= |s| && IsOsc(s[..n])
    ensures OscLength(s).Some? && n <= OscLength(s).value
  {
    var rest, t := s[2..], s[..n];
    assert t[0] == s[0] && t[1] == s[1];
    assert forall i :: 2 <= i < n ==> t[i] == rest[i - 2];
    if t[n - 1] == BEL && BEL !in t[2..n - 1] {
      assert t[2..n - 1] == rest[..n - 3];
      IndexOfExact(rest, BEL, n - 3);
    } else {
      assert t[2..n - 2] == rest[..n - 4];
      assert forall i :: 0 <= i < n - 4 ==> rest[..n - 4][i] == rest[i];
      IndexOfNotBefore(rest, BEL, n - 2);
      assert HasStAt(rest, n - 4);
    }
  }

  // ----- substitution by the empty string -----

  function StripCsi(s: string): string {
    if s == "" then ""
    else match CsiLength(s)
      case Some(n) => StripCsi(s[n..])
      case None => [s[0]] + StripCsi(s[1..])
  }

  function StripOsc(s: string): string {
    if s == "" then ""
    else match OscLength(s)
      case Some(n) => StripOsc(s[n..])
      case None => [s[0]] + StripOsc(s[1..])
  }

  function StripControls(s: string): (t: string)
    ensures forall c :: c in t ==> !IsControl(c)
    ensures (forall c :: c in s ==> !IsControl(c)) ==> t == s
  {
    if s == "" then "" else (if IsControl(s[0]) then "" else [s[0]]) + StripControls(s[1..])
  }

  function Without(s: string, c: char): (t: string)
    ensures c !in t && (c !in s ==> t == s)
  {
    if s == "" then "" else (if s[0] == c then "" else [s[0]]) + Without(s[1..], c)
  }

  lemma OneMoreOf(c: char, s: string, x: char)
    ensures multiset([c] + s)[x] == multiset(s)[x] + if c == x then 1 else 0
  {
  }

  /** Exactly the control characters go: every other stays as often as it was. */
  lemma {:induction false} ControlsGone(s: string, c: char)
    ensures multiset(StripControls(s))[c] == if IsControl(c) then 0 else multiset(s)[c]
  {
    if s != "" {
      ControlsGone(s[1..], c);
      assert s == [s[0]] + s[1..];
      OneMoreOf(s[0], s[1..], c);
      if IsControl(s[0]) {
        assert StripControls(s) == StripControls(s[1..]);
      } else {
        OneMoreOf(s[0], StripControls(s[1..]), c);
      }
    }
  }

  lemma {:induction false} WithoutOthers(s: string, gone: char, c: char)
    ensures multiset(Without(s, gone))[c] == if c == gone then 0 else multiset(s)[c]
  {
    if s != "" {
      WithoutOthers(s[1..], gone, c);
      assert s == [s[0]] + s[1..];
      OneMoreOf(s[0], s[1..], c);
      if s[0] == gone {
        assert Without(s, gone) == Without(s[1..], gone);
      } else {
        OneMoreOf(s[0], Without(s[1..], gone), c);
      }
    }
  }

  /** What `split` on the erase sequence leaves last. */
  function AfterLastErase(s: string): (t: string)
    ensures |t| <= |s|
  {
    if StartsErase(s) then AfterLastErase(s[4..])
    else if HasErase(s) then AfterLastErase(s[1..])
    else s
  }

  /** The text starts with ESC `[2K`. */
  predicate StartsErase(s: string) { |s| >= 4 && s[0] == ESC && s[1] == '[' && s[2] == '2' && s[3] == 'K' }

  predicate HasErase(s: string) { s != "" && (StartsErase(s) || HasErase(s[1..])) }

  function StripAnsi(s: string, simulateErase: bool): string {
    var s := if simulateErase then Without(AfterLastErase(s), '\r') else s;
    StripOsc(StripCsi(s))
  }

  function Clean(s: string, simulateErase: bool): string {
    StripControls(StripAnsi(s, simulateErase))
  }

  /**
   * The kept segment is what follows the last erase sequence: a suffix, free of it, with one just
   * before unless there is none.
   */
  lemma {:induction false} AfterLastEraseSpec(s: string)
    ensures var t := AfterLastErase(s); var k := |s| - |t|;
      && s[k..] == t && !HasErase(t)
      && (k == 0 || (k >= 4 && StartsErase(s[k - 4..])))
      && (HasErase(s) ==> k > 0)
  {
    var k := |s| - |AfterLastErase(s)|;
    if StartsErase(s) {
      AfterLastEraseSpec(s[4..]);
      assert s[4..][k - 4..] == s[k..];
      if k == 4 { assert s[0..] == s; } else { assert s[4..][k - 8..] == s[k - 4..]; }
    } else if HasErase(s) {
      AfterLastEraseSpec(s[1..]);
      assert s[1..][k - 1..] == s[k..];
      assert s[1..][k - 5..] == s[k - 4..];
    }
  }

  // ----- every string: subsequence, control-free, idempotent -----

  lemma {:induction false} StripCsiSubsequence(s: string)
    ensures Subsequence(StripCsi(s), s)
    decreases |s|
  {
    if s != "" {
      match CsiLength(s)
      case Some(n) =>
        StripCsiSubsequence(s[n..]);
        SubsequenceSkipPrefix(StripCsi(s[n..]), s[..n], s[n..]);
        assert s[..n] + s[n..] == s;
      case None =>
        StripCsiSubsequence(s[1..]);
        SubsequenceKeep(StripCsi(s[1..]), s[0], s[1..]);
        assert [s[0]] + s[1..] == s;
    }
  }

  lemma {:induction false} StripOscSubsequence(s: string)
    ensures Subsequence(StripOsc(s), s)
    decreases |s|
  {
    if s != "" {
      match OscLength(s)
      case Some(n) =>
        StripOscSubsequence(s[n..]);
        SubsequenceSkipPrefix(StripOsc(s[n..]), s[..n], s[n..]);
        assert s[..n] + s[n..] == s;
      case None =>
        StripOscSubsequence(s[1..]);
        SubsequenceKeep(StripOsc(s[1..]), s[0], s[1..]);
        assert [s[0]] + s[1..] == s;
    }
  }

  lemma {:induction false} NothingToStrip(s: string)
    requires ESC !in s
    ensures StripCsi(s) == s && StripOsc(s) == s
  {
    if s != "" {
      assert s[0] != ESC && ESC !in s[1..];
      NothingToStrip(s[1..]);
      assert [s[0]] + s[1..] == s;
    }
  }

  lemma {:induction false} StripControlsSubsequence(s: string)
    ensures Subsequence(StripControls(s), s)
  {
    if s != "" {
      StripControlsSubsequence(s[1..]);
      assert [s[0]] + s[1..] == s;
      if IsControl(s[0]) {
        SubsequenceSkip(StripControls(s[1..]), s[0], s[1..]);
        assert StripControls(s) == StripControls(s[1..]);
      } else {
        SubsequenceKeep(StripControls(s[1..]), s[0], s[1..]);
      }
    }
  }

  lemma {:induction false} WithoutSubsequence(s: string, c: char)
    ensures Subsequence(Without(s, c), s)
  {
    if s != "" {
      WithoutSubsequence(s[1..], c);
      assert [s[0]] + s[1..] == s;
      if s[0] == c {
        SubsequenceSkip(Without(s[1..], c), s[0], s[1..]);
        assert Without(s, c) == Without(s[1..], c);
      } else {
        SubsequenceKeep(Without(s[1..], c), s[0], s[1..]);
      }
    }
  }

  lemma {:induction false} SelfSubsequence(s: string)
    ensures Subsequence(s, s)
  {
    if s != "" { SelfSubsequence(s[1..]); }
  }

  lemma {:induction false} NoEraseWithoutEsc(s: string)
    requires ESC !in s
    ensures !HasErase(s) && AfterLastErase(s) == s
  {
    if s != "" {
      assert s[0] != ESC && ESC !in s[1..];
      NoEraseWithoutEsc(s[1..]);
    }
  }

  /** `sanitize` only removes characters and leaves no control character. */
  lemma CleanRemovesControls(s: string, simulateErase: bool)
    ensures Subsequence(Clean(s, simulateErase), s)
    ensures forall c :: c in Clean(s, simulateErase) ==> !IsControl(c)
  {
    var first := if simulateErase then Without(AfterLastErase(s), '\r') else s;
    if simulateErase { EraseSubsequence(s); } else { SelfSubsequence(s); }
    var second := StripCsi(first);
    var third := StripOsc(second);
    StripCsiSubsequence(first);
    SubsequenceTransitive(second, first, s);
    StripOscSubsequence(second);
    SubsequenceTransitive(third, second, s);
    StripControlsSubsequence(third);
    SubsequenceTransitive(StripControls(third), third, s);
  }

  lemma SuffixSubsequence(s: string, k: nat)
    requires k <= |s|
    ensures Subsequence(s[k..], s)
  {
    SelfSubsequence(s[k..]);
    SubsequenceSkipPrefix(s[k..], s[..k], s[k..]);
    assert s[..k] + s[k..] == s;
  }

  lemma EraseSubsequence(s: string)
    ensures Subsequence(Without(AfterLastErase(s), '\r'), s)
  {
    var t := AfterLastErase(s);
    assert Subsequence(t, s) by {
      AfterLastEraseSpec(s);
      SuffixSubsequence(s, |s| - |t|);
    }
    WithoutSubsequence(t, '\r');
    SubsequenceTransitive(Without(t, '\r'), t, s);
  }

  /** Of a text without escape sequences, `sanitize` leaves every character that is no control, as often as it was. */
  lemma CleanKeepsTheRest(s: string, simulateErase: bool, c: char)
    requires ESC !in s
    ensures multiset(Clean(s, simulateErase))[c] == if IsControl(c) then 0 else multiset(s)[c]
  {
    NoEraseWithoutEsc(s);
    var first := if simulateErase then Without(s, '\r') else s;
    if simulateErase {
      WithoutSubsequence(s, '\r');
      WithoutOthers(s, '\r', ESC);
      WithoutOthers(s, '\r', c);
      assert multiset(first)[ESC] == 0;
    }
    NothingToStrip(first);
    ControlsGone(first, c);
  }

  /** A text without control characters, such as any sanitised one, passes through both modes unchanged. */
  lemma CleanFixesControlFree(s: string, simulateErase: bool)
    requires forall c :: c in s ==> !IsControl(c)
    ensures Clean(s, simulateErase) == s
  {
    assert ESC !in s && '\r' !in s;
    NoEraseWithoutEsc(s);
    NothingToStrip(s);
  }

  lemma CleanIdempotent(s: string, first: bool, second: bool)
    ensures Clean(Clean(s, first), second) == Clean(s, first)
  {
    CleanFixesControlFree(Clean(s, first), second);
  }
}
