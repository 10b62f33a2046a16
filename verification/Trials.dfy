/** Grouping the outcomes of repeated trials, as the aggregator and as the exporters do it. */
module Trials {
  import opened Prelude
  import Dict

  datatype Score = Score(group: string, name: string, passed: bool)

  // ----- the trial suffix -----

  const SUFFIX: string := "__trial_"

  predicate IsDigit(c: char) { '0' <= c <= '9' }
  predicate AllDigits(s: string) { forall c :: c in s ==> IsDigit(c) }

  /** Where the run of digits that ends `name` starts. */
  function DigitsStart(name: string): (k: nat)
    ensures k <= |name| && AllDigits(name[k..])
    ensures k > 0 ==> !IsDigit(name[k - 1])
  {
    if name == "" || !IsDigit(name[|name| - 1]) then |name|
    else
      var k := DigitsStart(name[..|name| - 1]);
      assert name[k..] == name[..|name| - 1][k..] + [name[|name| - 1]];
      k
  }

  /** `TRIAL_SUFFIX_RE.search`: where `__trial_<digits>` at the end of the name starts. */
  function SuffixStart(name: string): Option<nat> {
    var k := DigitsStart(name);
    if k < |name| && k >= 8 && name[k - 8..k] == SUFFIX then Some(k - 8) else None
  }

  function Base(name: string): string {
    match SuffixStart(name) case Some(k) => name[..k] case None => name
  }

  lemma {:induction false} DigitsStartExact(a: string, digits: string)
    requires AllDigits(digits) && (a == "" || !IsDigit(a[|a| - 1]))
    ensures DigitsStart(a + digits) == |a|
  {
    var s := a + digits;
    if digits == "" {
      assert s == a;
    } else {
      assert s[..|s| - 1] == a + digits[..|digits| - 1];
      assert s[|s| - 1] == digits[|digits| - 1] && digits[|digits| - 1] in digits;
      DigitsStartExact(a, digits[..|digits| - 1]);
    }
  }

  lemma ThreeParts(s: string, a: nat, b: nat)
    requires a <= b <= |s|
    ensures s == s[..a] + s[a..b] + s[b..]
  {
    assert s[..b] == s[..a] + s[a..b];
    assert s == s[..b] + s[b..];
  }

  lemma SuffixSplits(name: string)
    requires SuffixStart(name).Some?
    ensures var k := DigitsStart(name);
      k < |name| && AllDigits(name[k..]) && name == Base(name) + SUFFIX + name[k..]
  {
    var k := DigitsStart(name);
    ThreeParts(name, k - 8, k);
  }

  lemma SuffixFound(base: string, digits: string)
    requires digits != "" && AllDigits(digits)
    ensures var name := base + SUFFIX + digits; SuffixStart(name) == Some(|base|) && Base(name) == base
  {
    var front := base + SUFFIX;
    var name := front + digits;
    assert front[|front| - 1] == '_';
    DigitsStartExact(front, digits);
    assert name[|front| - 8..|front|] == SUFFIX;
    assert name[..|base|] == base;
  }

  /** The suffix is stripped from exactly the names that end in it, and leaves what stood before it. */
  lemma BaseIff(name: string, base: string)
    ensures SuffixStart(name) == Some(|base|) && Base(name) == base <==>
      exists digits :: digits != "" && AllDigits(digits) && name == base + SUFFIX + digits
  {
    if SuffixStart(name) == Some(|base|) && Base(name) == base { SuffixSplits(name); }
    forall digits | digits != "" && AllDigits(digits) && name == base + SUFFIX + digits
      ensures SuffixStart(name) == Some(|base|) && Base(name) == base
    {
      SuffixFound(base, digits);
    }
  }

  // ----- keys -----

  function Key(s: Score): string { s.group + "/" + Base(s.name) }

  /** A name without a slash is separated from its group by the last slash of the key. */
  lemma KeyInjective(g1: string, b1: string, g2: string, b2: string)
    requires '/' !in b1 && '/' !in b2
    ensures g1 + "/" + b1 == g2 + "/" + b2 ==> g1 == g2 && b1 == b2
  {
    if g1 + "/" + b1 == g2 + "/" + b2 {
      SlashPosition(g1, b1, g2, b2);
      SlashPosition(g2, b2, g1, b1);
      var k := g1 + "/" + b1;
      assert k[..|g1|] == g1 && k[..|g2|] == g2 && k[|g1| + 1..] == b1 && k[|g2| + 1..] == b2;
    }
  }

  lemma SlashPosition(g1: string, b1: string, g2: string, b2: string)
    requires '/' !in b1 && g1 + "/" + b1 == g2 + "/" + b2
    ensures |g2| <= |g1|
  {
    var k := g1 + "/" + b1;
    assert k == g2 + "/" + b2;
    assert k[|g2|] == '/';
    assert forall i :: |g1| < i < |k| ==> k[i] == b1[i - |g1| - 1];
  }

  lemma BaseKeepsOutSlash(name: string)
    requires '/' !in name
    ensures '/' !in Base(name)
  {
  }

  /**
   * For names without a slash, as scenario names are, two scores share a key exactly when they are
   * trials of one scenario of one group.
   */
  lemma SameKeyIff(s: Score, t: Score)
    requires '/' !in s.name && '/' !in t.name
    ensures Key(s) == Key(t) <==> s.group == t.group && Base(s.name) == Base(t.name)
  {
    BaseKeepsOutSlash(s.name);
    BaseKeepsOutSlash(t.name);
    KeyInjective(s.group, Base(s.name), t.group, Base(t.name));
  }

  // ----- the two groupings -----

  function Keys(scores: seq<Score>): set<string> {
    if scores == [] then {} else Keys(scores[..|scores| - 1]) + {Key(scores[|scores| - 1])}
  }

  lemma {:induction false} KeyIn(scores: seq<Score>, s: Score)
    requires s in scores
    ensures Key(s) in Keys(scores)
  {
    var front, last := scores[..|scores| - 1], scores[|scores| - 1];
    if s != last {
      assert scores == front + [last];
      KeyIn(front, s);
    }
  }

  /** The scores with this key, in order. */
  function Members(scores: seq<Score>, key: string): seq<Score> {
    if scores == [] then []
    else Members(scores[..|scores| - 1], key) + if Key(scores[|scores| - 1]) == key then [scores[|scores| - 1]] else []
  }

  function Outcomes(scores: seq<Score>): (r: seq<bool>)
    ensures |r| == |scores| && forall i :: 0 <= i < |r| ==> r[i] == scores[i].passed
  {
    seq(|scores|, i requires 0 <= i < |scores| => scores[i].passed)
  }

  /** Some name carries the suffix. */
  predicate HasTrials(scores: seq<Score>) {
    scores != [] && (HasTrials(scores[..|scores| - 1]) || SuffixStart(scores[|scores| - 1].name).Some?)
  }

  ghost predicate IsGrouping(groups: map<string, seq<bool>>, scores: seq<Score>) {
    groups.Keys == Keys(scores) && forall k :: k in groups ==> groups[k] == Outcomes(Members(scores, k))
  }

  lemma OutcomesAppend(scores: seq<Score>, s: Score, key: string)
    ensures Outcomes(Members(scores + [s], key)) ==
      Outcomes(Members(scores, key)) + if Key(s) == key then [s.passed] else []
  {
    MembersAppend(scores, s, key);
    assert Outcomes(Members(scores, key) + [s]) == Outcomes(Members(scores, key)) + [s.passed];
  }

  /** `groups.setdefault(key, []).append(passed)`. */
  function Record(groups: map<string, seq<bool>>, key: string, passed: bool): map<string, seq<bool>> {
    groups[key := (if key in groups then groups[key] else []) + [passed]]
  }

  lemma RecordOne(groups: map<string, seq<bool>>, scores: seq<Score>, s: Score, key: string, k: string)
    requires IsGrouping(groups, scores) && key == Key(s) && (k == key || k in groups)
    ensures Record(groups, key, s.passed)[k] == Outcomes(Members(scores + [s], k))
  {
    OutcomesAppend(scores, s, k);
    MembersEmpty(scores, k);
  }

  lemma RecordGroups(groups: map<string, seq<bool>>, scores: seq<Score>, s: Score, key: string)
    requires IsGrouping(groups, scores) && key == Key(s)
    ensures IsGrouping(Record(groups, key, s.passed), scores + [s])
  {
    var after := Record(groups, key, s.passed);
    assert after.Keys == Keys(scores + [s]) by { KeysAppend(scores, s); }
    forall k | k in after ensures after[k] == Outcomes(Members(scores + [s], k)) {
      RecordOne(groups, scores, s, key, k);
    }
  }

  lemma MembersAppend(scores: seq<Score>, s: Score, key: string)
    ensures Members(scores + [s], key) == Members(scores, key) + if Key(s) == key then [s] else []
  {
    assert (scores + [s])[..|scores|] == scores;
  }

  lemma HasTrialsAppend(scores: seq<Score>, s: Score)
    ensures HasTrials(scores + [s]) <==> HasTrials(scores) || SuffixStart(s.name).Some?
  {
    assert (scores + [s])[..|scores|] == scores;
  }

  lemma PrefixNext<T>(xs: seq<T>, i: nat)
    requires i < |xs|
    ensures xs[..i + 1] == xs[..i] + [xs[i]]
  {
  }

  lemma RecordNext(groups: map<string, seq<bool>>, scores: seq<Score>, i: nat, key: string)
    requires i < |scores| && IsGrouping(groups, scores[..i]) && key == Key(scores[i])
    ensures IsGrouping(Record(groups, key, scores[i].passed), scores[..i + 1])
  {
    PrefixNext(scores, i);
    RecordGroups(groups, scores[..i], scores[i], key);
  }

  lemma HasTrialsNext(scores: seq<Score>, i: nat)
    requires i < |scores|
    ensures HasTrials(scores[..i + 1]) <==> HasTrials(scores[..i]) || SuffixStart(scores[i].name).Some?
  {
    PrefixNext(scores, i);
    HasTrialsAppend(scores[..i], scores[i]);
  }

  /** The loop body for the score at position `i`. */
  method RecordScore(groups: map<string, seq<bool>>, hasTrials: bool, scores: seq<Score>, i: nat)
      returns (groups': map<string, seq<bool>>, hasTrials': bool)
    requires i < |scores| && IsGrouping(groups, scores[..i]) && hasTrials == HasTrials(scores[..i])
    ensures IsGrouping(groups', scores[..i + 1]) && hasTrials' == HasTrials(scores[..i + 1])
  {
    var s := scores[i];
    var isTrial := SuffixStart(s.name).Some?;
    var key := if isTrial then s.group + "/" + Base(s.name) else s.group + "/" + s.name;
    RecordNext(groups, scores, i, key);
    HasTrialsNext(scores, i);
    groups' := Record(groups, key, s.passed);
    hasTrials' := hasTrials || isTrial;
  }

  /** The aggregator's loop: pass/fail lists by key, and whether any name carries the suffix. */
  method GroupOutcomes(scores: seq<Score>) returns (groups: map<string, seq<bool>>, hasTrials: bool)
    ensures IsGrouping(groups, scores)
    ensures hasTrials <==> HasTrials(scores)
  {
    groups, hasTrials := map[], false;
    for i := 0 to |scores|
      invariant IsGrouping(groups, scores[..i])
      invariant hasTrials == HasTrials(scores[..i])
    {
      groups, hasTrials := RecordScore(groups, hasTrials, scores, i);
    }
    assert scores[..|scores|] == scores;
  }

  lemma KeysAppend(scores: seq<Score>, s: Score)
    ensures Keys(scores + [s]) == Keys(scores) + {Key(s)}
  {
    assert (scores + [s])[..|scores|] == scores;
  }

  lemma {:induction false} MembersEmpty(scores: seq<Score>, key: string)
    ensures Members(scores, key) == [] <==> key !in Keys(scores)
  {
    if scores != [] { MembersEmpty(scores[..|scores| - 1], key); }
  }

  /** `groups.setdefault(key, []).append(s)`. */
  function Append(groups: Dict.Dict<seq<Score>>, key: string, s: Score): Dict.Dict<seq<Score>> {
    Dict.Put(groups, key, MembersIn(groups, key) + [s])
  }

  function MembersIn(groups: Dict.Dict<seq<Score>>, key: string): seq<Score> {
    var members := Dict.Get(groups, key); if members.Some? then members.value else []
  }

  function Collapsed(scores: seq<Score>): Dict.Dict<seq<Score>> {
    if scores == [] then []
    else
      var s := scores[|scores| - 1];
      Append(Collapsed(scores[..|scores| - 1]), Key(s), s)
  }

  /** The exporters' loop. */
  method CollapseTrials(scores: seq<Score>) returns (groups: Dict.Dict<seq<Score>>)
    ensures groups == Collapsed(scores)
  {
    groups := [];
    for i := 0 to |scores|
      invariant groups == Collapsed(scores[..i])
    {
      var base := Base(scores[i].name);
      var key := scores[i].group + "/" + base;
      assert scores[..i + 1][..i] == scores[..i];
      groups := Append(groups, key, scores[i]);
    }
    assert scores[..|scores|] == scores;
  }

  /** Every key of the scores has one group, holding the scores with that key in order. */
  ghost predicate Grouped(groups: Dict.Dict<seq<Score>>, scores: seq<Score>) {
    && Dict.Distinct(groups) && Dict.Keys(groups) == Keys(scores)
    && forall key :: MembersIn(groups, key) == Members(scores, key)
  }

  /** The exporters' groups are the aggregator's: same keys, and under each the same trials in the same order. */
  lemma {:induction false} CollapsedGroups(scores: seq<Score>)
    ensures Grouped(Collapsed(scores), scores)
  {
    if scores != [] {
      var last := |scores| - 1;
      var front, s := scores[..last], scores[last];
      CollapsedGroups(front);
      assert scores == front + [s];
      CollapsedStep(front, s);
    }
  }

  lemma CollapsedStep(front: seq<Score>, s: Score)
    requires Grouped(Collapsed(front), front)
    ensures Grouped(Append(Collapsed(front), Key(s), s), front + [s])
  {
    var before, key := Collapsed(front), Key(s);
    var members := MembersIn(before, key) + [s];
    Dict.PutDistinct(before, key, members);
    Dict.PutKeys(before, key, members);
    KeysAppend(front, s);
    forall k ensures MembersIn(Append(before, key, s), k) == Members(front + [s], k) {
      Dict.GetPut(before, key, members, k);
      MembersAppend(front, s, k);
    }
  }

  /** Some score has the first key, and none before it has the second. */
  ghost predicate SeenBefore(scores: seq<Score>, first: string, second: string) {
    exists m :: 0 <= m < |scores| && Key(scores[m]) == first && forall n :: 0 <= n <= m ==> Key(scores[n]) != second
  }

  ghost predicate FirstSeenOrder(groups: Dict.Dict<seq<Score>>, scores: seq<Score>) {
    forall i, j :: 0 <= i < j < |groups| ==> SeenBefore(scores, groups[i].key, groups[j].key)
  }

  lemma SeenStays(scores: seq<Score>, s: Score, first: string, second: string)
    requires SeenBefore(scores, first, second)
    ensures SeenBefore(scores + [s], first, second)
  {
    var m :| 0 <= m < |scores| && Key(scores[m]) == first && forall n :: 0 <= n <= m ==> Key(scores[n]) != second;
    assert forall n :: 0 <= n <= m ==> (scores + [s])[n] == scores[n];
  }

  lemma {:induction false} KeyFrom(scores: seq<Score>, key: string)
    requires key in Keys(scores)
    ensures exists m :: 0 <= m < |scores| && Key(scores[m]) == key
  {
    if Key(scores[|scores| - 1]) != key { KeyFrom(scores[..|scores| - 1], key); }
  }

  lemma SeenFirst(scores: seq<Score>, first: string, second: string)
    requires first in Keys(scores) && second !in Keys(scores)
    ensures SeenBefore(scores, first, second)
  {
    KeyFrom(scores, first);
    var m :| 0 <= m < |scores| && Key(scores[m]) == first;
    forall n | 0 <= n <= m ensures Key(scores[n]) != second { KeyIn(scores, scores[n]); }
  }

  lemma FirstSeenStep(front: seq<Score>, s: Score)
    requires Grouped(Collapsed(front), front) && FirstSeenOrder(Collapsed(front), front)
    ensures FirstSeenOrder(Append(Collapsed(front), Key(s), s), front + [s])
  {
    var groups, key := Collapsed(front), Key(s);
    var after := Append(groups, key, s);
    Dict.PutPlaces(groups, key, MembersIn(groups, key) + [s]);
    forall i, j | 0 <= i < j < |after| ensures SeenBefore(front + [s], after[i].key, after[j].key) {
      if j < |groups| {
        assert SeenBefore(front, groups[i].key, groups[j].key);
      } else {
        assert groups[i].key in Dict.Keys(groups);
        SeenFirst(front, groups[i].key, key);
      }
      SeenStays(front, s, after[i].key, after[j].key);
    }
  }

  /** The groups come in the order in which their keys were first seen. */
  lemma {:induction false} CollapsedInOrder(scores: seq<Score>)
    ensures FirstSeenOrder(Collapsed(scores), scores)
  {
    if scores != [] {
      var front, s := scores[..|scores| - 1], scores[|scores| - 1];
      assert scores == front + [s];
      CollapsedInOrder(front);
      CollapsedGroups(front);
      FirstSeenStep(front, s);
    }
  }

  function Flatten(groups: Dict.Dict<seq<Score>>): seq<Score> {
    if groups == [] then [] else groups[0].value + Flatten(groups[1..])
  }

  lemma {:induction false} FlattenPut(groups: Dict.Dict<seq<Score>>, key: string, s: Score)
    ensures multiset(Flatten(Append(groups, key, s))) == multiset(Flatten(groups)) + multiset{s}
  {
    var after := Append(groups, key, s);
    if groups == [] {
      assert after[1..] == [];
    } else if groups[0].key == key {
      assert after[1..] == groups[1..];
    } else {
      FlattenPut(groups[1..], key, s);
      assert after[1..] == Append(groups[1..], key, s);
    }
  }

  lemma {:induction false} CollapsedElements(scores: seq<Score>)
    ensures multiset(Flatten(Collapsed(scores))) == multiset(scores)
  {
    if scores != [] {
      var front, s := scores[..|scores| - 1], scores[|scores| - 1];
      CollapsedElements(front);
      FlattenPut(Collapsed(front), Key(s), s);
      LastElement(front, s, scores);
    }
  }

  lemma LastElement<T>(front: seq<T>, x: T, all: seq<T>)
    requires all != [] && front == all[..|all| - 1] && x == all[|all| - 1]
    ensures multiset(all) == multiset(front) + multiset{x}
  {
    assert all == front + [x];
  }

  /** No trial is lost or counted twice. */
  lemma CollapsedPermutes(scores: seq<Score>)
    ensures multiset(Flatten(Collapsed(scores))) == multiset(scores)
    ensures |Flatten(Collapsed(scores))| == |scores|
  {
    CollapsedElements(scores);
    var flat := Flatten(Collapsed(scores));
    assert |flat| == |multiset(flat)| == |multiset(scores)| == |scores|;
  }

  /** The aggregator's lists of outcomes are those of the exporters' groups, key by key. */
  lemma GroupingsAgree(groups: map<string, seq<bool>>, scores: seq<Score>)
    requires IsGrouping(groups, scores)
    ensures groups.Keys == Dict.Keys(Collapsed(scores))
    ensures forall k :: k in groups ==> groups[k] == Outcomes(MembersIn(Collapsed(scores), k))
  {
    CollapsedGroups(scores);
  }
}
