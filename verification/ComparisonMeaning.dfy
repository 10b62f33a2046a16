/** What a comparison shows, in terms of the tokens the judges gave and of the scenarios of the two runs. */
module ComparisonMeaning {
  import opened Prelude
  import opened Ordering
  import opened Dict
  import opened Compare

  // ----- the tokens that compete -----

  predicate Recognised(p: Payload) {
    && p.Payload?
    && ("llm.v" <= p.version || "per_turn_llm.v" <= p.version || p.dims.Some? || p.turns != Missing)
  }

  predicate Gives(dims: seq<Dim>, dim: string, token: Option<string>) { Dim(dim, Token(token)) in dims }

  predicate GivenOnTurn(turns: seq<Option<seq<Dim>>>, dim: string, token: string) {
    exists turn :: turn in turns && turn.Some? && Gives(turn.value, dim, Some(token))
  }

  /** A judge gave the token: on some turn if it lists turns, where empty ones are passed over, or else on the whole. */
  predicate GivenBy(p: Payload, dim: string, token: string) {
    && Recognised(p)
    && if p.turns.List? then token != "" && GivenOnTurn(p.turns.turns, dim, token)
       else p.dims.Some? && Gives(p.dims.value, dim, Some(token))
  }

  lemma {:induction false} TurnTokensExact(dims: seq<Dim>, dim: string, token: string)
    ensures token in TurnTokens(dims, dim) <==> token != "" && Gives(dims, dim, Some(token))
  {
    if dims != [] {
      var front, d := dims[..|dims| - 1], dims[|dims| - 1];
      TurnTokensExact(front, dim, token);
      assert dims == front + [d];
      assert Gives(dims, dim, Some(token)) <==> Gives(front, dim, Some(token)) || d == Dim(dim, Token(Some(token)));
    }
  }

  lemma {:induction false} TurnsTokensExact(turns: seq<Option<seq<Dim>>>, dim: string, token: string)
    ensures token in TurnsTokens(turns, dim) <==> token != "" && GivenOnTurn(turns, dim, token)
  {
    if turns != [] {
      var front, last := turns[..|turns| - 1], turns[|turns| - 1];
      TurnsTokensExact(front, dim, token);
      TurnTokensExact(DimsOf(last), dim, token);
      assert turns == front + [last];
      assert forall turn :: turn in turns <==> turn in front || turn == last;
    }
  }

  lemma {:induction false} WholeTokensExact(dims: seq<Dim>, dim: string, token: string)
    ensures token in RowTokens(WholeRows(dims), dim) <==> Gives(dims, dim, Some(token))
  {
    if dims != [] {
      var front, d := dims[..|dims| - 1], dims[|dims| - 1];
      WholeTokensExact(front, dim, token);
      assert dims == front + [d];
      RowTokensAppend(WholeRows(front), d, dim);
    }
  }

  lemma RowTokensAppend(rows: seq<Row>, d: Dim, dim: string)
    ensures RowTokens(rows + (if d.vote.Token? then [Row(d.name, d.vote.token)] else []), dim) ==
      RowTokens(rows, dim) + if d.name == dim && d.vote.Token? && d.vote.token.Some? then [d.vote.token.value] else []
  {
    if d.vote.Token? {
      RowTokensConcat(rows, [Row(d.name, d.vote.token)], dim);
      RowTokensCons(Row(d.name, d.vote.token), [], dim);
    } else {
      assert rows + [] == rows;
    }
  }

  lemma PayloadTokensExact(p: Payload, dim: string, token: string)
    ensures token in PayloadTokens(p, dim) <==> GivenBy(p, dim, token)
  {
    if LlmShaped(p) {
      if p.turns.List? {
        TurnsTokensExact(p.turns.turns, dim, token);
      } else {
        WholeTokensExact(if p.dims.Some? then p.dims.value else [], dim, token);
      }
    }
  }

  predicate Given(payloads: seq<Payload>, dim: string, token: string) {
    exists p :: p in payloads && GivenBy(p, dim, token)
  }

  lemma GivenAppend(payloads: seq<Payload>, p: Payload, dim: string, token: string)
    ensures Given(payloads + [p], dim, token) <==> Given(payloads, dim, token) || GivenBy(p, dim, token)
  {
    assert forall q :: q in payloads + [p] <==> q in payloads || q == p;
  }

  lemma TokensNext(front: seq<Payload>, last: Payload, dim: string, token: string)
    ensures token in AllTokens(front + [last], dim) <==>
      token in AllTokens(front, dim) || token in PayloadTokens(last, dim)
  {
    assert (front + [last])[..|front|] == front;
  }

  /** The tokens that compete are those that some recognised judge gave. */
  lemma {:induction false} TokensExact(payloads: seq<Payload>, dim: string, token: string)
    ensures token in AllTokens(payloads, dim) <==> Given(payloads, dim, token)
  {
    if payloads != [] {
      var front, last := payloads[..|payloads| - 1], payloads[|payloads| - 1];
      assert payloads == front + [last];
      TokensExact(front, dim, token);
      TokensNext(front, last, dim, token);
      PayloadTokensExact(last, dim, token);
      GivenAppend(front, last, dim, token);
    }
  }

  // ----- the one that is shown -----

  predicate IsFailing(token: string) { token == "fail" || token == "low" }
  predicate IsMiddling(token: string) { token != "high" && token != "pass" }

  ghost predicate FirstAt(tokens: seq<string>, p: string -> bool, t: string, i: nat) {
    i < |tokens| && tokens[i] == t && p(t) && forall j :: 0 <= j < i ==> !p(tokens[j])
  }

  /** `t` is the first of the tokens that satisfies `p`. */
  ghost predicate First(tokens: seq<string>, p: string -> bool, t: string) { exists i: nat :: FirstAt(tokens, p, t, i) }

  /** An inconclusive token before all others, then a failing one, then one that is neither high nor pass. */
  ghost predicate Shown(tokens: seq<string>, t: string) {
    if "inconclusive" in tokens then t == "inconclusive"
    else if exists x :: x in tokens && IsFailing(x) then First(tokens, IsFailing, t)
    else if exists x :: x in tokens && IsMiddling(x) then First(tokens, IsMiddling, t)
    else tokens != [] && t == tokens[0]
  }

  lemma RankOrder(x: string, y: string)
    ensures x == "inconclusive" ==> Rank(x) <= Rank(y) && (Rank(y) <= Rank(x) <==> y == "inconclusive")
    ensures x != "inconclusive" && y != "inconclusive" && IsFailing(x) ==>
      Rank(x) <= Rank(y) && (Rank(y) <= Rank(x) <==> IsFailing(y))
    ensures !IsFailing(x) && !IsFailing(y) && x != "inconclusive" && y != "inconclusive" && IsMiddling(x) ==>
      Rank(x) <= Rank(y) && (Rank(y) <= Rank(x) <==> IsMiddling(y))
    ensures !IsMiddling(x) && !IsMiddling(y) ==> Rank(x) == Rank(y)
  {
  }

  lemma LeastIsShown(tokens: seq<string>, t: string, i: nat)
    requires FirstLeast(tokens, t, i)
    ensures Shown(tokens, t)
  {
    forall j | 0 <= j < |tokens|
      ensures tokens[j] == "inconclusive" ==> t == "inconclusive"
      ensures t != "inconclusive" && IsFailing(tokens[j]) ==> IsFailing(t) && i <= j
      ensures t != "inconclusive" && !IsFailing(t) && IsMiddling(tokens[j]) ==> IsMiddling(t) && i <= j
      ensures !IsMiddling(t) ==> !IsMiddling(tokens[j]) && i == 0
    {
      RankOrder(tokens[j], t);
      RankOrder(t, tokens[j]);
      RankOrder(t, tokens[0]);
    }
    assert t in tokens;
    if t != "inconclusive" && IsFailing(t) { assert FirstAt(tokens, IsFailing, t, i); }
    if t != "inconclusive" && IsMiddling(t) && !IsFailing(t) { assert FirstAt(tokens, IsMiddling, t, i); }
  }

  /** The score of a dimension over everything any judge said on any turn, in terms of the tokens alone. */
  lemma ScoreShown(s: Scenario, dim: string)
    ensures LlmScore(s, dim).None? <==> AllTokens(s.payloads, dim) == []
    ensures LlmScore(s, dim).Some? ==> Shown(AllTokens(s.payloads, dim), LlmScore(s, dim).value)
  {
    ScoreIsGlobalMinimum(s, dim);
    if LlmScore(s, dim).Some? {
      var i: nat :| FirstLeast(AllTokens(s.payloads, dim), LlmScore(s, dim).value, i);
      LeastIsShown(AllTokens(s.payloads, dim), LlmScore(s, dim).value, i);
    }
  }

  // ----- differences -----

  predicate OnScale(score: Option<string>) { score == Some("low") || score == Some("medium") || score == Some("high") }

  /** Low to high is two steps up, to and from medium one; everything else off the scale has no difference. */
  lemma DeltaExact(a: Option<string>, b: Option<string>)
    ensures DeltaOf(a, b).Some? <==> OnScale(a) && OnScale(b)
    ensures DeltaOf(a, b) == Some(2) <==> a == Some("low") && b == Some("high")
    ensures DeltaOf(a, b) == Some(1) <==>
      (a == Some("low") && b == Some("medium")) || (a == Some("medium") && b == Some("high"))
    ensures DeltaOf(a, b) == Some(0) <==> OnScale(a) && a == b
    ensures DeltaOf(a, b) == Some(-1) <==> DeltaOf(b, a) == Some(1)
    ensures DeltaOf(a, b) == Some(-2) <==> DeltaOf(b, a) == Some(2)
    ensures DeltaOf(a, b).Some? ==> -2 <= DeltaOf(a, b).value <= 2
  {
  }

  // ----- lines -----

  ghost predicate FirstScores(ds: seq<Delta>, s: Option<Scenario>) {
    forall j :: 0 <= j < |ds| ==> ds[j].a == if s.Some? then LlmScore(s.value, ds[j].dim) else None
  }

  ghost predicate SecondScores(ds: seq<Delta>, s: Option<Scenario>) {
    forall j :: 0 <= j < |ds| ==> ds[j].b == if s.Some? then LlmScore(s.value, ds[j].dim) else None
  }

  /** On either side a line has the outcome and the scores of a scenario, or nothing; and it has the differences. */
  ghost predicate Shows(l: Line, x: Option<Scenario>, y: Option<Scenario>, dims: seq<string>) {
    && (l.inA <==> x.Some?) && l.aPass == (if x.Some? then x.value.passed else None) && FirstScores(l.deltas, x)
    && (l.inB <==> y.Some?) && l.bPass == (if y.Some? then y.value.passed else None) && SecondScores(l.deltas, y)
    && |l.deltas| == |dims| && (forall j :: 0 <= j < |dims| ==> l.deltas[j].dim == dims[j])
    && forall j :: 0 <= j < |dims| ==> l.deltas[j].delta == DeltaOf(l.deltas[j].a, l.deltas[j].b)
  }

  /** The scenario that stands for a key: the last with it, if any. */
  ghost predicate LastWith(scenarios: seq<Scenario>, key: string, s: Option<Scenario>) {
    match s
    case None => forall x :: x in scenarios ==> Key(x) != key
    case Some(x) => exists i: nat :: LastOfKey(scenarios, i) && Key(scenarios[i]) == key && scenarios[i] == x
  }

  lemma {:induction false} LastFound(scenarios: seq<Scenario>, key: string)
    ensures LastWith(scenarios, key, Get(ByKey(scenarios), key))
  {
    if scenarios != [] {
      var front, last := scenarios[..|scenarios| - 1], scenarios[|scenarios| - 1];
      LastFound(front, key);
      GetPut(ByKey(front), Key(last), last, key);
      assert scenarios == front + [last];
      if Key(last) == key {
        assert LastOfKey(scenarios, |front|);
      } else {
        LastStays(front, last, key, Get(ByKey(front), key));
      }
    }
  }

  lemma LastStays(front: seq<Scenario>, last: Scenario, key: string, s: Option<Scenario>)
    requires LastWith(front, key, s) && Key(last) != key
    ensures LastWith(front + [last], key, s)
  {
    if s.Some? {
      var i: nat :| LastOfKey(front, i) && Key(front[i]) == key && front[i] == s.value;
      assert LastOfKey(front + [last], i);
    }
  }

  /** Lines come in the order of their keys, one for each that some scenario of either side has. */
  ghost predicate OneLinePerKey(lines: seq<Line>, keys: set<string>) {
    && (forall i, j :: 0 <= i < j < |lines| ==> lines[i].key != lines[j].key && Le(lines[i].key, lines[j].key))
    && (forall key :: key in keys <==> exists i :: 0 <= i < |lines| && lines[i].key == key)
  }

  lemma LinesByKey(keys: set<string>, a: Dict<Scenario>, b: Dict<Scenario>, dims: seq<string>)
    ensures OneLinePerKey(Lines(Sorted(keys), a, b, dims), keys)
  {
    var sorted, lines := Sorted(keys), Lines(Sorted(keys), a, b, dims);
    SortedAscends(keys);
    forall key ensures key in keys <==> exists i :: 0 <= i < |lines| && lines[i].key == key {
      if key in keys {
        assert key in sorted;
        var i :| 0 <= i < |sorted| && sorted[i] == key;
        assert lines[i].key == key;
      }
      if i :| 0 <= i < |lines| && lines[i].key == key { assert sorted[i] in sorted; }
    }
  }

  lemma LineShows(key: string, a: Option<Scenario>, b: Option<Scenario>, dims: seq<string>)
    ensures Shows(LineOf(key, a, b, dims), a, b, dims)
  {
  }

  /** The line shows the last scenario with its key of either run, and its outcome and scores. */
  ghost predicate ShowsRuns(l: Line, a: Run, b: Run, dims: seq<string>) {
    exists x, y :: LastWith(a.scenarios, l.key, x) && LastWith(b.scenarios, l.key, y) && Shows(l, x, y, dims)
  }

  lemma LinesShow(keys: seq<string>, a: Dict<Scenario>, b: Dict<Scenario>, dims: seq<string>, l: Line)
    requires l in Lines(keys, a, b, dims)
    ensures Shows(l, Get(a, l.key), Get(b, l.key), dims)
  {
    var i :| 0 <= i < |keys| && Lines(keys, a, b, dims)[i] == l;
    LineShows(keys[i], Get(a, keys[i]), Get(b, keys[i]), dims);
  }

  ghost function KeysOf(scenarios: seq<Scenario>): set<string> { set s | s in scenarios :: Key(s) }

  /** Without normalisation there is one line per scenario key of either run, and it shows what the runs have for it. */
  lemma PlainComparison(a: Run, b: Run)
    requires !ComparisonOf(a, b).normalized
    ensures OneLinePerKey(ComparisonOf(a, b).lines, KeysOf(a.scenarios) + KeysOf(b.scenarios))
    ensures forall l :: l in ComparisonOf(a, b).lines ==> ShowsRuns(l, a, b, ComparisonOf(a, b).dims)
  {
    var lines, dims, ka, kb := ComparisonOf(a, b).lines, SharedDims(a, b), ByKey(a.scenarios), ByKey(b.scenarios);
    PlainLines(a, b);
    ByKeyKeys(a.scenarios);
    ByKeyKeys(b.scenarios);
    LinesByKey(Keys(ka) + Keys(kb), ka, kb, dims);
    forall l | l in lines ensures ShowsRuns(l, a, b, dims) { PlainLine(a, b, Sorted(Keys(ka) + Keys(kb)), dims, l); }
  }

  lemma PlainLine(a: Run, b: Run, keys: seq<string>, dims: seq<string>, l: Line)
    requires l in Lines(keys, ByKey(a.scenarios), ByKey(b.scenarios), dims)
    ensures ShowsRuns(l, a, b, dims)
  {
    LastFound(a.scenarios, l.key);
    LastFound(b.scenarios, l.key);
    LinesShow(keys, ByKey(a.scenarios), ByKey(b.scenarios), dims, l);
  }

  lemma {:induction false} ByKeyKeys(scenarios: seq<Scenario>)
    ensures Keys(ByKey(scenarios)) == KeysOf(scenarios)
  {
    if scenarios != [] {
      var front, last := scenarios[..|scenarios| - 1], scenarios[|scenarios| - 1];
      ByKeyKeys(front);
      PutKeys(ByKey(front), Key(last), last);
      assert scenarios == front + [last];
      assert forall s :: s in scenarios <==> s in front || s == last;
    }
  }

  ghost function NamesOf(entries: Dict<Scenario>): set<string> { set key | key in Keys(entries) :: Leaf(key) }

  lemma {:induction false} ByLeafKeys(d: Dict<Scenario>)
    ensures Keys(ByLeaf(d)) == NamesOf(d)
  {
    if d != [] {
      var front, last := d[..|d| - 1], d[|d| - 1];
      ByLeafKeys(front);
      PutKeys(ByLeaf(front), Leaf(last.key), last.value);
      KeysAppend(front, last);
      assert d == front + [last];
    }
  }

  lemma KeysAppend<V>(d: Dict<V>, p: Pair<V>)
    ensures Keys(d + [p]) == Keys(d) + {p.key}
  {
    var e := d + [p];
    assert e[|d|] == p;
    forall k | k in Keys(d) ensures k in Keys(e) {
      var i :| 0 <= i < |d| && d[i].key == k;
      assert e[i].key == k;
    }
  }

  ghost predicate SameKey(a: Run, b: Run) {
    exists s, t :: s in a.scenarios && t in b.scenarios && Key(s) == Key(t)
  }

  ghost predicate SameLeaf(a: Run, b: Run) {
    exists s, t :: s in a.scenarios && t in b.scenarios && Leaf(Key(s)) == Leaf(Key(t))
  }

  lemma SameKeyIff(a: Run, b: Run)
    ensures Keys(ByKey(a.scenarios)) * Keys(ByKey(b.scenarios)) != {} <==> SameKey(a, b)
  {
    ByKeyKeys(a.scenarios);
    ByKeyKeys(b.scenarios);
    var ka, kb := Keys(ByKey(a.scenarios)), Keys(ByKey(b.scenarios));
    if ka * kb != {} {
      var key :| key in ka && key in kb;
    }
    if s, t :| s in a.scenarios && t in b.scenarios && Key(s) == Key(t) { assert Key(s) in ka * kb; }
  }

  lemma LeavesOf(scenarios: seq<Scenario>, leaf: string)
    ensures leaf in Keys(ByLeaf(ByKey(scenarios))) <==> exists s :: s in scenarios && Leaf(Key(s)) == leaf
  {
    ByKeyKeys(scenarios);
    ByLeafKeys(ByKey(scenarios));
    if s :| s in scenarios && Leaf(Key(s)) == leaf { assert Key(s) in Keys(ByKey(scenarios)); }
  }

  lemma SameLeafIff(a: Run, b: Run)
    ensures Keys(ByLeaf(ByKey(a.scenarios))) * Keys(ByLeaf(ByKey(b.scenarios))) != {} <==> SameLeaf(a, b)
  {
    var la, lb := Keys(ByLeaf(ByKey(a.scenarios))), Keys(ByLeaf(ByKey(b.scenarios)));
    if la * lb != {} {
      var leaf :| leaf in la && leaf in lb;
      LeavesOf(a.scenarios, leaf);
      LeavesOf(b.scenarios, leaf);
    }
    if s, t :| s in a.scenarios && t in b.scenarios && Leaf(Key(s)) == Leaf(Key(t)) {
      LeavesOf(a.scenarios, Leaf(Key(s)));
      LeavesOf(b.scenarios, Leaf(Key(s)));
      assert Leaf(Key(s)) in la * lb;
    }
  }

  lemma NoLeaves(scenarios: seq<Scenario>)
    ensures ByKey(scenarios) == [] ==> Keys(ByLeaf(ByKey(scenarios))) == {}
  {
  }

  /** Names are compared instead of keys when the runs have no key in common but some name. */
  lemma NormalizedIff(a: Run, b: Run)
    ensures ComparisonOf(a, b).normalized <==> !SameKey(a, b) && SameLeaf(a, b)
  {
    SameKeyIff(a, b);
    SameLeafIff(a, b);
    NoLeaves(a.scenarios);
    NoLeaves(b.scenarios);
  }

  /** Of the entries whose key ends in a name, the last, if any. */
  ghost predicate LastNamed(entries: Dict<Scenario>, name: string, s: Option<Scenario>) {
    match s
    case None => forall i :: 0 <= i < |entries| ==> Leaf(entries[i].key) != name
    case Some(x) =>
      exists i: nat :: LastOfLeaf(entries, i) && Leaf(entries[i].key) == name && entries[i].value == x
  }

  lemma {:induction false} LastNamedFound(entries: Dict<Scenario>, name: string)
    ensures LastNamed(entries, name, Get(ByLeaf(entries), name))
  {
    if entries != [] {
      var front, last := entries[..|entries| - 1], entries[|entries| - 1];
      LastNamedFound(front, name);
      GetPut(ByLeaf(front), Leaf(last.key), last.value, name);
      assert entries == front + [last];
      if Leaf(last.key) == name {
        assert LastOfLeaf(entries, |front|);
      } else {
        LastNamedStays(front, last, name, Get(ByLeaf(front), name));
      }
    }
  }

  lemma LastNamedStays(front: Dict<Scenario>, last: Pair<Scenario>, name: string, s: Option<Scenario>)
    requires LastNamed(front, name, s) && Leaf(last.key) != name
    ensures LastNamed(front + [last], name, s)
  {
    if s.Some? {
      var i: nat :| LastOfLeaf(front, i) && Leaf(front[i].key) == name && front[i].value == s.value;
      assert LastOfLeaf(front + [last], i);
    }
  }

  ghost predicate ShowsNamed(l: Line, a: Dict<Scenario>, b: Dict<Scenario>, dims: seq<string>) {
    exists x, y :: LastNamed(a, l.key, x) && LastNamed(b, l.key, y) && Shows(l, x, y, dims)
  }

  /** With normalisation there is one line per name, and it shows the last entry of either run with that name. */
  lemma NamedComparison(a: Run, b: Run)
    requires ComparisonOf(a, b).normalized
    ensures OneLinePerKey(ComparisonOf(a, b).lines, NamesOf(ByKey(a.scenarios)) + NamesOf(ByKey(b.scenarios)))
    ensures forall l :: l in ComparisonOf(a, b).lines ==>
      ShowsNamed(l, ByKey(a.scenarios), ByKey(b.scenarios), ComparisonOf(a, b).dims)
  {
    var lines, dims, ka, kb := ComparisonOf(a, b).lines, SharedDims(a, b), ByKey(a.scenarios), ByKey(b.scenarios);
    NormalizedLines(a, b);
    ByLeafKeys(ka);
    ByLeafKeys(kb);
    var keys := Keys(ByLeaf(ka)) + Keys(ByLeaf(kb));
    LinesByKey(keys, ByLeaf(ka), ByLeaf(kb), dims);
    forall l | l in lines ensures ShowsNamed(l, ka, kb, dims) { NamedLine(ka, kb, Sorted(keys), dims, l); }
  }

  lemma NamedLine(a: Dict<Scenario>, b: Dict<Scenario>, keys: seq<string>, dims: seq<string>, l: Line)
    requires l in Lines(keys, ByLeaf(a), ByLeaf(b), dims)
    ensures ShowsNamed(l, a, b, dims)
  {
    LastNamedFound(a, l.key);
    LastNamedFound(b, l.key);
    LinesShow(keys, ByLeaf(a), ByLeaf(b), dims, l);
  }

  // ----- dimensions -----

  ghost predicate CoveredOnTurn(turns: seq<Option<seq<Dim>>>, dim: string) {
    exists token :: token != "" && GivenOnTurn(turns, dim, token)
  }

  /** A judge has a row on the dimension: some token on a turn, or on the whole a score, even a null one. */
  ghost predicate Covers(p: Payload, dim: string) {
    && Recognised(p)
    && if p.turns.List? then CoveredOnTurn(p.turns.turns, dim)
       else p.dims.Some? && exists token :: Gives(p.dims.value, dim, token)
  }

  ghost predicate Covered(payloads: seq<Payload>, dim: string) { exists p :: p in payloads && Covers(p, dim) }

  lemma {:induction false} RowDimsConcat(a: seq<Row>, b: seq<Row>)
    ensures RowDims(a + b) == RowDims(a) + RowDims(b)
  {
    if b == [] {
      assert a + b == a;
    } else {
      assert (a + b)[..|a + b| - 1] == a + b[..|b| - 1];
      RowDimsConcat(a, b[..|b| - 1]);
    }
  }

  lemma {:induction false} WholeDims(dims: seq<Dim>, dim: string)
    ensures dim in RowDims(WholeRows(dims)) <==> exists token :: Gives(dims, dim, token)
  {
    if dims != [] {
      var front, d := dims[..|dims| - 1], dims[|dims| - 1];
      WholeDims(front, dim);
      assert dims == front + [d];
      assert forall token :: Gives(dims, dim, token) <==> Gives(front, dim, token) || d == Dim(dim, Token(token));
      var row := if d.vote.Token? then [Row(d.name, d.vote.token)] else [];
      RowDimsConcat(WholeRows(front), row);
      assert RowDims(row) == if d.vote.Token? then {d.name} else {};
      if d.name == dim && d.vote.Token? { assert Gives(dims, dim, d.vote.token); }
    }
  }

  lemma {:induction false} DictDims(worst: Dict<string>)
    ensures RowDims(DictRows(worst)) == Keys(worst)
  {
    if worst != [] {
      var first, rest := worst[0], worst[1..];
      assert worst == [first] + rest;
      DictDims(rest);
      DictRowsCons(first, rest);
      var row := Row(first.key, Some(first.value));
      RowDimsConcat([row], DictRows(rest));
      assert [row][..0] == [];
      assert RowDims([row]) == {first.key};
      KeysCons(first, rest);
    }
  }

  lemma TurnDims(turns: seq<Option<seq<Dim>>>, dim: string)
    ensures dim in RowDims(DictRows(WorstOfTurns(turns))) <==> CoveredOnTurn(turns, dim)
  {
    DictDims(WorstOfTurns(turns));
    GetKeys(WorstOfTurns(turns), dim);
    WorstOfTurnsGet(turns, dim);
    FoldMinFirst(TurnsTokens(turns, dim));
    if TurnsTokens(turns, dim) != [] {
      TurnsTokensExact(turns, dim, TurnsTokens(turns, dim)[0]);
    }
    if token :| token != "" && GivenOnTurn(turns, dim, token) { TurnsTokensExact(turns, dim, token); }
  }

  lemma PayloadDims(p: Payload, dim: string)
    ensures dim in RowDims(PayloadRows(p)) <==> Covers(p, dim)
  {
    if LlmShaped(p) {
      if p.turns.List? {
        TurnDims(p.turns.turns, dim);
      } else {
        WholeDims(if p.dims.Some? then p.dims.value else [], dim);
      }
    }
  }

  lemma CoveredAppend(payloads: seq<Payload>, p: Payload, dim: string)
    ensures Covered(payloads + [p], dim) <==> Covered(payloads, dim) || Covers(p, dim)
  {
    assert forall q :: q in payloads + [p] <==> q in payloads || q == p;
  }

  lemma {:induction false} RowDimsCovered(payloads: seq<Payload>, dim: string)
    ensures dim in RowDims(Rows(payloads)) <==> Covered(payloads, dim)
  {
    if payloads != [] {
      var front, last := payloads[..|payloads| - 1], payloads[|payloads| - 1];
      RowDimsCovered(front, dim);
      PayloadDims(last, dim);
      RowDimsConcat(Rows(front), PayloadRows(last));
      assert payloads == front + [last];
      CoveredAppend(front, last, dim);
    }
  }

  ghost predicate CoveredIn(scenarios: seq<Scenario>, dim: string) {
    exists s :: s in scenarios && Covered(s.payloads, dim)
  }

  lemma CoveredInAppend(scenarios: seq<Scenario>, s: Scenario, dim: string)
    ensures CoveredIn(scenarios + [s], dim) <==> CoveredIn(scenarios, dim) || Covered(s.payloads, dim)
  {
    assert forall x :: x in scenarios + [s] <==> x in scenarios || x == s;
  }

  lemma {:induction false} LlmDimsCovered(scenarios: seq<Scenario>, dim: string)
    ensures dim in LlmDims(scenarios) <==> CoveredIn(scenarios, dim)
  {
    if scenarios != [] {
      var front, last := scenarios[..|scenarios| - 1], scenarios[|scenarios| - 1];
      assert scenarios == front + [last];
      LlmDimsCovered(front, dim);
      LlmDimsNext(front, last, dim);
      RowDimsCovered(last.payloads, dim);
      CoveredInAppend(front, last, dim);
    }
  }

  lemma LlmDimsNext(front: seq<Scenario>, s: Scenario, dim: string)
    ensures dim in LlmDims(front + [s]) <==> dim in LlmDims(front) || dim in RowDims(Rows(s.payloads))
  {
    assert (front + [s])[..|front|] == front;
  }

  /** The dimensions compared are those on which either run has a row. */
  lemma ComparedDims(a: Run, b: Run, dim: string)
    ensures dim in ComparisonOf(a, b).dims <==> CoveredIn(a.scenarios, dim) && CoveredIn(b.scenarios, dim)
  {
    LlmDimsCovered(a.scenarios, dim);
    LlmDimsCovered(b.scenarios, dim);
  }
}
