/** Comparing two runs scenario by scenario, and the worst-of folds that choose one score per dimension. */
module Compare {
  import opened Prelude
  import opened Ordering
  import opened Dict

  // ----- serialised scenarios -----

  /** What stands under a dimension's name: `Token(None)` is a null score. */
  datatype Vote = NotADict | NoScore | Token(token: Option<string>)

  datatype Dim = Dim(name: string, vote: Vote)

  /** A turn that is not an object is None; null dimensions are none. */
  datatype Turns = Missing | NotAList | List(turns: seq<Option<seq<Dim>>>)

  /** `version` is "" when missing; `dims` is None when the key is missing. */
  datatype Payload = NotAnObject | Payload(version: string, dims: Option<seq<Dim>>, turns: Turns)

  datatype Scenario = Scenario(group: string, name: string, passed: Option<bool>, payloads: seq<Payload>)

  // ----- ranks and the first minimum -----

  function Rank(token: string): int {
    if token == "inconclusive" then -1
    else if token == "fail" || token == "low" then 0
    else if token == "high" || token == "pass" then 2
    else 1
  }

  function Better(best: Option<string>, token: string): Option<string> {
    if best.None? || Rank(token) < Rank(best.value) then Some(token) else best
  }

  function FoldMin(tokens: seq<string>): Option<string> {
    if tokens == [] then None else Better(FoldMin(tokens[..|tokens| - 1]), tokens[|tokens| - 1])
  }

  /** `t` is the first of the tokens with the least rank. */
  ghost predicate FirstLeast(tokens: seq<string>, t: string, i: nat) {
    && i < |tokens| && tokens[i] == t
    && (forall j :: 0 <= j < i ==> Rank(tokens[j]) > Rank(t))
    && (forall j :: 0 <= j < |tokens| ==> Rank(tokens[j]) >= Rank(t))
  }

  lemma {:induction false} FoldMinFirst(tokens: seq<string>)
    ensures FoldMin(tokens).None? <==> tokens == []
    ensures tokens != [] ==> exists i: nat :: FirstLeast(tokens, FoldMin(tokens).value, i)
  {
    if tokens != [] {
      var last := |tokens| - 1;
      var front := tokens[..last];
      FoldMinFirst(front);
      if front != [] && Rank(FoldMin(front).value) <= Rank(tokens[last]) {
        var i: nat :| FirstLeast(front, FoldMin(front).value, i);
        assert FirstLeast(tokens, FoldMin(tokens).value, i);
      } else {
        assert FirstLeast(tokens, tokens[last], last);
      }
    }
  }

  function Merge(a: Option<string>, b: Option<string>): Option<string> {
    if b.None? then a else Better(a, b.value)
  }

  /** Folding the fold of a second part into the fold of the first is folding the whole. */
  lemma {:induction false} FoldMinConcat(a: seq<string>, b: seq<string>)
    ensures FoldMin(a + b) == Merge(FoldMin(a), FoldMin(b))
  {
    if b == [] {
      assert a + b == a;
    } else {
      var last := |b| - 1;
      FoldMinConcat(a, b[..last]);
      assert (a + b)[..|a + b| - 1] == a + b[..last];
    }
  }

  // ----- rows of one payload -----

  datatype Row = Row(dim: string, token: Option<string>)

  predicate StartsWith(s: string, prefix: string) { prefix <= s }

  /** Recognised by its version or, without one, by its shape. */
  predicate LlmShaped(p: Payload) {
    && p.Payload?
    && (StartsWith(p.version, "llm.v") || StartsWith(p.version, "per_turn_llm.v") || p.dims.Some? || !p.turns.Missing?)
  }

  predicate Eligible(v: Vote) { v.Token? && v.token.Some? && v.token.value != "" }

  function AddVote(worst: Dict<string>, d: Dim): Dict<string> {
    if !Eligible(d.vote) then worst
    else if Get(worst, d.name).None? || Rank(d.vote.token.value) < Rank(Get(worst, d.name).value)
    then Put(worst, d.name, d.vote.token.value)
    else worst
  }

  function AddTurn(worst: Dict<string>, dims: seq<Dim>): Dict<string> {
    if dims == [] then worst else AddVote(AddTurn(worst, dims[..|dims| - 1]), dims[|dims| - 1])
  }

  function DimsOf(turn: Option<seq<Dim>>): seq<Dim> { if turn.None? then [] else turn.value }

  function WorstOfTurns(turns: seq<Option<seq<Dim>>>): Dict<string> {
    if turns == [] then [] else AddTurn(WorstOfTurns(turns[..|turns| - 1]), DimsOf(turns[|turns| - 1]))
  }

  function DictRows(worst: Dict<string>): (r: seq<Row>)
    ensures |r| == |worst| && forall i :: 0 <= i < |r| ==> r[i] == Row(worst[i].key, Some(worst[i].value))
  {
    seq(|worst|, i requires 0 <= i < |worst| => Row(worst[i].key, Some(worst[i].value)))
  }

  function WholeRows(dims: seq<Dim>): seq<Row> {
    if dims == [] then []
    else
      var d := dims[|dims| - 1];
      WholeRows(dims[..|dims| - 1]) + if d.vote.Token? then [Row(d.name, d.vote.token)] else []
  }

  function PayloadRows(p: Payload): seq<Row> {
    if !LlmShaped(p) then []
    else if p.turns.List? then DictRows(WorstOfTurns(p.turns.turns))
    else WholeRows(if p.dims.Some? then p.dims.value else [])
  }

  function Rows(payloads: seq<Payload>): seq<Row> {
    if payloads == [] then [] else Rows(payloads[..|payloads| - 1]) + PayloadRows(payloads[|payloads| - 1])
  }

  // ----- the score of one dimension -----

  /** The tokens that compete for a dimension, in order. */
  function RowTokens(rows: seq<Row>, dim: string): seq<string> {
    if rows == [] then []
    else
      var r := rows[|rows| - 1];
      RowTokens(rows[..|rows| - 1], dim) + if r.dim == dim && r.token.Some? then [r.token.value] else []
  }

  function LlmScore(s: Scenario, dim: string): Option<string> { FoldMin(RowTokens(Rows(s.payloads), dim)) }

  /** Every token given on a dimension, over all payloads and all turns, without any rollup. */
  function TurnTokens(dims: seq<Dim>, dim: string): seq<string> {
    if dims == [] then []
    else
      var d := dims[|dims| - 1];
      TurnTokens(dims[..|dims| - 1], dim) + if d.name == dim && Eligible(d.vote) then [d.vote.token.value] else []
  }

  function TurnsTokens(turns: seq<Option<seq<Dim>>>, dim: string): seq<string> {
    if turns == [] then [] else TurnsTokens(turns[..|turns| - 1], dim) + TurnTokens(DimsOf(turns[|turns| - 1]), dim)
  }

  function PayloadTokens(p: Payload, dim: string): seq<string> {
    if LlmShaped(p) && p.turns.List? then TurnsTokens(p.turns.turns, dim) else RowTokens(PayloadRows(p), dim)
  }

  function AllTokens(payloads: seq<Payload>, dim: string): seq<string> {
    if payloads == [] then []
    else AllTokens(payloads[..|payloads| - 1], dim) + PayloadTokens(payloads[|payloads| - 1], dim)
  }

  lemma AddVoteGet(worst: Dict<string>, d: Dim, dim: string)
    requires Distinct(worst)
    ensures Distinct(AddVote(worst, d))
    ensures Get(AddVote(worst, d), dim) ==
      if d.name == dim && Eligible(d.vote) then Better(Get(worst, dim), d.vote.token.value) else Get(worst, dim)
  {
    if Eligible(d.vote) {
      PutDistinct(worst, d.name, d.vote.token.value);
      GetPut(worst, d.name, d.vote.token.value, dim);
    }
  }

  lemma {:induction false} AddTurnGet(worst: Dict<string>, dims: seq<Dim>, dim: string)
    requires Distinct(worst)
    ensures Distinct(AddTurn(worst, dims))
    ensures Get(AddTurn(worst, dims), dim) == Merge(Get(worst, dim), FoldMin(TurnTokens(dims, dim)))
  {
    if dims != [] {
      var last := |dims| - 1;
      var d := dims[last];
      AddTurnGet(worst, dims[..last], dim);
      AddVoteGet(AddTurn(worst, dims[..last]), d, dim);
      if d.name == dim && Eligible(d.vote) {
        var before := TurnTokens(dims[..last], dim);
        assert (before + [d.vote.token.value])[..|before|] == before;
      } else {
        assert TurnTokens(dims[..last], dim) + [] == TurnTokens(dims[..last], dim);
      }
    }
  }

  lemma {:induction false} WorstOfTurnsGet(turns: seq<Option<seq<Dim>>>, dim: string)
    ensures Distinct(WorstOfTurns(turns))
    ensures Get(WorstOfTurns(turns), dim) == FoldMin(TurnsTokens(turns, dim))
  {
    if turns != [] {
      var last := |turns| - 1;
      WorstOfTurnsGet(turns[..last], dim);
      AddTurnGet(WorstOfTurns(turns[..last]), DimsOf(turns[last]), dim);
      FoldMinConcat(TurnsTokens(turns[..last], dim), TurnTokens(DimsOf(turns[last]), dim));
    }
  }

  lemma RowTokensConcat(a: seq<Row>, b: seq<Row>, dim: string)
    ensures RowTokens(a + b, dim) == RowTokens(a, dim) + RowTokens(b, dim)
  {
    if b == [] {
      assert a + b == a;
    } else {
      assert (a + b)[..|a + b| - 1] == a + b[..|b| - 1];
      RowTokensConcat(a, b[..|b| - 1], dim);
    }
  }

  lemma RowTokensCons(r: Row, rows: seq<Row>, dim: string)
    ensures RowTokens([r] + rows, dim) ==
      (if r.dim == dim && r.token.Some? then [r.token.value] else []) + RowTokens(rows, dim)
  {
    RowTokensConcat([r], rows, dim);
    assert [r][..0] == [];
    assert RowTokens([r], dim) == if r.dim == dim && r.token.Some? then [r.token.value] else [];
  }

  lemma GetCons(p: Pair<string>, rest: Dict<string>, dim: string)
    requires Distinct([p] + rest)
    ensures Distinct(rest)
    ensures Get([p] + rest, dim) == if p.key == dim then Some(p.value) else Get(rest, dim)
    ensures p.key == dim ==> Get(rest, dim).None?
  {
    var d := [p] + rest;
    assert d[1..] == rest;
    forall i | 0 <= i < |rest| ensures rest[i] == d[i + 1] && rest[i].key != p.key { assert d[0].key != d[i + 1].key; }
    GetKeys(rest, dim);
  }

  lemma DictRowsCons(p: Pair<string>, rest: Dict<string>)
    ensures DictRows([p] + rest) == [Row(p.key, Some(p.value))] + DictRows(rest)
  {
    var d := [p] + rest;
    forall i | 0 <= i < |d| ensures DictRows(d)[i] == ([Row(p.key, Some(p.value))] + DictRows(rest))[i] {
      if i > 0 { assert d[i] == rest[i - 1]; }
    }
  }

  lemma {:induction false} DictRowTokens(worst: Dict<string>, dim: string)
    requires Distinct(worst)
    ensures RowTokens(DictRows(worst), dim) == if Get(worst, dim).Some? then [Get(worst, dim).value] else []
  {
    if worst != [] {
      var first, rest := worst[0], worst[1..];
      assert worst == [first] + rest;
      GetCons(first, rest, dim);
      DictRowTokens(rest, dim);
      DictRowsCons(first, rest);
      RowTokensCons(Row(first.key, Some(first.value)), DictRows(rest), dim);
    }
  }

  lemma PayloadFold(p: Payload, dim: string)
    ensures FoldMin(RowTokens(PayloadRows(p), dim)) == FoldMin(PayloadTokens(p, dim))
  {
    if LlmShaped(p) && p.turns.List? {
      WorstOfTurnsGet(p.turns.turns, dim);
      DictRowTokens(WorstOfTurns(p.turns.turns), dim);
      var w := Get(WorstOfTurns(p.turns.turns), dim);
      if w.Some? { assert [w.value][..0] == []; }
    }
  }

  /** The two nested folds, over turns and then over payloads, choose the first global minimum. */
  lemma {:induction false} NestedFoldsAreOne(payloads: seq<Payload>, dim: string)
    ensures FoldMin(RowTokens(Rows(payloads), dim)) == FoldMin(AllTokens(payloads, dim))
  {
    if payloads != [] {
      var last := |payloads| - 1;
      NestedFoldsAreOne(payloads[..last], dim);
      RowTokensConcat(Rows(payloads[..last]), PayloadRows(payloads[last]), dim);
      FoldMinConcat(RowTokens(Rows(payloads[..last]), dim), RowTokens(PayloadRows(payloads[last]), dim));
      FoldMinConcat(AllTokens(payloads[..last], dim), PayloadTokens(payloads[last], dim));
      PayloadFold(payloads[last], dim);
    }
  }

  /** The score chosen is the first token of least rank among all that any judge gave on any turn. */
  lemma ScoreIsGlobalMinimum(s: Scenario, dim: string)
    ensures LlmScore(s, dim).None? <==> AllTokens(s.payloads, dim) == []
    ensures LlmScore(s, dim).Some? ==>
      exists i: nat :: FirstLeast(AllTokens(s.payloads, dim), LlmScore(s, dim).value, i)
  {
    NestedFoldsAreOne(s.payloads, dim);
    FoldMinFirst(AllTokens(s.payloads, dim));
  }

  // ----- the loops -----

  method AddTurnLoop(start: Dict<string>, dims: seq<Dim>) returns (worst: Dict<string>)
    ensures worst == AddTurn(start, dims)
  {
    worst := start;
    for i := 0 to |dims|
      invariant worst == AddTurn(start, dims[..i])
    {
      assert dims[..i + 1][..i] == dims[..i];
      if Eligible(dims[i].vote) {
        var token := dims[i].vote.token.value;
        var prev := Get(worst, dims[i].name);
        if prev.None? || Rank(token) < Rank(prev.value) { worst := Put(worst, dims[i].name, token); }
      }
    }
    assert dims[..|dims|] == dims;
  }

  method RollUpTurns(turns: seq<Option<seq<Dim>>>) returns (worst: Dict<string>)
    ensures worst == WorstOfTurns(turns)
  {
    worst := [];
    for i := 0 to |turns|
      invariant worst == WorstOfTurns(turns[..i])
    {
      assert turns[..i + 1][..i] == turns[..i];
      if turns[i].Some? { worst := AddTurnLoop(worst, turns[i].value); }
    }
    assert turns[..|turns|] == turns;
  }

  method IterScores(payloads: seq<Payload>) returns (rows: seq<Row>)
    ensures rows == Rows(payloads)
  {
    rows := [];
    for i := 0 to |payloads|
      invariant rows == Rows(payloads[..i])
    {
      assert payloads[..i + 1][..i] == payloads[..i];
      var p := payloads[i];
      if LlmShaped(p) {
        if p.turns.List? {
          var worst := RollUpTurns(p.turns.turns);
          rows := rows + DictRows(worst);
        } else {
          rows := rows + WholeRows(if p.dims.Some? then p.dims.value else []);
        }
      }
    }
    assert payloads[..|payloads|] == payloads;
  }

  method GetLlmScore(s: Scenario, dim: string) returns (worst: Option<string>)
    ensures worst == LlmScore(s, dim)
  {
    var rows := IterScores(s.payloads);
    worst := None;
    assert rows[..0] == [];
    for i := 0 to |rows|
      invariant worst == FoldMin(RowTokens(rows[..i], dim))
    {
      assert rows[..i + 1][..i] == rows[..i];
      ghost var before := RowTokens(rows[..i], dim);
      assert before + [] == before;
      if rows[i].dim == dim && rows[i].token.Some? {
        assert (before + [rows[i].token.value])[..|before|] == before;
        if worst.None? || Rank(rows[i].token.value) < Rank(worst.value) { worst := rows[i].token; }
      }
    }
    assert rows[..|rows|] == rows;
  }

  // ----- the comparison -----

  datatype Totals = Totals(total: int, passRate: real, cost: Option<real>, meanCost: Option<real>, time: Option<real>)
  datatype Run = Run(name: string, totals: Totals, scenarios: seq<Scenario>)

  datatype Delta = Delta(dim: string, a: Option<string>, b: Option<string>, delta: Option<int>)
  datatype Line = Line(key: string, aPass: Option<bool>, bPass: Option<bool>, inA: bool, inB: bool, deltas: seq<Delta>)
  datatype Comparison = Comparison(nameA: string, nameB: string, a: Totals, b: Totals,
    dims: seq<string>, lines: seq<Line>, normalized: bool)

  function Key(s: Scenario): string { s.group + "/" + s.name }

  /** What follows the last slash. */
  function Leaf(key: string): string {
    if key == "" || key[|key| - 1] == '/' then "" else Leaf(key[..|key| - 1]) + [key[|key| - 1]]
  }

  /** A later scenario replaces an earlier one with its key. */
  function ByKey(scenarios: seq<Scenario>): Dict<Scenario> {
    if scenarios == [] then []
    else Put(ByKey(scenarios[..|scenarios| - 1]), Key(scenarios[|scenarios| - 1]), scenarios[|scenarios| - 1])
  }

  function ByLeaf(d: Dict<Scenario>): Dict<Scenario> {
    if d == [] then [] else Put(ByLeaf(d[..|d| - 1]), Leaf(d[|d| - 1].key), d[|d| - 1].value)
  }

  /** No key in common, but some leaf name. */
  predicate Normalizes(a: Dict<Scenario>, b: Dict<Scenario>) {
    Keys(a) * Keys(b) == {} && a != [] && b != [] && Keys(ByLeaf(a)) * Keys(ByLeaf(b)) != {}
  }

  function RowDims(rows: seq<Row>): set<string> {
    if rows == [] then {} else RowDims(rows[..|rows| - 1]) + {rows[|rows| - 1].dim}
  }

  function LlmDims(scenarios: seq<Scenario>): set<string> {
    if scenarios == [] then {}
    else LlmDims(scenarios[..|scenarios| - 1]) + RowDims(Rows(scenarios[|scenarios| - 1].payloads))
  }

  /** Only the ordinal scale has differences. */
  function ScoreRank(score: Option<string>): int {
    if score.None? then -1
    else if score.value == "low" then 0
    else if score.value == "medium" then 1
    else if score.value == "high" then 2
    else -1
  }

  function ScoreIn(s: Option<Scenario>, dim: string): Option<string> {
    if s.Some? then LlmScore(s.value, dim) else None
  }

  function DeltaOf(a: Option<string>, b: Option<string>): Option<int> {
    if ScoreRank(a) >= 0 && ScoreRank(b) >= 0 then Some(ScoreRank(b) - ScoreRank(a)) else None
  }

  function DimDelta(dim: string, a: Option<string>, b: Option<string>): Delta { Delta(dim, a, b, DeltaOf(a, b)) }

  function Scores(s: Option<Scenario>, dims: seq<string>): (r: seq<Option<string>>)
    ensures |r| == |dims| && forall i :: 0 <= i < |r| ==> r[i] == ScoreIn(s, dims[i])
  {
    seq(|dims|, i requires 0 <= i < |dims| => ScoreIn(s, dims[i]))
  }

  function Deltas(dims: seq<string>, a: seq<Option<string>>, b: seq<Option<string>>): (r: seq<Delta>)
    requires |a| == |b| == |dims|
    ensures |r| == |dims| && forall i :: 0 <= i < |r| ==> r[i] == DimDelta(dims[i], a[i], b[i])
  {
    seq(|dims|, i requires 0 <= i < |dims| => DimDelta(dims[i], a[i], b[i]))
  }

  function Passed(s: Option<Scenario>): Option<bool> { if s.Some? then s.value.passed else None }

  function LineOf(key: string, a: Option<Scenario>, b: Option<Scenario>, dims: seq<string>): Line {
    Line(key, Passed(a), Passed(b), a.Some?, b.Some?, Deltas(dims, Scores(a, dims), Scores(b, dims)))
  }

  function Lines(keys: seq<string>, a: Dict<Scenario>, b: Dict<Scenario>, dims: seq<string>): (r: seq<Line>)
    ensures |r| == |keys| && forall i :: 0 <= i < |r| ==>
      r[i] == LineOf(keys[i], Get(a, keys[i]), Get(b, keys[i]), dims)
  {
    seq(|keys|, i requires 0 <= i < |keys| => LineOf(keys[i], Get(a, keys[i]), Get(b, keys[i]), dims))
  }

  function SharedDims(a: Run, b: Run): seq<string> { Sorted(LlmDims(a.scenarios) * LlmDims(b.scenarios)) }

  function ComparisonOf(a: Run, b: Run): Comparison {
    var sa, sb := ByKey(a.scenarios), ByKey(b.scenarios);
    var normalized := Normalizes(sa, sb);
    var ka := if normalized then ByLeaf(sa) else sa;
    var kb := if normalized then ByLeaf(sb) else sb;
    Comparison(a.name, b.name, a.totals, b.totals, SharedDims(a, b),
      Lines(Sorted(Keys(ka) + Keys(kb)), ka, kb, SharedDims(a, b)), normalized)
  }

  // ----- antisymmetry -----

  function SwapDelta(d: Delta): Delta { Delta(d.dim, d.b, d.a, if d.delta.Some? then Some(-d.delta.value) else None) }

  function SwapDeltas(ds: seq<Delta>): (r: seq<Delta>)
    ensures |r| == |ds| && forall i :: 0 <= i < |r| ==> r[i] == SwapDelta(ds[i])
  {
    seq(|ds|, i requires 0 <= i < |ds| => SwapDelta(ds[i]))
  }

  function SwapLine(l: Line): Line { Line(l.key, l.bPass, l.aPass, l.inB, l.inA, SwapDeltas(l.deltas)) }

  function SwapLines(ls: seq<Line>): (r: seq<Line>)
    ensures |r| == |ls| && forall i :: 0 <= i < |r| ==> r[i] == SwapLine(ls[i])
  {
    seq(|ls|, i requires 0 <= i < |ls| => SwapLine(ls[i]))
  }

  /** Every a-field exchanged with its b-field, every difference negated, the same keys and dimensions. */
  function Swap(c: Comparison): Comparison {
    Comparison(c.nameB, c.nameA, c.b, c.a, c.dims, SwapLines(c.lines), c.normalized)
  }

  lemma DeltasSwap(dims: seq<string>, a: seq<Option<string>>, b: seq<Option<string>>)
    requires |a| == |b| == |dims|
    ensures Deltas(dims, b, a) == SwapDeltas(Deltas(dims, a, b))
  {
    forall i | 0 <= i < |dims| ensures DimDelta(dims[i], b[i], a[i]) == SwapDelta(DimDelta(dims[i], a[i], b[i])) {
      DeltaSwaps(a[i], b[i]);
    }
  }

  lemma DeltaSwaps(a: Option<string>, b: Option<string>)
    ensures DeltaOf(b, a) == if DeltaOf(a, b).Some? then Some(-DeltaOf(a, b).value) else None
  {
  }

  lemma LineSwaps(key: string, a: Option<Scenario>, b: Option<Scenario>, dims: seq<string>)
    ensures LineOf(key, b, a, dims) == SwapLine(LineOf(key, a, b, dims))
  {
    DeltasSwap(dims, Scores(a, dims), Scores(b, dims));
  }

  lemma LinesSwap(keys: seq<string>, a: Dict<Scenario>, b: Dict<Scenario>, dims: seq<string>)
    ensures Lines(keys, b, a, dims) == SwapLines(Lines(keys, a, b, dims))
  {
    forall i | 0 <= i < |keys| ensures Lines(keys, b, a, dims)[i] == SwapLines(Lines(keys, a, b, dims))[i] {
      LineSwaps(keys[i], Get(a, keys[i]), Get(b, keys[i]), dims);
    }
  }

  lemma Antisymmetric(a: Run, b: Run)
    ensures ComparisonOf(b, a) == Swap(ComparisonOf(a, b))
  {
    var sa, sb := ByKey(a.scenarios), ByKey(b.scenarios);
    assert Keys(sa) * Keys(sb) == Keys(sb) * Keys(sa);
    assert Keys(ByLeaf(sa)) * Keys(ByLeaf(sb)) == Keys(ByLeaf(sb)) * Keys(ByLeaf(sa));
    var ka := if Normalizes(sa, sb) then ByLeaf(sa) else sa;
    var kb := if Normalizes(sa, sb) then ByLeaf(sb) else sb;
    assert Keys(ka) + Keys(kb) == Keys(kb) + Keys(ka);
    assert LlmDims(a.scenarios) * LlmDims(b.scenarios) == LlmDims(b.scenarios) * LlmDims(a.scenarios);
    LinesSwap(Sorted(Keys(ka) + Keys(kb)), ka, kb, SharedDims(a, b));
  }

  // ----- chains -----

  ghost predicate SaysAt(l: Line, dim: string, delta: int, j: nat) {
    j < |l.deltas| && l.deltas[j].dim == dim && l.deltas[j].delta == Some(delta)
  }

  ghost predicate LineSays(l: Line, dim: string, delta: int) { exists j: nat :: SaysAt(l, dim, delta, j) }

  /** The comparison gives this difference for a dimension of a scenario. */
  ghost predicate Says(lines: seq<Line>, key: string, dim: string, delta: int) {
    exists l :: l in lines && l.key == key && LineSays(l, dim, delta)
  }

  lemma RowDimsExact(rows: seq<Row>, dim: string)
    ensures RowTokens(rows, dim) != [] ==> dim in RowDims(rows)
  {
    if rows != [] { RowDimsExact(rows[..|rows| - 1], dim); }
  }

  lemma {:induction false} LlmDimsExact(scenarios: seq<Scenario>, s: Scenario, dim: string)
    requires s in scenarios && LlmScore(s, dim).Some?
    ensures dim in LlmDims(scenarios)
  {
    var last := |scenarios| - 1;
    if scenarios[last] == s {
      RowDimsExact(Rows(s.payloads), dim);
    } else {
      LlmDimsExact(scenarios[..last], s, dim);
    }
  }

  predicate LastOfKey(scenarios: seq<Scenario>, i: nat) {
    i < |scenarios| && forall j :: i < j < |scenarios| ==> Key(scenarios[j]) != Key(scenarios[i])
  }

  predicate LastOfLeaf(d: Dict<Scenario>, i: nat) {
    i < |d| && forall j :: i < j < |d| ==> Leaf(d[j].key) != Leaf(d[i].key)
  }

  /** Of several scenarios with one key, the last is compared. */
  lemma {:induction false} LastByKey(scenarios: seq<Scenario>, i: nat)
    requires LastOfKey(scenarios, i)
    ensures Get(ByKey(scenarios), Key(scenarios[i])) == Some(scenarios[i])
  {
    var last := |scenarios| - 1;
    GetPut(ByKey(scenarios[..last]), Key(scenarios[last]), scenarios[last], Key(scenarios[i]));
    if i < last { LastByKey(scenarios[..last], i); }
  }

  /** And after normalisation, of several with one leaf name, the one whose full key came last. */
  lemma {:induction false} LastByLeaf(d: Dict<Scenario>, i: nat)
    requires LastOfLeaf(d, i)
    ensures Get(ByLeaf(d), Leaf(d[i].key)) == Some(d[i].value)
  {
    var last := |d| - 1;
    GetPut(ByLeaf(d[..last]), Leaf(d[last].key), d[last].value, Leaf(d[i].key));
    if i < last { LastByLeaf(d[..last], i); }
  }

  /** For a name without a slash, the leaf of a scenario's key is its name. */
  lemma {:induction false} LeafIsName(group: string, name: string)
    requires '/' !in name
    ensures Leaf(group + "/" + name) == name
  {
    var key := group + "/" + name;
    if name != "" {
      var last := |name| - 1;
      assert key[..|key| - 1] == group + "/" + name[..last];
      assert key[|key| - 1] == name[last] && name[last] in name;
      LeafIsName(group, name[..last]);
      assert name == name[..last] + [name[last]];
    }
  }

  lemma {:induction false} ByKeyFrom(scenarios: seq<Scenario>, key: string)
    ensures Get(ByKey(scenarios), key).Some? ==>
      Get(ByKey(scenarios), key).value in scenarios && Key(Get(ByKey(scenarios), key).value) == key
  {
    if scenarios != [] {
      var last := |scenarios| - 1;
      ByKeyFrom(scenarios[..last], key);
      GetPut(ByKey(scenarios[..last]), Key(scenarios[last]), scenarios[last], key);
    }
  }

  lemma LineSaysIff(key: string, a: Option<Scenario>, b: Option<Scenario>, dims: seq<string>, dim: string, delta: int)
    ensures LineSays(LineOf(key, a, b, dims), dim, delta) <==>
      dim in dims && DeltaOf(ScoreIn(a, dim), ScoreIn(b, dim)) == Some(delta)
  {
    var l := LineOf(key, a, b, dims);
    if dim in dims && DeltaOf(ScoreIn(a, dim), ScoreIn(b, dim)) == Some(delta) {
      var j: nat :| j < |dims| && dims[j] == dim;
      assert SaysAt(l, dim, delta, j);
    }
    if LineSays(l, dim, delta) {
      var j: nat :| SaysAt(l, dim, delta, j);
      assert dims[j] in dims;
    }
  }

  lemma LinesSay(keys: seq<string>, a: Dict<Scenario>, b: Dict<Scenario>, dims: seq<string>, key: string, dim: string,
      delta: int)
    ensures Says(Lines(keys, a, b, dims), key, dim, delta) <==>
      key in keys && dim in dims && DeltaOf(ScoreIn(Get(a, key), dim), ScoreIn(Get(b, key), dim)) == Some(delta)
  {
    var lines := Lines(keys, a, b, dims);
    LineSaysIff(key, Get(a, key), Get(b, key), dims, dim, delta);
    if key in keys {
      var i :| 0 <= i < |keys| && keys[i] == key;
      assert lines[i] in lines && lines[i] == LineOf(key, Get(a, key), Get(b, key), dims);
    }
    if Says(lines, key, dim, delta) {
      var l :| l in lines && l.key == key && LineSays(l, dim, delta);
      var i :| 0 <= i < |lines| && lines[i] == l;
      assert keys[i] in keys;
    }
  }

  /** The score that a run has for a key. */
  function ScoreAt(r: Run, key: string, dim: string): Option<string> { ScoreIn(Get(ByKey(r.scenarios), key), dim) }

  lemma ScoreAtSeen(r: Run, key: string, dim: string)
    ensures ScoreAt(r, key, dim).Some? ==> key in Keys(ByKey(r.scenarios)) && dim in LlmDims(r.scenarios)
  {
    GetKeys(ByKey(r.scenarios), key);
    ByKeyFrom(r.scenarios, key);
    if ScoreAt(r, key, dim).Some? { LlmDimsExact(r.scenarios, Get(ByKey(r.scenarios), key).value, dim); }
  }

  lemma DeltaNeedsScores(a: Option<string>, b: Option<string>)
    ensures DeltaOf(a, b).Some? ==> a.Some? && b.Some?
  {
  }

  function DeltaAt(a: Run, b: Run, key: string, dim: string): Option<int> {
    DeltaOf(ScoreAt(a, key, dim), ScoreAt(b, key, dim))
  }

  lemma PlainLines(a: Run, b: Run)
    requires !ComparisonOf(a, b).normalized
    ensures ComparisonOf(a, b).lines ==
      Lines(Sorted(Keys(ByKey(a.scenarios)) + Keys(ByKey(b.scenarios))), ByKey(a.scenarios), ByKey(b.scenarios),
        SharedDims(a, b))
  {
  }

  /** Without normalisation, what is said of a scenario is the difference of the two runs' scores for its key. */
  lemma SaysIff(a: Run, b: Run, key: string, dim: string, delta: int)
    requires !ComparisonOf(a, b).normalized
    ensures Says(ComparisonOf(a, b).lines, key, dim, delta) <==> DeltaAt(a, b, key, dim) == Some(delta)
  {
    PlainLines(a, b);
    var ka, kb := ByKey(a.scenarios), ByKey(b.scenarios);
    var keys, dims := Keys(ka) + Keys(kb), SharedDims(a, b);
    LinesSay(Sorted(keys), ka, kb, dims, key, dim, delta);
    ScoreAtSeen(a, key, dim);
    ScoreAtSeen(b, key, dim);
    DeltaNeedsScores(ScoreAt(a, key, dim), ScoreAt(b, key, dim));
  }

  /** So the difference said of two scenarios that share a key is that of their own scores. */
  lemma SaysOfScenarios(a: Run, b: Run, i: nat, j: nat, dim: string, delta: int)
    requires !ComparisonOf(a, b).normalized && LastOfKey(a.scenarios, i) && LastOfKey(b.scenarios, j)
    requires Key(a.scenarios[i]) == Key(b.scenarios[j])
    ensures Says(ComparisonOf(a, b).lines, Key(a.scenarios[i]), dim, delta) <==>
      DeltaOf(LlmScore(a.scenarios[i], dim), LlmScore(b.scenarios[j], dim)) == Some(delta)
  {
    LastByKey(a.scenarios, i);
    LastByKey(b.scenarios, j);
    SaysIff(a, b, Key(a.scenarios[i]), dim, delta);
  }

  /** Every entry of the dict stands under its scenario's own key and comes from the list. */
  lemma {:induction false} ByKeyEntries(scenarios: seq<Scenario>, i: nat)
    requires i < |ByKey(scenarios)|
    ensures var p := ByKey(scenarios)[i]; p.key == Key(p.value) && p.value in scenarios
  {
    var last := |scenarios| - 1;
    PutEntries(ByKey(scenarios[..last]), Key(scenarios[last]), scenarios[last], i);
    if ByKey(scenarios)[i] != Pair(Key(scenarios[last]), scenarios[last]) {
      var j: nat :| j < |ByKey(scenarios[..last])| && ByKey(scenarios[..last])[j] == ByKey(scenarios)[i];
      ByKeyEntries(scenarios[..last], j);
    }
  }

  lemma NormalizedLines(a: Run, b: Run)
    requires ComparisonOf(a, b).normalized
    ensures var la, lb := ByLeaf(ByKey(a.scenarios)), ByLeaf(ByKey(b.scenarios));
      ComparisonOf(a, b).lines == Lines(Sorted(Keys(la) + Keys(lb)), la, lb, SharedDims(a, b))
  {
  }

  /** With normalisation, scenarios are matched by name: the last of each side with a name are compared. */
  lemma SaysOfNames(a: Run, b: Run, i: nat, j: nat, dim: string, delta: int)
    requires ComparisonOf(a, b).normalized
    requires LastOfLeaf(ByKey(a.scenarios), i) && LastOfLeaf(ByKey(b.scenarios), j)
    requires var x, y := ByKey(a.scenarios)[i].value, ByKey(b.scenarios)[j].value; x.name == y.name && '/' !in x.name
    ensures var x, y := ByKey(a.scenarios)[i].value, ByKey(b.scenarios)[j].value;
      Says(ComparisonOf(a, b).lines, x.name, dim, delta) <==> DeltaOf(LlmScore(x, dim), LlmScore(y, dim)) == Some(delta)
  {
    var ka, kb := ByKey(a.scenarios), ByKey(b.scenarios);
    var x, y := ka[i].value, kb[j].value;
    ByKeyEntries(a.scenarios, i);
    ByKeyEntries(b.scenarios, j);
    LeafIsName(x.group, x.name);
    LeafIsName(y.group, y.name);
    LastByLeaf(ka, i);
    LastByLeaf(kb, j);
    NormalizedLines(a, b);
    SaysOfPair(a, b, ByLeaf(ka), ByLeaf(kb), x, y, x.name, dim, delta);
  }

  lemma SaysOfPair(a: Run, b: Run, ka: Dict<Scenario>, kb: Dict<Scenario>, x: Scenario, y: Scenario,
      key: string, dim: string, delta: int)
    requires Get(ka, key) == Some(x) && Get(kb, key) == Some(y) && x in a.scenarios && y in b.scenarios
    ensures Says(Lines(Sorted(Keys(ka) + Keys(kb)), ka, kb, SharedDims(a, b)), key, dim, delta) <==>
      DeltaOf(LlmScore(x, dim), LlmScore(y, dim)) == Some(delta)
  {
    LinesSay(Sorted(Keys(ka) + Keys(kb)), ka, kb, SharedDims(a, b), key, dim, delta);
    GetKeys(ka, key);
    DeltaNeedsScores(LlmScore(x, dim), LlmScore(y, dim));
    if LlmScore(x, dim).Some? { LlmDimsExact(a.scenarios, x, dim); }
    if LlmScore(y, dim).Some? { LlmDimsExact(b.scenarios, y, dim); }
  }

  /** The rank of a run's score by key and dimension, negative when it has no place on the scale. */
  type Ranks = (string, string) -> int

  function RanksOf(r: Run): Ranks { (key, dim) => ScoreRank(ScoreAt(r, key, dim)) }

  /** `lines` say exactly the differences between `a` and `b`. */
  ghost predicate Differences(lines: seq<Line>, a: Ranks, b: Ranks) {
    forall key, dim, delta :: Says(lines, key, dim, delta) <==>
      a(key, dim) >= 0 && b(key, dim) >= 0 && delta == b(key, dim) - a(key, dim)
  }

  lemma RankedDelta(a: Option<string>, b: Option<string>, delta: int)
    ensures DeltaOf(a, b) == Some(delta) <==>
      ScoreRank(a) >= 0 && ScoreRank(b) >= 0 && delta == ScoreRank(b) - ScoreRank(a)
  {
  }

  lemma SaysDifference(a: Run, b: Run, key: string, dim: string, delta: int)
    requires !ComparisonOf(a, b).normalized
    ensures var x, y := RanksOf(a)(key, dim), RanksOf(b)(key, dim);
      Says(ComparisonOf(a, b).lines, key, dim, delta) <==> x >= 0 && y >= 0 && delta == y - x
  {
    SaysIff(a, b, key, dim, delta);
    RankedDelta(ScoreAt(a, key, dim), ScoreAt(b, key, dim), delta);
  }

  lemma ComparedByFullKeys(a: Run, b: Run)
    ensures !ComparisonOf(a, b).normalized ==> Differences(ComparisonOf(a, b).lines, RanksOf(a), RanksOf(b))
  {
    if !ComparisonOf(a, b).normalized {
      forall key, dim, delta
        ensures Says(ComparisonOf(a, b).lines, key, dim, delta) <==>
          RanksOf(a)(key, dim) >= 0 && RanksOf(b)(key, dim) >= 0 && delta == RanksOf(b)(key, dim) - RanksOf(a)(key, dim)
      {
        SaysDifference(a, b, key, dim, delta);
      }
    }
  }

  /** So differences add up along three runs compared pairwise. */
  lemma DifferencesAdd(ab: seq<Line>, bc: seq<Line>, ac: seq<Line>, a: Ranks, b: Ranks, c: Ranks,
      key: string, dim: string, d1: int, d2: int)
    requires Differences(ab, a, b) && Differences(bc, b, c) && Differences(ac, a, c)
    requires Says(ab, key, dim, d1) && Says(bc, key, dim, d2)
    ensures Says(ac, key, dim, d1 + d2)
  {
    assert d1 == b(key, dim) - a(key, dim) && d2 == c(key, dim) - b(key, dim);
  }

  lemma DeltasAdd(a: Run, b: Run, c: Run, key: string, dim: string, d1: int, d2: int)
    requires !ComparisonOf(a, b).normalized && !ComparisonOf(b, c).normalized && !ComparisonOf(a, c).normalized
    requires Says(ComparisonOf(a, b).lines, key, dim, d1) && Says(ComparisonOf(b, c).lines, key, dim, d2)
    ensures Says(ComparisonOf(a, c).lines, key, dim, d1 + d2)
  {
    ComparedByFullKeys(a, b);
    ComparedByFullKeys(b, c);
    ComparedByFullKeys(a, c);
    DifferencesAdd(ComparisonOf(a, b).lines, ComparisonOf(b, c).lines, ComparisonOf(a, c).lines,
      RanksOf(a), RanksOf(b), RanksOf(c), key, dim, d1, d2);
  }

  // ----- the loop over scenarios -----

  method CompareDim(a: Option<Scenario>, b: Option<Scenario>, dim: string) returns (d: Delta)
    ensures d == DimDelta(dim, ScoreIn(a, dim), ScoreIn(b, dim))
  {
    var scoreA, scoreB: Option<string> := None, None;
    if a.Some? { scoreA := GetLlmScore(a.value, dim); }
    if b.Some? { scoreB := GetLlmScore(b.value, dim); }
    d := Delta(dim, scoreA, scoreB, DeltaOf(scoreA, scoreB));
  }

  method CompareScenario(key: string, a: Option<Scenario>, b: Option<Scenario>, dims: seq<string>) returns (line: Line)
    ensures line == LineOf(key, a, b, dims)
  {
    ghost var all := Deltas(dims, Scores(a, dims), Scores(b, dims));
    var deltas: seq<Delta> := [];
    for i := 0 to |dims|
      invariant deltas == all[..i]
    {
      var d := CompareDim(a, b, dims[i]);
      assert d == all[i];
      deltas := deltas + [d];
    }
    line := Line(key, Passed(a), Passed(b), a.Some?, b.Some?, deltas);
  }

  method CompareKeys(keys: seq<string>, a: Dict<Scenario>, b: Dict<Scenario>, dims: seq<string>)
      returns (lines: seq<Line>)
    ensures lines == Lines(keys, a, b, dims)
  {
    lines := [];
    for i := 0 to |keys|
      invariant |lines| == i && forall j :: 0 <= j < i ==>
        lines[j] == LineOf(keys[j], Get(a, keys[j]), Get(b, keys[j]), dims)
    {
      var line := CompareScenario(keys[i], Get(a, keys[i]), Get(b, keys[i]), dims);
      lines := lines + [line];
    }
  }

  method CompareRuns(a: Run, b: Run) returns (c: Comparison)
    ensures c == ComparisonOf(a, b)
    ensures c.nameA == a.name && c.nameB == b.name && c.a == a.totals && c.b == b.totals
  {
    var sa, sb := ByKey(a.scenarios), ByKey(b.scenarios);
    var normalized := Normalizes(sa, sb);
    var ka, kb := sa, sb;
    if normalized { ka, kb := ByLeaf(sa), ByLeaf(sb); }
    var dims := SharedDims(a, b);
    var lines := CompareKeys(Sorted(Keys(ka) + Keys(kb)), ka, kb, dims);
    c := Comparison(a.name, b.name, a.totals, b.totals, dims, lines, normalized);
  }
}
