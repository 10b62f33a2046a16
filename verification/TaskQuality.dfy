/**
 * Splitting a run into scenarios that the environment blocked, on the agent's side or on
 * the judge's, and scenarios that ran; and the two histograms of error types.
 */
module TaskQuality {
  import opened Prelude
  import opened Ordering
  import opened Reals
  import opened ErrorTypes

  datatype Turn = Turn(hasError: bool, errorType: Option<string>)
  datatype Judge = Judge(errored: bool, errorType: Option<string>)

  /** `id` is `group/scenario_name`; `turns` is None when the outcome directory is missing. */
  datatype Scenario = Scenario(id: string, passed: bool, turns: Option<seq<Turn>>, judges: seq<Judge>)

  datatype AgentRow = AgentRow(scenario: string, passed: bool, errorTypes: seq<string>)
  datatype JudgeRow = JudgeRow(scenario: string, errorType: string)

  predicate DistinctIds(scores: seq<Scenario>) {
    forall i, j :: 0 <= i < j < |scores| ==> scores[i].id != scores[j].id
  }

  function Or(name: Option<string>, fallback: string): string {
    if name.Some? && name.value != "" then name.value else fallback
  }

  // ----- histograms -----

  type Histogram = map<string, nat>

  function Count(h: Histogram, kind: string): nat { if kind in h then h[kind] else 0 }

  function Bump(h: Histogram, kind: string): Histogram { h[kind := Count(h, kind) + 1] }

  function Tally(kinds: seq<string>): Histogram {
    if kinds == [] then map[] else Bump(Tally(kinds[..|kinds| - 1]), kinds[|kinds| - 1])
  }

  ghost function Total(h: Histogram): nat {
    if h == map[] then 0 else
    var k :| k in h;
    h[k] + Total(h - {k})
  }

  lemma {:induction false} TotalSplit(h: Histogram, k: string)
    requires k in h
    ensures Total(h) == h[k] + Total(h - {k})
    decreases |h|
  {
    var j :| j in h && Total(h) == h[j] + Total(h - {j});
    if j != k {
      TotalSplit(h - {j}, k);
      TotalSplit(h - {k}, j);
      assert h - {j} - {k} == h - {k} - {j};
    }
  }

  lemma TotalBump(h: Histogram, kind: string)
    ensures Total(Bump(h, kind)) == Total(h) + 1
  {
    var h' := Bump(h, kind);
    TotalSplit(h', kind);
    assert h' - {kind} == h - {kind};
    if kind in h { TotalSplit(h, kind); } else { assert h - {kind} == h; }
  }

  /** A tally counts every kind it was given, and nothing else. */
  lemma {:induction false} TallyExact(kinds: seq<string>)
    ensures Total(Tally(kinds)) == |kinds|
    ensures forall l :: Count(Tally(kinds), l) == multiset(kinds)[l]
  {
    if kinds != [] {
      var last := |kinds| - 1;
      TallyExact(kinds[..last]);
      TotalBump(Tally(kinds[..last]), kinds[last]);
      assert kinds == kinds[..last] + [kinds[last]];
    }
  }

  // ----- judge failures -----

  function Lesser(a: Option<string>, b: string): string {
    if a.None? || (Le(b, a.value) && b != a.value) then b else a.value
  }

  /** The alphabetically first error type among the judges that failed. */
  function JudgeFailure(judges: seq<Judge>): Option<string> {
    if judges == [] then None
    else
      var before := JudgeFailure(judges[..|judges| - 1]);
      var j := judges[|judges| - 1];
      if j.errored then Some(Lesser(before, Or(j.errorType, "other"))) else before
  }

  lemma {:induction false} JudgeFailureSpec(judges: seq<Judge>)
    ensures JudgeFailure(judges).Some? <==> exists j :: j in judges && j.errored
    ensures JudgeFailure(judges).Some? ==>
      && (exists j :: j in judges && j.errored && Or(j.errorType, "other") == JudgeFailure(judges).value)
      && (forall j :: j in judges && j.errored ==> Le(JudgeFailure(judges).value, Or(j.errorType, "other")))
  {
    if judges != [] {
      var last := |judges| - 1;
      var front, j := judges[..last], judges[last];
      var before, etype := JudgeFailure(front), Or(j.errorType, "other");
      JudgeFailureSpec(front);
      assert judges == front + [j];
      assert forall x :: x in judges <==> x in front || x == j;
      LeTotal(etype, etype);
      if before.Some? {
        LeTotal(before.value, etype);
        if j.errored {
          forall x | x in judges && x.errored ensures Le(JudgeFailure(judges).value, Or(x.errorType, "other")) {
            if x in front && JudgeFailure(judges).value == etype {
              LeTransitive(etype, before.value, Or(x.errorType, "other"));
            }
          }
        }
      }
      if j.errored && JudgeFailure(judges).value == etype { assert j in judges; }
    }
  }

  method FirstJudgeFailure(judges: seq<Judge>) returns (first: Option<string>)
    ensures first == JudgeFailure(judges)
  {
    first := None;
    for k := 0 to |judges|
      invariant first == JudgeFailure(judges[..k])
    {
      assert judges[..k + 1][..k] == judges[..k];
      if judges[k].errored {
        var etype := Or(judges[k].errorType, "other");
        if first.None? || (Le(etype, first.value) && etype != first.value) { first := Some(etype); }
      }
    }
    assert judges[..|judges|] == judges;
  }

  lemma JudgeRowsAppend(scores: seq<Scenario>, s: Scenario)
    ensures JudgeRows(scores + [s]) == JudgeRows(scores) + JudgeRowsOf(s)
  {
    assert (scores + [s])[..|scores|] == scores;
  }

  lemma TallyAppend(kinds: seq<string>, kind: string)
    ensures Tally(kinds + [kind]) == Bump(Tally(kinds), kind)
  {
    assert (kinds + [kind])[..|kinds|] == kinds;
  }

  lemma JudgeTypesAppend(rows: seq<JudgeRow>, row: JudgeRow)
    ensures Tally(JudgeTypes(rows + [row])) == Bump(Tally(JudgeTypes(rows)), row.errorType)
  {
    assert JudgeTypes(rows + [row]) == JudgeTypes(rows) + [row.errorType];
    TallyAppend(JudgeTypes(rows), row.errorType);
  }

  lemma JudgeStep(front: seq<Scenario>, s: Scenario, first: Option<string>)
    requires first == JudgeFailure(s.judges)
    ensures var rows, next := JudgeRows(front), JudgeRows(front + [s]);
      if first.None? then next == rows
      else
        && next == rows + [JudgeRow(s.id, first.value)]
        && Tally(JudgeTypes(next)) == Bump(Tally(JudgeTypes(rows)), first.value)
  {
    JudgeRowsAppend(front, s);
    if first.Some? { JudgeTypesAppend(JudgeRows(front), JudgeRow(s.id, first.value)); }
  }

  method GatherJudgeErrors(scores: seq<Scenario>) returns (rows: seq<JudgeRow>, byErrorType: Histogram)
    ensures rows == JudgeRows(scores)
    ensures Total(byErrorType) == |rows|
    ensures forall t :: Count(byErrorType, t) == multiset(JudgeTypes(rows))[t]
  {
    rows, byErrorType := GatherJudgeRows(scores);
    TallyExact(JudgeTypes(rows));
  }

  method GatherJudgeRows(scores: seq<Scenario>) returns (rows: seq<JudgeRow>, byErrorType: Histogram)
    ensures rows == JudgeRows(scores) && byErrorType == Tally(JudgeTypes(rows))
  {
    rows, byErrorType := [], map[];
    for i := 0 to |scores|
      invariant rows == JudgeRows(scores[..i]) && byErrorType == Tally(JudgeTypes(rows))
    {
      var first := FirstJudgeFailure(scores[i].judges);
      JudgeStep(scores[..i], scores[i], first);
      assert scores[..i + 1] == scores[..i] + [scores[i]];
      if first.Some? {
        rows := rows + [JudgeRow(scores[i].id, first.value)];
        byErrorType := Bump(byErrorType, first.value);
      }
    }
    assert scores[..|scores|] == scores;
  }

  function JudgeRowsOf(s: Scenario): seq<JudgeRow> {
    match JudgeFailure(s.judges) case None => [] case Some(t) => [JudgeRow(s.id, t)]
  }

  function JudgeTypes(rows: seq<JudgeRow>): (r: seq<string>)
    ensures |r| == |rows| && forall i :: 0 <= i < |r| ==> r[i] == rows[i].errorType
  {
    seq(|rows|, i requires 0 <= i < |rows| => rows[i].errorType)
  }

  function JudgeRows(scores: seq<Scenario>): seq<JudgeRow> {
    if scores == [] then []
    else
      var s := scores[|scores| - 1];
      JudgeRows(scores[..|scores| - 1]) + JudgeRowsOf(s)
  }

  // ----- agent failures -----

  /** Types of the erroring turns, in order. */
  function TurnErrors(turns: seq<Turn>): seq<string> {
    if turns == [] then []
    else
      var t := turns[|turns| - 1];
      TurnErrors(turns[..|turns| - 1]) + if t.hasError then [Or(t.errorType, UNKNOWN)] else []
  }

  function ScenarioErrors(s: Scenario): seq<string> {
    if s.turns.None? then [] else TurnErrors(s.turns.value)
  }

  function AgentRows(scores: seq<Scenario>): seq<AgentRow> {
    if scores == [] then []
    else
      var s := scores[|scores| - 1];
      AgentRows(scores[..|scores| - 1]) + AgentRowsOf(s)
  }

  function AgentRowsOf(s: Scenario): seq<AgentRow> {
    if ScenarioErrors(s) == [] then [] else [AgentRow(s.id, s.passed, ScenarioErrors(s))]
  }

  function AllErrors(scores: seq<Scenario>): seq<string> {
    if scores == [] then [] else AllErrors(scores[..|scores| - 1]) + ScenarioErrors(scores[|scores| - 1])
  }

  lemma AgentAppend(scores: seq<Scenario>, s: Scenario)
    ensures AgentRows(scores + [s]) == AgentRows(scores) + AgentRowsOf(s)
    ensures AllErrors(scores + [s]) == AllErrors(scores) + ScenarioErrors(s)
    ensures CountIf(scores + [s], VacuousPass) == CountIf(scores, VacuousPass) + if VacuousPass(s) then 1 else 0
  {
    assert (scores + [s])[..|scores|] == scores;
  }

  /** The rules passed while at least one turn errored. */
  predicate VacuousPass(s: Scenario) { s.passed && ScenarioErrors(s) != [] }

  method CollectTurns(turns: Option<seq<Turn>>, h: Histogram, ghost s: Scenario, ghost before: seq<string>)
      returns (types: seq<string>, h': Histogram)
    requires turns == s.turns && h == Tally(before)
    ensures types == ScenarioErrors(s) && h' == Tally(before + types)
  {
    types, h' := [], h;
    assert before + [] == before;
    if turns.Some? { types, h' := CountTurns(turns.value, h, before); }
  }

  method GatherAgentErrors(scores: seq<Scenario>) returns (rows: seq<AgentRow>, byErrorType: Histogram, vacuous: nat)
    ensures rows == AgentRows(scores)
    ensures Total(byErrorType) == |AllErrors(scores)|
    ensures forall t :: Count(byErrorType, t) == multiset(AllErrors(scores))[t]
    ensures vacuous == CountIf(scores, VacuousPass)
  {
    rows, byErrorType, vacuous := [], map[], 0;
    for i := 0 to |scores|
      invariant rows == AgentRows(scores[..i])
      invariant byErrorType == Tally(AllErrors(scores[..i]))
      invariant vacuous == CountIf(scores[..i], VacuousPass)
    {
      var s := scores[i];
      assert scores[..i + 1] == scores[..i] + [s];
      AgentAppend(scores[..i], s);
      var types: seq<string>;
      types, byErrorType := CollectTurns(s.turns, byErrorType, s, AllErrors(scores[..i]));
      if types != [] {
        if s.passed { vacuous := vacuous + 1; }
        rows := rows + [AgentRow(s.id, s.passed, types)];
      }
    }
    assert scores[..|scores|] == scores;
    TallyExact(AllErrors(scores));
  }

  method CountTurns(turns: seq<Turn>, h: Histogram, ghost before: seq<string>)
      returns (types: seq<string>, h': Histogram)
    requires h == Tally(before)
    ensures types == TurnErrors(turns) && h' == Tally(before + types)
  {
    types, h' := [], h;
    assert before + [] == before;
    for k := 0 to |turns|
      invariant types == TurnErrors(turns[..k]) && h' == Tally(before + types)
    {
      assert turns[..k + 1][..k] == turns[..k];
      if turns[k].hasError {
        var etype := Or(turns[k].errorType, UNKNOWN);
        assert (before + (types + [etype]))[..|before + types|] == before + types;
        types := types + [etype];
        h' := Bump(h', etype);
      }
    }
    assert turns[..|turns|] == turns;
  }

  // ----- the split -----

  datatype Split = Split(attempted: nat, envFailed: nat, envFailedAgent: nat, envFailedJudge: nat,
    completed: int, passed: nat, taskFailed: int, pct: Option<real>)

  predicate Environmental(types: seq<string>) { exists t :: t in types && t in ENVIRONMENTAL }

  function BlockedAgents(rows: seq<AgentRow>): set<string> {
    set r | r in rows && Environmental(r.errorTypes) :: r.scenario
  }

  function BlockedJudges(rows: seq<JudgeRow>): set<string> { set r | r in rows :: r.scenario }

  method CollectBlockedAgents(rows: seq<AgentRow>) returns (blocked: set<string>)
    ensures blocked == BlockedAgents(rows)
  {
    blocked := {};
    for i := 0 to |rows|
      invariant blocked == BlockedAgents(rows[..i])
    {
      assert rows[..i + 1] == rows[..i] + [rows[i]];
      BlockedAgentsAppend(rows[..i], [rows[i]]);
      assert BlockedAgents([rows[i]]) == if Environmental(rows[i].errorTypes) then {rows[i].scenario} else {};
      if exists t :: t in rows[i].errorTypes && t in ENVIRONMENTAL { blocked := blocked + {rows[i].scenario}; }
    }
    assert rows[..|rows|] == rows;
  }

  method CollectBlockedJudges(rows: seq<JudgeRow>) returns (blocked: set<string>)
    ensures blocked == BlockedJudges(rows)
  {
    blocked := {};
    for i := 0 to |rows|
      invariant blocked == BlockedJudges(rows[..i])
    {
      assert rows[..i + 1] == rows[..i] + [rows[i]];
      BlockedJudgesAppend(rows[..i], [rows[i]]);
      assert BlockedJudges([rows[i]]) == {rows[i].scenario};
      blocked := blocked + {rows[i].scenario};
    }
    assert rows[..|rows|] == rows;
  }

  lemma BlockedAgentsAppend(a: seq<AgentRow>, b: seq<AgentRow>)
    ensures BlockedAgents(a + b) == BlockedAgents(a) + BlockedAgents(b)
  {
    assert forall r :: r in a + b <==> r in a || r in b;
  }

  lemma BlockedJudgesAppend(a: seq<JudgeRow>, b: seq<JudgeRow>)
    ensures BlockedJudges(a + b) == BlockedJudges(a) + BlockedJudges(b)
  {
    assert forall r :: r in a + b <==> r in a || r in b;
  }

  /** The `passed` cell of the split. */
  function NotBlocked(blocked: set<string>): Scenario -> bool { (s: Scenario) => s.passed && s.id !in blocked }

  function Percent(passed: nat, completed: int, round: real -> real): Option<real> {
    if completed > 0 then Some(round(100.0 * passed as real / completed as real)) else None
  }

  ghost predicate IsSplit(split: Option<Split>, n: nat, agents: set<string>, judges: set<string>, passed: nat,
      round: real -> real) {
    && (split.None? <==> agents + judges == {})
    && (split.Some? ==>
      var x := split.value; var completed := n - |agents| - |judges - agents|;
      && x.attempted == n && x.envFailedAgent == |agents| && x.envFailedJudge == |judges - agents|
      && x.envFailed == |agents| + |judges - agents| && x.completed == completed && x.passed == passed
      && x.taskFailed == (if completed - passed >= 0 then completed - passed else 0)
      && x.pct == Percent(passed, completed, round))
  }

  method BuildTaskQualitySplit(scores: seq<Scenario>, agentRows: seq<AgentRow>, judgeRows: seq<JudgeRow>,
      round: real -> real)
      returns (split: Option<Split>)
    ensures var agents, judges := BlockedAgents(agentRows), BlockedJudges(judgeRows);
      IsSplit(split, |scores|, agents, judges, CountIf(scores, NotBlocked(agents + judges)), round)
  {
    var blockedAgent := CollectBlockedAgents(agentRows);
    var blockedJudge := CollectBlockedJudges(judgeRows);
    var blocked := blockedAgent + blockedJudge;
    if blocked == {} { return None; }
    var passed := CountIf(scores, NotBlocked(blocked));
    var envFailedJudge := |blockedJudge - blockedAgent|;
    var envFailed := |blockedAgent| + envFailedJudge;
    var completed := |scores| - envFailed;
    var taskFailed := if completed - passed >= 0 then completed - passed else 0;
    var pct := Percent(passed, completed, round);
    split := Some(Split(|scores|, envFailed, |blockedAgent|, envFailedJudge, completed, passed, taskFailed, pct));
  }

  // ----- the two summaries -----

  datatype JudgeSummary = JudgeSummary(withErrors: nat, total: nat, byErrorType: Histogram, rows: seq<JudgeRow>)

  /** None when no judge failed. */
  method CollectJudgeErrors(scores: seq<Scenario>) returns (r: Option<JudgeSummary>)
    ensures r.None? <==> JudgeRows(scores) == []
    ensures r.Some? ==>
      && r.value.rows == JudgeRows(scores) && r.value.withErrors == |JudgeRows(scores)| && r.value.total == |scores|
      && Total(r.value.byErrorType) == |JudgeRows(scores)|
      && forall t :: Count(r.value.byErrorType, t) == multiset(JudgeTypes(JudgeRows(scores)))[t]
  {
    var rows, byErrorType := GatherJudgeErrors(scores);
    r := if rows == [] then None else Some(JudgeSummary(|rows|, |scores|, byErrorType, rows));
  }

  /** `JudgesOnly` is the minimal summary of a run in which only judges failed. */
  datatype AgentSummary =
    | JudgesOnly(split: Option<Split>)
    | AgentErrors(withErrors: nat, total: nat, vacuous: nat, byErrorType: Histogram, rows: seq<AgentRow>,
      split: Option<Split>)

  ghost predicate SplitFrom(split: Option<Split>, scores: seq<Scenario>, agents: set<string>, judges: set<string>,
      round: real -> real) {
    IsSplit(split, |scores|, agents, judges, CountIf(scores, NotBlocked(agents + judges)), round)
  }

  lemma SomeJudgeBlocked(rows: seq<JudgeRow>)
    requires rows != []
    ensures BlockedJudges(rows) != {}
  {
    assert rows[0] in rows && rows[0].scenario in BlockedJudges(rows);
  }

  /** None exactly when neither side failed; the split in every summary is that of both sides' rows. */
  method CollectAgentErrors(scores: seq<Scenario>, judges: Option<JudgeSummary>, round: real -> real)
      returns (r: Option<AgentSummary>)
    ensures var judgeRows := if judges.Some? then judges.value.rows else [];
      && (r.None? <==> AgentRows(scores) == [] && judgeRows == [])
      && (r.Some? ==> SplitFrom(r.value.split, scores, BlockedAgents(AgentRows(scores)), BlockedJudges(judgeRows),
        round))
      && (r.Some? ==> (r.value.JudgesOnly? <==> AgentRows(scores) == []))
      && (r.Some? && r.value.JudgesOnly? ==> r.value.split.Some?)
    ensures r.Some? && r.value.AgentErrors? ==>
      && r.value.rows == AgentRows(scores) && r.value.withErrors == |AgentRows(scores)| && r.value.total == |scores|
      && r.value.vacuous == CountIf(scores, VacuousPass)
      && Total(r.value.byErrorType) == |AllErrors(scores)|
      && forall t :: Count(r.value.byErrorType, t) == multiset(AllErrors(scores))[t]
  {
    var rows, byErrorType, vacuous := GatherAgentErrors(scores);
    var judgeRows := if judges.Some? then judges.value.rows else [];
    if rows == [] && judgeRows == [] { return None; }
    var split := BuildTaskQualitySplit(scores, rows, judgeRows, round);
    if rows == [] {
      SomeJudgeBlocked(judgeRows);
      r := if split.Some? then Some(JudgesOnly(split)) else None;
    } else {
      r := Some(AgentErrors(|rows|, |scores|, vacuous, byErrorType, rows, split));
    }
  }

  // ----- what the split means for rows that the two collectors produced -----

  predicate AgentBlocked(s: Scenario) { Environmental(ScenarioErrors(s)) }
  predicate JudgeBlocked(s: Scenario) { JudgeFailure(s.judges).Some? }

  function Ids(scores: seq<Scenario>, p: Scenario -> bool): set<string> { set s | s in scores && p(s) :: s.id }

  lemma {:induction false} IdsCount(scores: seq<Scenario>, p: Scenario -> bool)
    requires DistinctIds(scores)
    ensures |Ids(scores, p)| == CountIf(scores, p)
  {
    if scores != [] {
      var last := |scores| - 1;
      var front, s := scores[..last], scores[last];
      IdsCount(front, p);
      assert scores == front + [s];
      assert Ids(scores, p) == Ids(front, p) + (if p(s) then {s.id} else {});
      assert s.id !in Ids(front, p);
    }
  }

  lemma IdsAppend(front: seq<Scenario>, s: Scenario, p: Scenario -> bool)
    ensures Ids(front + [s], p) == Ids(front, p) + if p(s) then {s.id} else {}
  {
    assert forall x :: x in front + [s] <==> x in front || x == s;
  }

  lemma AgentRowsOfMean(s: Scenario)
    ensures BlockedAgents(AgentRowsOf(s)) == if AgentBlocked(s) then {s.id} else {}
  {
    if ScenarioErrors(s) != [] {
      var row := AgentRow(s.id, s.passed, ScenarioErrors(s));
      assert AgentRowsOf(s) == [row] && row in [row];
    }
  }

  lemma {:induction false} AgentRowsMean(scores: seq<Scenario>)
    ensures BlockedAgents(AgentRows(scores)) == Ids(scores, AgentBlocked)
  {
    if scores != [] {
      var front, s := scores[..|scores| - 1], scores[|scores| - 1];
      AgentRowsMean(front);
      assert scores == front + [s];
      IdsAppend(front, s, AgentBlocked);
      BlockedAgentsAppend(AgentRows(front), AgentRowsOf(s));
      AgentRowsOfMean(s);
    }
  }

  lemma JudgeRowsOfMean(s: Scenario)
    ensures BlockedJudges(JudgeRowsOf(s)) == if JudgeBlocked(s) then {s.id} else {}
  {
    if JudgeBlocked(s) {
      var row := JudgeRow(s.id, JudgeFailure(s.judges).value);
      assert JudgeRowsOf(s) == [row] && row in [row];
    }
  }

  lemma {:induction false} JudgeRowsMean(scores: seq<Scenario>)
    ensures BlockedJudges(JudgeRows(scores)) == Ids(scores, JudgeBlocked)
  {
    if scores != [] {
      var front, s := scores[..|scores| - 1], scores[|scores| - 1];
      JudgeRowsMean(front);
      assert scores == front + [s];
      IdsAppend(front, s, JudgeBlocked);
      BlockedJudgesAppend(JudgeRows(front), JudgeRowsOf(s));
      JudgeRowsOfMean(s);
    }
  }

  lemma {:induction false} IdOf(scores: seq<Scenario>, s: Scenario, p: Scenario -> bool)
    requires DistinctIds(scores) && s in scores
    ensures s.id in Ids(scores, p) <==> p(s)
  {
  }

  lemma CountSame(scores: seq<Scenario>, p: Scenario -> bool, q: Scenario -> bool)
    requires forall s :: s in scores ==> p(s) == q(s)
    ensures CountIf(scores, p) == CountIf(scores, q)
  {
    CountIfMonotone(scores, p, q);
    CountIfMonotone(scores, q, p);
  }

  function OnlyJudge(): Scenario -> bool { (s: Scenario) => JudgeBlocked(s) && !AgentBlocked(s) }
  function RanAndPassed(): Scenario -> bool { (s: Scenario) => s.passed && !AgentBlocked(s) && !JudgeBlocked(s) }
  function RanAndFailed(): Scenario -> bool { (s: Scenario) => !s.passed && !AgentBlocked(s) && !JudgeBlocked(s) }

  lemma {:induction false} FourWays(scores: seq<Scenario>)
    ensures CountIf(scores, AgentBlocked) + CountIf(scores, OnlyJudge())
          + CountIf(scores, RanAndPassed()) + CountIf(scores, RanAndFailed()) == |scores|
  {
    if scores != [] { FourWays(scores[..|scores| - 1]); }
  }

  lemma PercentBounds(passed: nat, completed: int)
    requires passed <= completed && completed > 0
    ensures 0.0 <= 100.0 * passed as real / completed as real <= 100.0
  {
    var n := completed as real;
    DivideBy(n, 0.0, 100.0 * passed as real);
    DivideAbove(n, 100.0, 100.0 * passed as real);
  }

  /** For distinct scenarios, the two sets of blocked names say which scenarios were blocked. */
  lemma BlockedNames(scores: seq<Scenario>, agents: set<string>, judges: set<string>)
    requires DistinctIds(scores)
    requires agents == BlockedAgents(AgentRows(scores)) && judges == BlockedJudges(JudgeRows(scores))
    ensures forall s :: s in scores ==> (s.id in agents <==> AgentBlocked(s)) && (s.id in judges <==> JudgeBlocked(s))
    ensures |agents| == CountIf(scores, AgentBlocked)
    ensures |judges - agents| == CountIf(scores, OnlyJudge())
  {
    AgentRowsMean(scores);
    JudgeRowsMean(scores);
    IdsCount(scores, AgentBlocked);
    IdsCount(scores, OnlyJudge());
    forall s | s in scores ensures (s.id in agents <==> AgentBlocked(s)) && (s.id in judges <==> JudgeBlocked(s)) {
      IdOf(scores, s, AgentBlocked);
      IdOf(scores, s, JudgeBlocked);
    }
    var only := Ids(scores, OnlyJudge());
    forall id | id in judges - agents ensures id in only {
      var s :| s in scores && s.id == id;
      assert OnlyJudge()(s);
    }
    forall id | id in only ensures id in judges - agents {
      var s :| s in scores && OnlyJudge()(s) && s.id == id;
    }
    assert judges - agents == only;
  }

  /**
   * Over the collectors' own rows for distinct scenarios, the split is a partition: every
   * scenario is counted in exactly one of the four cells, the agent's side winning an
   * overlap, and what is left after the three others is never negative.
   */
  lemma SplitPartitions(scores: seq<Scenario>, agents: set<string>, judges: set<string>)
    requires DistinctIds(scores)
    requires agents == BlockedAgents(AgentRows(scores)) && judges == BlockedJudges(JudgeRows(scores))
    ensures |agents| == CountIf(scores, AgentBlocked)
    ensures |judges - agents| == CountIf(scores, OnlyJudge())
    ensures CountIf(scores, NotBlocked(agents + judges)) == CountIf(scores, RanAndPassed())
    ensures |scores| - |agents| - |judges - agents| - CountIf(scores, NotBlocked(agents + judges)) ==
      CountIf(scores, RanAndFailed())
  {
    BlockedNames(scores, agents, judges);
    CountSame(scores, NotBlocked(agents + judges), RanAndPassed());
    FourWays(scores);
  }

  /** What the four cells count, and what they add up to. */
  ghost predicate Partition(x: Split, scores: seq<Scenario>) {
    && x.attempted == |scores| == x.envFailedAgent + x.envFailedJudge + x.passed + x.taskFailed
    && x.envFailedAgent == CountIf(scores, AgentBlocked)
    && x.envFailedJudge == CountIf(scores, OnlyJudge())
    && x.passed == CountIf(scores, RanAndPassed())
    && x.taskFailed == CountIf(scores, RanAndFailed())
    && x.completed == x.passed + x.taskFailed
  }

  /** Whatever split was built from the collectors' rows for distinct scenarios is a partition of them. */
  lemma SplitMeaning(scores: seq<Scenario>, agents: set<string>, judges: set<string>, split: Option<Split>,
      round: real -> real)
    requires DistinctIds(scores)
    requires agents == BlockedAgents(AgentRows(scores)) && judges == BlockedJudges(JudgeRows(scores))
    requires IsSplit(split, |scores|, agents, judges, CountIf(scores, NotBlocked(agents + judges)), round)
    ensures split.None? <==> forall s :: s in scores ==> !AgentBlocked(s) && !JudgeBlocked(s)
    ensures split.Some? ==> Partition(split.value, scores)
  {
    if split.Some? { SplitPartitions(scores, agents, judges); }
    NobodyBlocked(scores, agents, judges);
  }

  /** And its percentage is one. */
  lemma SplitPercent(scores: seq<Scenario>, x: Split, round: real -> real)
    requires Partition(x, scores) && x.pct == Percent(x.passed, x.completed, round)
    requires round(0.0) == 0.0 && round(100.0) == 100.0 && Monotone(round)
    ensures x.pct.Some? ==> 0.0 <= x.pct.value <= 100.0
    ensures x.pct.None? <==> CountIf(scores, RanAndPassed()) + CountIf(scores, RanAndFailed()) == 0
  {
    PercentRounded(x.passed, x.completed, round);
  }

  /** The percentage, before rounding, is that of the scenarios that ran. */
  lemma PercentExact(x: Split, round: real -> real)
    requires x.pct == Percent(x.passed, x.completed, round) && x.pct.Some?
    ensures exists q: real :: q * x.completed as real == 100.0 * x.passed as real && x.pct.value == round(q)
  {
    var n, y := x.completed as real, 100.0 * x.passed as real;
    TimesQuotient(n, y);
    assert y / n * n == y;
  }

  /** A turn failed for a reason outside the task. */
  predicate EnvironmentFailed(t: Turn) {
    && t.hasError && t.errorType.Some?
    && t.errorType.value in {"authentication_failed", "rate_limited", "timeout", "model_unavailable"}
  }

  lemma EnvironmentalAppend(a: seq<string>, b: seq<string>)
    ensures Environmental(a + b) <==> Environmental(a) || Environmental(b)
  {
    assert forall x :: x in a + b <==> x in a || x in b;
  }

  lemma EnvironmentalOne(kind: string)
    ensures Environmental([kind]) <==> kind in ENVIRONMENTAL
  {
    assert kind in [kind];
  }

  lemma TurnEnvironmental(t: Turn)
    ensures Environmental(if t.hasError then [Or(t.errorType, UNKNOWN)] else []) <==> EnvironmentFailed(t)
  {
    EnvironmentalOne(Or(t.errorType, UNKNOWN));
  }

  predicate SomeTurn(turns: seq<Turn>, p: Turn -> bool) { exists t :: t in turns && p(t) }

  lemma SomeTurnAppend(turns: seq<Turn>, t: Turn, p: Turn -> bool)
    ensures SomeTurn(turns + [t], p) <==> SomeTurn(turns, p) || p(t)
  {
    assert forall x :: x in turns + [t] <==> x in turns || x == t;
  }

  predicate Failed(t: Turn) { t.hasError }

  lemma {:induction false} TurnErrorsExact(turns: seq<Turn>)
    ensures Environmental(TurnErrors(turns)) <==> SomeTurn(turns, EnvironmentFailed)
    ensures TurnErrors(turns) != [] <==> SomeTurn(turns, Failed)
  {
    if turns != [] {
      var front, t := turns[..|turns| - 1], turns[|turns| - 1];
      assert turns == front + [t];
      TurnErrorsExact(front);
      SomeTurnAppend(front, t, EnvironmentFailed);
      SomeTurnAppend(front, t, Failed);
      TurnEnvironmental(t);
      EnvironmentalAppend(TurnErrors(front), if t.hasError then [Or(t.errorType, UNKNOWN)] else []);
    }
  }

  /** A scenario is blocked by a turn that failed so, or by a judge; and vacuous when it passed all the same. */
  lemma BlockedByTurn(s: Scenario)
    ensures AgentBlocked(s) <==> s.turns.Some? && SomeTurn(s.turns.value, EnvironmentFailed)
    ensures VacuousPass(s) <==> s.passed && s.turns.Some? && SomeTurn(s.turns.value, Failed)
    ensures JudgeBlocked(s) <==> exists j :: j in s.judges && j.errored
  {
    if s.turns.Some? { TurnErrorsExact(s.turns.value); }
    JudgeFailureSpec(s.judges);
  }

  // ----- the rows -----

  lemma TurnErrorsNext(front: seq<Turn>, t: Turn)
    ensures TurnErrors(front + [t]) ==
      TurnErrors(front) + (if t.hasError then [Or(t.errorType, UNKNOWN)] else [])
  {
    assert (front + [t])[..|front|] == front;
  }

  lemma {:induction false} TurnErrorsInParts(a: seq<Turn>, b: seq<Turn>)
    ensures TurnErrors(a + b) == TurnErrors(a) + TurnErrors(b)
  {
    if b == [] {
      assert a + b == a && TurnErrors(a) + [] == TurnErrors(a);
    } else {
      var front, t := b[..|b| - 1], b[|b| - 1];
      assert b == front + [t];
      TurnErrorsInParts(a, front);
      TurnErrorsNext(front, t);
      Regroup(a, front, [t]);
      TurnErrorsNext(a + front, t);
      Regroup(TurnErrors(a), TurnErrors(front), if t.hasError then [Or(t.errorType, UNKNOWN)] else []);
    }
  }

  /** A turn without a type counts as "unknown", a judge without one as "other". */
  predicate TypeOf(name: Option<string>, fallback: string, kind: string) {
    kind == (match name case None => fallback case Some(x) => if x == "" then fallback else x)
  }

  /** Whatever surrounds it, a failed turn is reported in place by its type. */
  lemma TurnInPlace(a: seq<Turn>, t: Turn, b: seq<Turn>, kind: string)
    requires TypeOf(t.errorType, "unknown", kind)
    ensures TurnErrors(a + [t] + b) == TurnErrors(a) + (if t.hasError then [kind] else []) + TurnErrors(b)
  {
    TurnErrorsInParts(a, [t]);
    TurnErrorsInParts(a + [t], b);
    TurnErrorsNext([], t);
    assert [] + [t] == [t];
  }

  /** The failure reported of the judges is the alphabetically first of the types of those that failed. */
  lemma JudgeFailureTyped(judges: seq<Judge>)
    ensures JudgeFailure(judges).Some? ==>
      && (exists j :: j in judges && j.errored && TypeOf(j.errorType, "other", JudgeFailure(judges).value))
      && (forall j, kind :: j in judges && j.errored && TypeOf(j.errorType, "other", kind) ==>
        Le(JudgeFailure(judges).value, kind))
  {
    JudgeFailureSpec(judges);
  }

  ghost predicate AgentRowFor(row: AgentRow, s: Scenario) {
    && s.turns.Some? && SomeTurn(s.turns.value, Failed)
    && row.scenario == s.id && row.passed == s.passed && row.errorTypes == TurnErrors(s.turns.value)
  }

  lemma AgentRowsOfExact(s: Scenario, row: AgentRow)
    ensures row in AgentRowsOf(s) <==> AgentRowFor(row, s)
  {
    if s.turns.Some? { TurnErrorsExact(s.turns.value); }
  }

  ghost predicate JudgeRowFor(row: JudgeRow, s: Scenario) {
    row.scenario == s.id && JudgeFailure(s.judges) == Some(row.errorType)
  }

  /** One row for each scenario with a failed turn, and one for each with a failed judge. */
  lemma {:induction false} RowsExact(scores: seq<Scenario>, row: AgentRow, judgeRow: JudgeRow)
    ensures row in AgentRows(scores) <==> exists s :: s in scores && AgentRowFor(row, s)
    ensures judgeRow in JudgeRows(scores) <==> exists s :: s in scores && JudgeRowFor(judgeRow, s)
  {
    if scores != [] {
      var front, s := scores[..|scores| - 1], scores[|scores| - 1];
      assert scores == front + [s];
      RowsExact(front, row, judgeRow);
      AgentAppend(front, s);
      AgentRowsOfExact(s, row);
      JudgeRowsAppend(front, s);
      SomeScenario(front, s, (x: Scenario) => AgentRowFor(row, x));
      SomeScenario(front, s, (x: Scenario) => JudgeRowFor(judgeRow, x));
    }
  }

  lemma SomeScenario(front: seq<Scenario>, s: Scenario, p: Scenario -> bool)
    ensures (exists x :: x in front + [s] && p(x)) <==> (exists x :: x in front && p(x)) || p(s)
  {
    assert forall x :: x in front + [s] <==> x in front || x == s;
  }

  ghost predicate Monotone(round: real -> real) { forall x, y :: x <= y ==> round(x) <= round(y) }

  lemma NobodyBlocked(scores: seq<Scenario>, agents: set<string>, judges: set<string>)
    requires agents == BlockedAgents(AgentRows(scores)) && judges == BlockedJudges(JudgeRows(scores))
    ensures agents + judges == {} <==> forall s :: s in scores ==> !AgentBlocked(s) && !JudgeBlocked(s)
  {
    AgentRowsMean(scores);
    JudgeRowsMean(scores);
    forall s | s in scores && (AgentBlocked(s) || JudgeBlocked(s)) ensures s.id in agents + judges {}
    if agents + judges != {} { var id :| id in agents + judges; }
  }

  lemma PercentRounded(passed: nat, completed: int, round: real -> real)
    requires passed <= completed
    requires round(0.0) == 0.0 && round(100.0) == 100.0 && Monotone(round)
    ensures var pct := Percent(passed, completed, round);
      (pct.None? <==> completed == 0) && (pct.Some? ==> 0.0 <= pct.value <= 100.0)
  {
    if completed > 0 {
      PercentBounds(passed, completed);
      var q := 100.0 * passed as real / completed as real;
      assert round(0.0) <= round(q) <= round(100.0);
    }
  }
}
