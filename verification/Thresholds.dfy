/** Failure budgets: how many scenarios fail per dimension, and whether a run stays within its thresholds. */
module Thresholds {
  import opened Prelude
  import opened Ordering
  import opened Reals

  // ----- what is scored -----

  datatype Level = High | Medium | Low | Pass | Fail | Inconclusive

  /** One rule's outcome; `passed` is None for a check that was skipped. */
  datatype Check = Check(dimension: string, passed: Option<bool>)

  /** What a judge said about one turn. */
  datatype Turn = Turn(index: int, dims: map<string, Level>)

  /** A judge votes on the whole scenario or turn by turn. */
  datatype Payload = Whole(dims: map<string, Level>) | PerTurn(turns: seq<Turn>)

  /** `key` is `group/scenario_name`; `rules` is None when there is no rules payload. */
  datatype Score = Score(key: string, rules: Option<seq<Check>>, judges: seq<Payload>)

  // ----- the verdict of one judge -----

  function Rank(l: Level): int {
    match l case Inconclusive => -1 case Fail => 0 case Low => 0 case Medium => 1 case High => 2 case Pass => 2
  }

  datatype Entry = Entry(index: int, level: Level)

  function Entries(turns: seq<Turn>, dim: string): seq<Entry> {
    if turns == [] then []
    else
      var t := turns[|turns| - 1];
      Entries(turns[..|turns| - 1], dim) + if dim in t.dims then [Entry(t.index, t.dims[dim])] else []
  }

  predicate Worse(a: Entry, b: Entry) {
    Rank(a.level) < Rank(b.level) || (Rank(a.level) == Rank(b.level) && a.index < b.index)
  }

  /** The first of the worst entries, ties going to the earlier turn. */
  function Worst(entries: seq<Entry>): (w: Entry)
    requires entries != []
    ensures w in entries && forall e :: e in entries ==> !Worse(e, w)
  {
    var last := |entries| - 1;
    if last == 0 then entries[0]
    else
      var w := Worst(entries[..last]);
      assert forall e :: e in entries ==> e in entries[..last] || e == entries[last];
      if Worse(entries[last], w) then entries[last] else w
  }

  lemma {:induction false} EntriesExact(turns: seq<Turn>, dim: string, e: Entry)
    ensures e in Entries(turns, dim) <==> exists t :: t in turns && dim in t.dims && e == Entry(t.index, t.dims[dim])
  {
    if turns != [] {
      var last := |turns| - 1;
      EntriesExact(turns[..last], dim, e);
      assert turns == turns[..last] + [turns[last]];
      assert forall t :: t in turns <==> t in turns[..last] || t == turns[last];
    }
  }

  function Dims(p: Payload): set<string> {
    match p case Whole(dims) => dims.Keys case PerTurn(turns) => set t, d | t in turns && d in t.dims :: d
  }

  lemma EntriesSome(turns: seq<Turn>, dim: string)
    requires dim in Dims(PerTurn(turns))
    ensures Entries(turns, dim) != []
  {
    var t :| t in turns && dim in t.dims;
    EntriesExact(turns, dim, Entry(t.index, t.dims[dim]));
  }

  /** The one level that the rest of the aggregation sees. */
  function Verdict(p: Payload, dim: string): Level
    requires dim in Dims(p)
  {
    match p
    case Whole(dims) => dims[dim]
    case PerTurn(turns) => EntriesSome(turns, dim); Worst(Entries(turns, dim)).level
  }

  /** Everything the judge said on a dimension. */
  ghost predicate Voted(p: Payload, dim: string, l: Level) {
    match p
    case Whole(dims) => dim in dims && dims[dim] == l
    case PerTurn(turns) => exists t :: t in turns && dim in t.dims && t.dims[dim] == l
  }

  /** The verdict is one of the votes, and no vote is worse. */
  lemma VerdictIsWorst(p: Payload, dim: string)
    requires dim in Dims(p)
    ensures Voted(p, dim, Verdict(p, dim))
    ensures forall l :: Voted(p, dim, l) ==> Rank(Verdict(p, dim)) <= Rank(l)
  {
    if p.PerTurn? {
      EntriesSome(p.turns, dim);
      var w := Worst(Entries(p.turns, dim));
      EntriesExact(p.turns, dim, w);
      forall l | Voted(p, dim, l) ensures Rank(w.level) <= Rank(l) {
        var t :| t in p.turns && dim in t.dims && t.dims[dim] == l;
        EntriesExact(p.turns, dim, Entry(t.index, l));
      }
    }
  }

  /** In levels: an inconclusive vote decides, then a failing or low one, then a medium one. */
  lemma VerdictByLevel(p: Payload, dim: string)
    requires dim in Dims(p)
    ensures Verdict(p, dim) == Inconclusive <==> Voted(p, dim, Inconclusive)
    ensures Verdict(p, dim) in {Fail, Low} <==>
      !Voted(p, dim, Inconclusive) && (Voted(p, dim, Fail) || Voted(p, dim, Low))
    ensures Verdict(p, dim) in {High, Pass} <==> forall l :: Voted(p, dim, l) ==> l in {High, Pass}
  {
    VerdictIsWorst(p, dim);
  }

  datatype Row = Row(dim: string, level: Level)

  predicate Gives(p: Payload, row: Row) { row.dim in Dims(p) && row.level == Verdict(p, row.dim) }

  /** One row per dimension, dimensions sorted. */
  function Rows(p: Payload): (r: seq<Row>)
    ensures forall row :: row in r <==> Gives(p, row)
  {
    var dims := Sorted(Dims(p));
    var r := seq(|dims|, i requires 0 <= i < |dims| => assert dims[i] in dims; Row(dims[i], Verdict(p, dims[i])));
    assert forall row :: Gives(p, row) ==> row in r by {
      forall row | Gives(p, row) ensures row in r {
        assert row.dim in dims;
        var i :| 0 <= i < |dims| && dims[i] == row.dim;
        assert r[i] == row;
      }
    }
    r
  }

  // ----- folding the judges of one scenario -----

  /** All rows of all judges. */
  function AllRows(judges: seq<Payload>): seq<Row> {
    if judges == [] then [] else AllRows(judges[..|judges| - 1]) + Rows(judges[|judges| - 1])
  }

  function Fold(rows: seq<Row>, dim: string, failOn: set<Level>): Option<Level> {
    if rows == [] then None
    else
      var before, row := Fold(rows[..|rows| - 1], dim, failOn), rows[|rows| - 1];
      if row.dim == dim && (before.None? || (row.level in failOn && before.value !in failOn))
      then Some(row.level) else before
  }

  predicate FailedOn(rows: seq<Row>, dim: string, failOn: set<Level>) {
    exists row :: row in rows && row.dim == dim && row.level in failOn
  }

  predicate SeenOn(rows: seq<Row>, dim: string) { exists row :: row in rows && row.dim == dim }

  lemma {:induction false} FoldMeans(rows: seq<Row>, dim: string, failOn: set<Level>)
    ensures Fold(rows, dim, failOn).Some? <==> SeenOn(rows, dim)
    ensures Fold(rows, dim, failOn).Some? && Fold(rows, dim, failOn).value in failOn <==> FailedOn(rows, dim, failOn)
  {
    if rows != [] {
      var last := |rows| - 1;
      FoldMeans(rows[..last], dim, failOn);
      assert rows == rows[..last] + [rows[last]];
      assert forall row :: row in rows <==> row in rows[..last] || row == rows[last];
    }
  }

  predicate SomeGives(judges: seq<Payload>, row: Row) { exists p :: p in judges && Gives(p, row) }

  lemma SomeGivesAppend(judges: seq<Payload>, p: Payload, row: Row)
    ensures SomeGives(judges + [p], row) <==> SomeGives(judges, row) || Gives(p, row)
  {
    var all := judges + [p];
    if SomeGives(judges, row) {
      var q :| q in judges && Gives(q, row);
      assert q in all;
    }
    assert p in all;
  }

  lemma AllRowsAppend(judges: seq<Payload>, p: Payload)
    ensures AllRows(judges + [p]) == AllRows(judges) + Rows(p)
  {
    assert (judges + [p])[..|judges|] == judges;
  }

  lemma RowsNext(judges: seq<Payload>, p: Payload, row: Row)
    ensures row in AllRows(judges + [p]) <==> row in AllRows(judges) || Gives(p, row)
  {
    AllRowsAppend(judges, p);
  }

  lemma {:induction false} AllRowsExact(judges: seq<Payload>, row: Row)
    ensures row in AllRows(judges) <==> SomeGives(judges, row)
  {
    if judges != [] {
      var front, p := judges[..|judges| - 1], judges[|judges| - 1];
      assert judges == front + [p];
      AllRowsExact(front, row);
      RowsNext(front, p, row);
      SomeGivesAppend(front, p, row);
    }
  }

  predicate Fails(s: Score, dim: string, failOn: set<Level>) { FailedOn(AllRows(s.judges), dim, failOn) }
  predicate Judged(s: Score, dim: string) { SeenOn(AllRows(s.judges), dim) }

  /**
   * A scenario fails a dimension exactly when some judge's verdict is in the fail set: the order of
   * the judges is irrelevant.
   */
  lemma FailsIff(s: Score, dim: string, failOn: set<Level>)
    ensures Fails(s, dim, failOn) <==> exists p :: p in s.judges && dim in Dims(p) && Verdict(p, dim) in failOn
    ensures Judged(s, dim) <==> exists p :: p in s.judges && dim in Dims(p)
  {
    forall row | row in AllRows(s.judges) && row.dim == dim
      ensures exists p :: p in s.judges && dim in Dims(p) && row.level == Verdict(p, dim)
    {
      AllRowsExact(s.judges, row);
      var p :| p in s.judges && Gives(p, row);
    }
    forall p | p in s.judges && dim in Dims(p) ensures Row(dim, Verdict(p, dim)) in AllRows(s.judges) {
      var row := Row(dim, Verdict(p, dim));
      AllRowsExact(s.judges, row);
      assert Gives(p, row);
    }
  }

  lemma JudgeOrderIrrelevant(s: Score, t: Score, dim: string, failOn: set<Level>)
    requires multiset(s.judges) == multiset(t.judges)
    ensures Fails(s, dim, failOn) <==> Fails(t, dim, failOn)
    ensures Judged(s, dim) <==> Judged(t, dim)
  {
    FailsIff(s, dim, failOn);
    FailsIff(t, dim, failOn);
    assert forall p :: p in s.judges <==> p in multiset(s.judges);
    assert forall p :: p in t.judges <==> p in multiset(t.judges);
  }

  // ----- votes against verdicts -----

  /** Some judge, on the scenario or on some turn, gave a level in the fail set. */
  ghost predicate FailingVote(s: Score, dim: string, failOn: set<Level>) {
    exists p, l :: p in s.judges && Voted(p, dim, l) && l in failOn
  }

  /** Everything ranked no better than a level that fails, fails. */
  predicate DownwardClosed(failOn: set<Level>) {
    forall l, m :: l in failOn && Rank(m) <= Rank(l) ==> m in failOn
  }

  lemma FailsByVote(s: Score, dim: string, failOn: set<Level>)
    ensures Fails(s, dim, failOn) ==> FailingVote(s, dim, failOn)
    ensures DownwardClosed(failOn) && FailingVote(s, dim, failOn) ==> Fails(s, dim, failOn)
  {
    FailsIff(s, dim, failOn);
    if Fails(s, dim, failOn) {
      var p :| p in s.judges && dim in Dims(p) && Verdict(p, dim) in failOn;
      VerdictIsWorst(p, dim);
    }
    if DownwardClosed(failOn) && FailingVote(s, dim, failOn) {
      var p, l :| p in s.judges && Voted(p, dim, l) && l in failOn;
      VerdictIsWorst(p, dim);
    }
  }

  /** A judge that votes `m` on the first turn and `l` on the second. */
  function TwoTurns(dim: string, m: Level, l: Level): Score {
    Score("g/s", None, [PerTurn([Turn(0, map[dim := m]), Turn(1, map[dim := l])])])
  }

  lemma TwoTurnsHideTheSecond(dim: string, m: Level, l: Level, failOn: set<Level>)
    requires l in failOn && m !in failOn && Rank(m) <= Rank(l)
    ensures FailingVote(TwoTurns(dim, m, l), dim, failOn) && !Fails(TwoTurns(dim, m, l), dim, failOn)
  {
    var s := TwoTurns(dim, m, l);
    var p, turns := s.judges[0], s.judges[0].turns;
    var first := turns[..1];
    assert first[..0] == [] && Entries(first[..0], dim) == [];
    assert Entries(first, dim) == [Entry(0, m)];
    assert Entries(turns, dim) == [Entry(0, m), Entry(1, l)];
    assert Voted(p, dim, l) by { assert turns[1] in turns; }
    assert dim in Dims(p) by { assert turns[0] in turns; }
    var w := Worst(Entries(turns, dim));
    assert w == Entry(0, m) by { assert Entries(turns, dim)[0] in Entries(turns, dim); }
    assert Verdict(p, dim) == m;
    FailsIff(s, dim, failOn);
  }

  ghost predicate FailingVotesCount(failOn: set<Level>) {
    forall s, dim :: FailingVote(s, dim, failOn) ==> Fails(s, dim, failOn)
  }

  /** A failing vote always fails its scenario if and only if the fail set is closed downwards in rank. */
  lemma FailingVotesCountIff(failOn: set<Level>)
    ensures FailingVotesCount(failOn) <==> DownwardClosed(failOn)
  {
    if DownwardClosed(failOn) {
      forall s, dim | FailingVote(s, dim, failOn) ensures Fails(s, dim, failOn) { FailsByVote(s, dim, failOn); }
    } else {
      var l, m :| l in failOn && Rank(m) <= Rank(l) && m !in failOn;
      TwoTurnsHideTheSecond("d", m, l, failOn);
    }
  }

  /** The default set is closed; `{Fail}` is not, since an inconclusive turn hides a failing one. */
  lemma DefaultClosed()
    ensures DownwardClosed(DEFAULT_FAIL_LEVELS) && !DownwardClosed({Fail})
  {
    assert Fail in {Fail} && Rank(Inconclusive) <= Rank(Fail) && Inconclusive !in {Fail};
  }

  const DEFAULT_FAIL_LEVELS: set<Level> := {Low, Fail, Inconclusive}

  // ----- counting the judged scenarios -----

  datatype Tally = Tally(failed: nat, total: nat)

  function JudgeDims(judges: seq<Payload>): set<string> {
    if judges == [] then {} else JudgeDims(judges[..|judges| - 1]) + Dims(judges[|judges| - 1])
  }

  function LlmDims(scores: seq<Score>): set<string> {
    if scores == [] then {} else LlmDims(scores[..|scores| - 1]) + JudgeDims(scores[|scores| - 1].judges)
  }

  lemma {:induction false} JudgeDimsExact(judges: seq<Payload>, dim: string)
    ensures dim in JudgeDims(judges) <==> exists p :: p in judges && dim in Dims(p)
  {
    if judges != [] {
      var last := |judges| - 1;
      JudgeDimsExact(judges[..last], dim);
      assert judges == judges[..last] + [judges[last]];
      assert forall p :: p in judges <==> p in judges[..last] || p == judges[last];
    }
  }

  lemma {:induction false} LlmDimsExact(scores: seq<Score>, dim: string)
    ensures dim in LlmDims(scores) <==> CountIf(scores, JudgedOn(dim)) > 0
  {
    if scores != [] {
      var last := |scores| - 1;
      LlmDimsExact(scores[..last], dim);
      JudgeDimsExact(scores[last].judges, dim);
      FailsIff(scores[last], dim, {});
    }
  }

  function FailsOn(dim: string, failOn: set<Level>): Score -> bool { s => Fails(s, dim, failOn) }
  function JudgedOn(dim: string): Score -> bool { s => Judged(s, dim) }

  function LlmTally(scores: seq<Score>, dim: string, failOn: set<Level>): Tally {
    Tally(CountIf(scores, FailsOn(dim, failOn)), CountIf(scores, JudgedOn(dim)))
  }

  function LlmFailures(scores: seq<Score>, failOn: set<Level>): map<string, Tally> {
    map d | d in LlmDims(scores) :: LlmTally(scores, d, failOn)
  }

  lemma FoldAppend(rows: seq<Row>, row: Row, dim: string, failOn: set<Level>)
    ensures Fold(rows + [row], dim, failOn) ==
      var before := Fold(rows, dim, failOn);
      if row.dim == dim && (before.None? || (row.level in failOn && before.value !in failOn))
      then Some(row.level) else before
  {
    assert (rows + [row])[..|rows|] == rows;
  }

  method FoldRows(rows: seq<Row>, dim: string, failOn: set<Level>, start: Option<Level>, ghost before: seq<Row>)
      returns (worst: Option<Level>)
    requires start == Fold(before, dim, failOn)
    ensures worst == Fold(before + rows, dim, failOn)
  {
    worst := start;
    assert before + rows[..0] == before;
    for j := 0 to |rows|
      invariant worst == Fold(before + rows[..j], dim, failOn)
    {
      assert before + rows[..j + 1] == before + rows[..j] + [rows[j]];
      FoldAppend(before + rows[..j], rows[j], dim, failOn);
      if rows[j].dim == dim {
        if worst.None? || (rows[j].level in failOn && worst.value !in failOn) { worst := Some(rows[j].level); }
      }
    }
    assert rows[..|rows|] == rows;
  }

  method WorstVerdict(judges: seq<Payload>, dim: string, failOn: set<Level>) returns (worst: Option<Level>)
    ensures worst == Fold(AllRows(judges), dim, failOn)
  {
    worst := None;
    for i := 0 to |judges|
      invariant worst == Fold(AllRows(judges[..i]), dim, failOn)
    {
      assert judges[..i + 1] == judges[..i] + [judges[i]];
      AllRowsAppend(judges[..i], judges[i]);
      worst := FoldRows(Rows(judges[i]), dim, failOn, worst, AllRows(judges[..i]));
    }
    assert judges[..|judges|] == judges;
  }

  method CountLlmDim(scores: seq<Score>, dim: string, failOn: set<Level>) returns (t: Tally)
    ensures t == LlmTally(scores, dim, failOn)
  {
    var failed: nat, total: nat := 0, 0;
    for i := 0 to |scores|
      invariant failed == CountIf(scores[..i], FailsOn(dim, failOn)) && total == CountIf(scores[..i], JudgedOn(dim))
    {
      assert scores[..i + 1] == scores[..i] + [scores[i]];
      CountIfAppend(scores[..i], scores[i], FailsOn(dim, failOn));
      CountIfAppend(scores[..i], scores[i], JudgedOn(dim));
      var worst := WorstVerdict(scores[i].judges, dim, failOn);
      FoldMeans(AllRows(scores[i].judges), dim, failOn);
      if worst.Some? {
        total := total + 1;
        if worst.value in failOn { failed := failed + 1; }
      }
    }
    assert scores[..|scores|] == scores;
    t := Tally(failed, total);
  }

  method CountLlmDims(scores: seq<Score>, dims: seq<string>, failOn: set<Level>) returns (result: map<string, Tally>)
    requires forall d :: d in dims ==> CountIf(scores, JudgedOn(d)) > 0
    ensures forall d :: d in result <==> d in dims
    ensures forall d :: d in result ==> result[d] == LlmTally(scores, d, failOn)
  {
    result := map[];
    for i := 0 to |dims|
      invariant forall j :: 0 <= j < i ==> dims[j] in result
      invariant forall d :: d in result ==> d in dims && result[d] == LlmTally(scores, d, failOn)
    {
      assert dims[i] in dims;
      var t := CountLlmDim(scores, dims[i], failOn);
      if t.total > 0 { result := result[dims[i] := t]; }
    }
  }

  method CountLlmFailures(scores: seq<Score>, failOn: set<Level>) returns (result: map<string, Tally>)
    ensures result == LlmFailures(scores, failOn)
  {
    var found := LlmDims(scores);
    var dims := Sorted(found);
    forall d | d in dims ensures CountIf(scores, JudgedOn(d)) > 0 { LlmDimsExact(scores, d); }
    result := CountLlmDims(scores, dims, failOn);
  }

  /** Failures never exceed the scenarios counted, a counted dimension has one, and a larger fail set fails no fewer. */
  lemma LlmCounts(scores: seq<Score>, failOn: set<Level>, larger: set<Level>)
    requires failOn <= larger
    ensures LlmFailures(scores, failOn).Keys == LlmFailures(scores, larger).Keys
    ensures forall d :: d in LlmFailures(scores, failOn) ==>
      var t, u := LlmFailures(scores, failOn)[d], LlmFailures(scores, larger)[d];
      t.failed <= u.failed <= t.total == u.total && t.total > 0
  {
    forall d | d in LlmDims(scores)
      ensures LlmTally(scores, d, failOn).failed <= LlmTally(scores, d, larger).failed
      ensures LlmTally(scores, d, larger).failed <= LlmTally(scores, d, failOn).total
      ensures LlmTally(scores, d, failOn).total > 0
    {
      CountIfMonotone(scores, FailsOn(d, failOn), FailsOn(d, larger));
      CountIfMonotone(scores, FailsOn(d, larger), JudgedOn(d));
      LlmDimsExact(scores, d);
    }
  }

  // ----- counting the scenarios with rules -----

  /** One check of one scenario. */
  datatype Event = Event(key: string, dim: string, passed: Option<bool>)

  function DimOf(c: Check): string { if c.dimension == "" then "unknown" else c.dimension }

  function EventsOf(key: string, checks: seq<Check>): (r: seq<Event>)
    ensures |r| == |checks| && forall i :: 0 <= i < |r| ==> r[i] == Event(key, DimOf(checks[i]), checks[i].passed)
  {
    seq(|checks|, i requires 0 <= i < |checks| => Event(key, DimOf(checks[i]), checks[i].passed))
  }

  function ScoreEvents(s: Score): seq<Event> { if s.rules.None? then [] else EventsOf(s.key, s.rules.value) }

  function Events(scores: seq<Score>): seq<Event> {
    if scores == [] then [] else Events(scores[..|scores| - 1]) + ScoreEvents(scores[|scores| - 1])
  }

  /** Per dimension, whether each scenario key has passed so far. */
  type Table = map<string, map<string, bool>>

  function At(t: Table, dim: string): map<string, bool> { if dim in t then t[dim] else map[] }

  function Put(t: Table, e: Event): Table {
    var row := At(t, e.dim);
    var row := if e.key in row then row else row[e.key := true];
    t[e.dim := if e.passed == Some(false) then row[e.key := false] else row]
  }

  function TableOf(events: seq<Event>): Table {
    if events == [] then map[] else Put(TableOf(events[..|events| - 1]), events[|events| - 1])
  }

  predicate Checked(events: seq<Event>, dim: string, key: string) {
    exists e :: e in events && e.dim == dim && e.key == key
  }

  predicate CheckFailed(events: seq<Event>, dim: string, key: string) { Event(key, dim, Some(false)) in events }

  /**
   * Whatever order the checks come in, a key is in the table when it was checked and false in it when
   * a check failed.
   */
  lemma {:induction false} TableExact(events: seq<Event>, dim: string, key: string)
    ensures key in At(TableOf(events), dim) <==> Checked(events, dim, key)
    ensures key in At(TableOf(events), dim) ==> (At(TableOf(events), dim)[key] <==> !CheckFailed(events, dim, key))
    ensures dim in TableOf(events) <==> At(TableOf(events), dim) != map[]
  {
    if events != [] {
      var last := |events| - 1;
      var e := events[last];
      TableExact(events[..last], dim, key);
      assert events == events[..last] + [e];
      assert forall x :: x in events <==> x in events[..last] || x == e;
      assert e.key in At(TableOf(events), e.dim);
    }
  }

  function CountRow(row: map<string, bool>): Tally { Tally(|set k | k in row && !row[k]|, |row|) }

  function RulesFailures(scores: seq<Score>): map<string, Tally> {
    var t := TableOf(Events(scores));
    map d | d in t :: CountRow(t[d])
  }

  lemma TableAppend(events: seq<Event>, e: Event)
    ensures TableOf(events + [e]) == Put(TableOf(events), e)
  {
    assert (events + [e])[..|events|] == events;
  }

  lemma EventsAppend(scores: seq<Score>, s: Score)
    ensures Events(scores + [s]) == Events(scores) + ScoreEvents(s)
  {
    assert (scores + [s])[..|scores|] == scores;
  }

  method AddCheck(key: string, check: Check, start: Table) returns (table: Table)
    ensures table == Put(start, Event(key, DimOf(check), check.passed))
  {
    table := start;
    var dim := DimOf(check);
    if dim !in table { table := table[dim := map[]]; }
    if key !in table[dim] { table := table[dim := table[dim][key := true]]; }
    if check.passed == Some(false) { table := table[dim := table[dim][key := false]]; }
    assert table.Keys == start.Keys + {dim};
  }

  method AddNext(key: string, check: Check, start: Table, ghost before: seq<Event>) returns (table: Table)
    requires start == TableOf(before)
    ensures table == TableOf(before + [Event(key, DimOf(check), check.passed)])
  {
    table := AddCheck(key, check, start);
    TableAppend(before, Event(key, DimOf(check), check.passed));
  }

  lemma EventsNext(key: string, checks: seq<Check>, before: seq<Event>, j: nat)
    requires j < |checks|
    ensures before + EventsOf(key, checks)[..j + 1] ==
      before + EventsOf(key, checks)[..j] + [Event(key, DimOf(checks[j]), checks[j].passed)]
  {
  }

  method AddChecks(key: string, checks: seq<Check>, start: Table, ghost before: seq<Event>) returns (table: Table)
    requires start == TableOf(before)
    ensures table == TableOf(before + EventsOf(key, checks))
  {
    table := start;
    ghost var events := EventsOf(key, checks);
    assert before + events[..0] == before;
    for j := 0 to |checks|
      invariant table == TableOf(before + events[..j])
    {
      EventsNext(key, checks, before, j);
      table := AddNext(key, checks[j], table, before + events[..j]);
    }
    assert events[..|checks|] == events;
  }

  method CountRulesFailures(scores: seq<Score>) returns (result: map<string, Tally>)
    ensures result == RulesFailures(scores)
  {
    var table: Table := map[];
    for i := 0 to |scores|
      invariant table == TableOf(Events(scores[..i]))
    {
      assert scores[..i + 1] == scores[..i] + [scores[i]];
      EventsAppend(scores[..i], scores[i]);
      if scores[i].rules.Some? {
        table := AddChecks(scores[i].key, scores[i].rules.value, table, Events(scores[..i]));
      } else {
        assert Events(scores[..i]) + [] == Events(scores[..i]);
      }
    }
    assert scores[..|scores|] == scores;
    result := map d | d in table :: CountRow(table[d]);
  }

  /** The scenario has a check on the dimension, and has one that failed. */
  predicate HasCheck(s: Score, dim: string) {
    s.rules.Some? && exists c :: c in s.rules.value && DimOf(c) == dim
  }

  predicate HasFailedCheck(s: Score, dim: string) {
    s.rules.Some? && exists c :: c in s.rules.value && DimOf(c) == dim && c.passed == Some(false)
  }

  /** A check without a dimension counts as one on "unknown". */
  lemma NamedCheck(s: Score, dim: string)
    ensures HasCheck(s, dim) <==>
      s.rules.Some? && exists c :: c in s.rules.value && dim == if c.dimension == "" then "unknown" else c.dimension
  {
  }

  function CheckedKeys(scores: seq<Score>, dim: string): set<string> {
    set s | s in scores && HasCheck(s, dim) :: s.key
  }
  function FailedKeys(scores: seq<Score>, dim: string): set<string> {
    set s | s in scores && HasFailedCheck(s, dim) :: s.key
  }

  lemma {:induction false} EventsExact(scores: seq<Score>, e: Event)
    ensures e in Events(scores) <==>
      exists s, c :: s in scores && s.rules.Some? && c in s.rules.value && e == Event(s.key, DimOf(c), c.passed)
  {
    if scores != [] {
      var last := |scores| - 1;
      EventsExact(scores[..last], e);
      assert scores == scores[..last] + [scores[last]];
      assert forall s :: s in scores <==> s in scores[..last] || s == scores[last];
      assert scores[last].rules.Some? ==> forall c :: c in scores[last].rules.value ==>
        Event(scores[last].key, DimOf(c), c.passed) in ScoreEvents(scores[last]);
    }
  }

  lemma KeysExact(scores: seq<Score>, dim: string, key: string)
    ensures Checked(Events(scores), dim, key) <==> key in CheckedKeys(scores, dim)
    ensures CheckFailed(Events(scores), dim, key) <==> key in FailedKeys(scores, dim)
  {
    EventsExact(scores, Event(key, dim, Some(false)));
    if Checked(Events(scores), dim, key) {
      var e :| e in Events(scores) && e.dim == dim && e.key == key;
      EventsExact(scores, e);
    }
    if key in CheckedKeys(scores, dim) {
      var s :| s in scores && HasCheck(s, dim) && s.key == key;
      var c :| c in s.rules.value && DimOf(c) == dim;
      EventsExact(scores, Event(key, dim, c.passed));
    }
  }

  /** The fold over checks is a count of distinct scenario keys: those checked, and those with a failed check. */
  lemma RulesCounts(scores: seq<Score>, dim: string)
    ensures dim in RulesFailures(scores) <==> CheckedKeys(scores, dim) != {}
    ensures dim in RulesFailures(scores) ==>
      RulesFailures(scores)[dim] == Tally(|FailedKeys(scores, dim)|, |CheckedKeys(scores, dim)|)
    ensures |FailedKeys(scores, dim)| <= |CheckedKeys(scores, dim)|
  {
    var events := Events(scores);
    var row := At(TableOf(events), dim);
    var failed := set k | k in row && !row[k];
    forall k
      ensures k in row <==> k in CheckedKeys(scores, dim)
      ensures k in failed <==> k in FailedKeys(scores, dim)
    {
      TableExact(events, dim, k);
      KeysExact(scores, dim, k);
    }
    assert row.Keys == CheckedKeys(scores, dim);
    assert failed == FailedKeys(scores, dim);
    assert failed <= row.Keys;
    Cardinality(failed, row.Keys);
    TableExact(events, dim, "");
  }

  lemma {:induction false} Cardinality<T>(a: set<T>, b: set<T>)
    requires a <= b
    ensures |a| <= |b|
  {
    if a != {} {
      var x :| x in a;
      Cardinality(a - {x}, b - {x});
    }
  }

  // ----- enforcing budgets -----

  type Counts = map<string, Tally>

  /** Mode, then dimension, to the percentage that may fail. */
  type Budgets = map<string, map<string, real>>

  datatype ThresholdCheck = ThresholdCheck(dimension: string, actual: real, max: real, passed: bool)

  /** Percentage of failures; nothing counted is no failure. */
  function Actual(counts: Counts, dim: string): real {
    var t := if dim in counts then counts[dim] else Tally(0, 0);
    if t.total > 0 then t.failed as real / t.total as real * 100.0 else 0.0
  }

  function CheckOf(counts: Counts, mode: string, dim: string, max: real): ThresholdCheck {
    ThresholdCheck(mode + "/" + dim, Actual(counts, dim), max, Actual(counts, dim) <= max)
  }

  function ModeChecks(counts: Counts, mode: string, dims: seq<string>, budget: map<string, real>): seq<ThresholdCheck>
    requires forall d :: d in dims ==> d in budget
  {
    seq(|dims|, i requires 0 <= i < |dims| => assert dims[i] in dims; CheckOf(counts, mode, dims[i], budget[dims[i]]))
  }

  function CountsOf(mode: string, rules: Counts, llm: Counts): Counts { if mode == "rules" then rules else llm }

  /** One check per mode and dimension, both sorted. */
  function ChecksOf(budgets: Budgets, modes: seq<string>, rules: Counts, llm: Counts): seq<ThresholdCheck>
    requires forall m :: m in modes ==> m in budgets
  {
    if modes == [] then []
    else
      var m := modes[|modes| - 1];
      ChecksOf(budgets, modes[..|modes| - 1], rules, llm)
        + ModeChecks(CountsOf(m, rules, llm), m, Sorted(budgets[m].Keys), budgets[m])
  }

  lemma ChecksOfNext(budgets: Budgets, modes: seq<string>, i: nat, rules: Counts, llm: Counts)
    requires i < |modes| && forall m :: m in modes ==> m in budgets
    ensures modes[i] in budgets
    ensures ChecksOf(budgets, modes[..i + 1], rules, llm) == ChecksOf(budgets, modes[..i], rules, llm)
      + ModeChecks(CountsOf(modes[i], rules, llm), modes[i], Sorted(budgets[modes[i]].Keys), budgets[modes[i]])
  {
    assert modes[..i + 1][..i] == modes[..i];
  }

  predicate AllPassed(checks: seq<ThresholdCheck>) { forall c :: c in checks ==> c.passed }

  lemma AllPassedAppend(a: seq<ThresholdCheck>, b: seq<ThresholdCheck>)
    ensures AllPassed(a + b) <==> AllPassed(a) && AllPassed(b)
  {
    assert forall c :: c in a + b <==> c in a || c in b;
  }

  method EnforceDim(counts: Counts, mode: string, dim: string, max: real) returns (check: ThresholdCheck)
    ensures check == CheckOf(counts, mode, dim, max)
  {
    var actual := Actual(counts, dim);
    var passed := actual <= max;
    check := ThresholdCheck(mode + "/" + dim, actual, max, passed);
  }

  method EnforceMode(counts: Counts, mode: string, dims: seq<string>, budget: map<string, real>)
      returns (allPassed: bool, checks: seq<ThresholdCheck>)
    requires forall d :: d in dims ==> d in budget
    ensures checks == ModeChecks(counts, mode, dims, budget)
    ensures allPassed <==> AllPassed(checks)
  {
    ghost var all := ModeChecks(counts, mode, dims, budget);
    allPassed, checks := true, [];
    for i := 0 to |dims|
      invariant checks == all[..i]
      invariant allPassed <==> AllPassed(checks)
    {
      assert dims[i] in dims;
      var check := EnforceDim(counts, mode, dims[i], budget[dims[i]]);
      AllPassedAppend(checks, [check]);
      checks := checks + [check];
      if !check.passed { allPassed := false; }
    }
  }

  class ThresholdEnforcer {
    const scores: seq<Score>
    const failOn: set<Level>
    var rulesFailures: Option<Counts>
    var llmFailures: Option<Counts>

    /** What has been memoised is what counting again would give. */
    ghost predicate Fresh()
      reads this
    {
      && (rulesFailures.Some? ==> rulesFailures.value == RulesFailures(scores))
      && (llmFailures.Some? ==> llmFailures.value == LlmFailures(scores, failOn))
    }

    constructor (scores: seq<Score>, failOn: set<Level>)
      ensures this.scores == scores && this.failOn == (if failOn == {} then DEFAULT_FAIL_LEVELS else failOn)
      ensures rulesFailures.None? && llmFailures.None? && Fresh()
    {
      this.scores := scores;
      this.failOn := if failOn == {} then DEFAULT_FAIL_LEVELS else failOn;
      rulesFailures, llmFailures := None, None;
    }

    /** What the getters give: what was memoised, or else a fresh count. */
    ghost function RulesNow(): Counts
      reads this
    {
      if rulesFailures.Some? then rulesFailures.value else RulesFailures(scores)
    }

    ghost function LlmNow(): Counts
      reads this
    {
      if llmFailures.Some? then llmFailures.value else LlmFailures(scores, failOn)
    }

    method GetRulesFailures() returns (r: Counts)
      modifies this`rulesFailures
      ensures r == old(RulesNow()) == RulesNow() && rulesFailures == Some(r)
      ensures old(Fresh()) ==> Fresh() && r == RulesFailures(scores)
    {
      if rulesFailures.None? {
        var counts := CountRulesFailures(scores);
        rulesFailures := Some(counts);
      }
      r := rulesFailures.value;
    }

    method GetLlmFailures() returns (r: Counts)
      modifies this`llmFailures
      ensures r == old(LlmNow()) == LlmNow() && llmFailures == Some(r)
      ensures old(Fresh()) ==> Fresh() && r == LlmFailures(scores, failOn)
    {
      if llmFailures.None? {
        var counts := CountLlmFailures(scores, failOn);
        llmFailures := Some(counts);
      }
      r := llmFailures.value;
    }

    method GetFailures(mode: string) returns (r: Counts)
      modifies this
      ensures RulesNow() == old(RulesNow()) && LlmNow() == old(LlmNow()) && (old(Fresh()) ==> Fresh())
      ensures r == CountsOf(mode, RulesNow(), LlmNow())
    {
      if mode == "rules" { r := GetRulesFailures(); } else { r := GetLlmFailures(); }
    }

    method Enforce(budgets: Budgets) returns (allPassed: bool, checks: seq<ThresholdCheck>)
      modifies this
      ensures RulesNow() == old(RulesNow()) && LlmNow() == old(LlmNow()) && (old(Fresh()) ==> Fresh())
      ensures checks == ChecksOf(budgets, Sorted(budgets.Keys), RulesNow(), LlmNow())
      ensures old(Fresh()) ==>
        checks == ChecksOf(budgets, Sorted(budgets.Keys), RulesFailures(scores), LlmFailures(scores, failOn))
      ensures allPassed <==> AllPassed(checks)
      ensures old(Fresh()) ==> (allPassed <==> RunKeepsBudgets(budgets, scores, failOn))
    {
      var modes := Sorted(budgets.Keys);
      ghost var rules, llm := RulesNow(), LlmNow();
      allPassed, checks := true, [];
      for i := 0 to |modes|
        invariant RulesNow() == rules && LlmNow() == llm && (old(Fresh()) ==> Fresh())
        invariant checks == ChecksOf(budgets, modes[..i], rules, llm)
        invariant allPassed <==> AllPassed(checks)
      {
        ChecksOfNext(budgets, modes, i, rules, llm);
        var counts := GetFailures(modes[i]);
        var passed, more := EnforceMode(counts, modes[i], Sorted(budgets[modes[i]].Keys), budgets[modes[i]]);
        AllPassedAppend(checks, more);
        checks := checks + more;
        if !passed { allPassed := false; }
      }
      assert modes[..|modes|] == modes;
      if old(Fresh()) {
        FreshCounts();
        EnforcedOnRun(budgets, scores, failOn);
      }
    }

    /** On an enforcer that memoised nothing but its own counts, these are the counts in force. */
    lemma FreshCounts()
      requires Fresh()
      ensures RulesNow() == RulesFailures(scores) && LlmNow() == LlmFailures(scores, failOn)
    {
    }
  }

  /** Enforcing given counts: an enforcer of no scores whose memo is filled from outside. */
  method EnforceThresholds(budgets: Budgets, rules: Counts, llm: Counts)
      returns (allPassed: bool, checks: seq<ThresholdCheck>)
    ensures checks == ChecksOf(budgets, Sorted(budgets.Keys), rules, llm)
    ensures allPassed <==> AllPassed(checks)
    ensures allPassed <==> CountsKeepBudgets(budgets, rules, llm)
  {
    var enforcer := new ThresholdEnforcer([], {});
    enforcer.rulesFailures, enforcer.llmFailures := Some(rules), Some(llm);
    allPassed, checks := enforcer.Enforce(budgets);
    EnforcedOnCounts(budgets, rules, llm);
  }

  // ----- what enforcement means -----

  /** Every budgeted dimension stays within its budget. */
  ghost predicate Within(budgets: Budgets, rules: Counts, llm: Counts) {
    forall m, d :: m in budgets && d in budgets[m] ==> Actual(CountsOf(m, rules, llm), d) <= budgets[m][d]
  }

  ghost predicate ModeWithin(budget: map<string, real>, counts: Counts) {
    forall d :: d in budget ==> Actual(counts, d) <= budget[d]
  }

  lemma ModePasses(counts: Counts, mode: string, dims: seq<string>, budget: map<string, real>)
    requires forall d :: d in dims <==> d in budget
    ensures AllPassed(ModeChecks(counts, mode, dims, budget)) <==> ModeWithin(budget, counts)
  {
    var checks := ModeChecks(counts, mode, dims, budget);
    if AllPassed(checks) {
      forall d | d in budget ensures Actual(counts, d) <= budget[d] {
        assert d in dims;
        var i :| 0 <= i < |dims| && dims[i] == d;
        assert checks[i] in checks;
      }
    }
    forall c | c in checks && ModeWithin(budget, counts) ensures c.passed {
      var i :| 0 <= i < |checks| && checks[i] == c;
      assert dims[i] in dims;
    }
  }

  ghost predicate ModeHolds(budgets: Budgets, m: string, rules: Counts, llm: Counts) {
    m in budgets && ModeWithin(budgets[m], CountsOf(m, rules, llm))
  }

  lemma ModeHoldsIff(budgets: Budgets, m: string, rules: Counts, llm: Counts)
    requires m in budgets
    ensures AllPassed(ModeChecks(CountsOf(m, rules, llm), m, Sorted(budgets[m].Keys), budgets[m])) <==>
      ModeHolds(budgets, m, rules, llm)
  {
    ModePasses(CountsOf(m, rules, llm), m, Sorted(budgets[m].Keys), budgets[m]);
  }

  lemma LastModePasses(budgets: Budgets, front: seq<string>, m: string, rules: Counts, llm: Counts)
    requires m in budgets && forall x :: x in front ==> x in budgets
    requires forall x :: x in front + [m] ==> x in budgets
    ensures AllPassed(ChecksOf(budgets, front + [m], rules, llm)) <==>
      AllPassed(ChecksOf(budgets, front, rules, llm)) && ModeHolds(budgets, m, rules, llm)
  {
    assert (front + [m])[..|front|] == front;
    ModeHoldsIff(budgets, m, rules, llm);
    AllPassedAppend(ChecksOf(budgets, front, rules, llm),
      ModeChecks(CountsOf(m, rules, llm), m, Sorted(budgets[m].Keys), budgets[m]));
  }

  lemma {:induction false} ModesPass(budgets: Budgets, modes: seq<string>, rules: Counts, llm: Counts)
    requires forall m :: m in modes ==> m in budgets
    ensures AllPassed(ChecksOf(budgets, modes, rules, llm)) <==>
      forall m :: m in modes ==> ModeHolds(budgets, m, rules, llm)
  {
    if modes != [] {
      var front, m := modes[..|modes| - 1], modes[|modes| - 1];
      assert modes == front + [m];
      assert forall x :: x in modes <==> x in front || x == m;
      ModesPass(budgets, front, rules, llm);
      LastModePasses(budgets, front, m, rules, llm);
    }
  }

  /** The run passes exactly when every budget holds, in whatever order the flags were given. */
  lemma Enforced(budgets: Budgets, rules: Counts, llm: Counts)
    ensures AllPassed(ChecksOf(budgets, Sorted(budgets.Keys), rules, llm)) <==> Within(budgets, rules, llm)
  {
    var modes := Sorted(budgets.Keys);
    ModesPass(budgets, modes, rules, llm);
    forall m | m in budgets && Within(budgets, rules, llm) ensures ModeHolds(budgets, m, rules, llm) {}
    if forall m :: m in modes ==> ModeHolds(budgets, m, rules, llm) {
      forall m, d | m in budgets && d in budgets[m] ensures Actual(CountsOf(m, rules, llm), d) <= budgets[m][d] {
        assert m in modes;
        assert ModeHolds(budgets, m, rules, llm);
      }
    }
  }

  // ----- in numbers of scenarios -----

  /** At most `max` percent of `total` failed; of nothing, that is no failure. */
  predicate AtMost(failed: nat, total: nat, max: real) {
    if total == 0 then 0.0 <= max else 100.0 * failed as real <= max * total as real
  }

  lemma PercentAtMost(failed: nat, total: nat, max: real)
    requires total > 0
    ensures failed as real / total as real * 100.0 <= max <==> AtMost(failed, total, max)
  {
    var n, f := total as real, failed as real;
    TimesQuotient(n, f);
    Percentage(n, f / n, f);
    Cleared(n, f / n * 100.0, 100.0 * f, max);
  }

  lemma Cleared(n: real, x: real, y: real, max: real)
    requires n > 0.0 && x * n == y
    ensures x <= max <==> y <= max * n
  {
    if x <= max { MulMonotone(n, x, max); } else { StrictlyMonotone(n, max, x); }
  }

  lemma StrictlyMonotone(a: real, x: real, y: real)
    requires a > 0.0 && x < y
    ensures a * x < a * y
  {
  }

  /** `counts` has at most `max` percent of failures on the dimension, or nothing counted there. */
  predicate DimKeeps(counts: Counts, dim: string, max: real) {
    if dim in counts then AtMost(counts[dim].failed, counts[dim].total, max) else 0.0 <= max
  }

  lemma ActualAtMost(counts: Counts, dim: string, max: real)
    ensures Actual(counts, dim) <= max <==> DimKeeps(counts, dim, max)
  {
    if dim in counts && counts[dim].total > 0 { PercentAtMost(counts[dim].failed, counts[dim].total, max); }
  }

  /** The budgets of the mode "rules" hold of the checks, those of every other mode of the judges. */
  ghost predicate CountsKeepBudgets(budgets: Budgets, rules: Counts, llm: Counts) {
    forall m, d :: m in budgets && d in budgets[m] ==>
      DimKeeps(if m == "rules" then rules else llm, d, budgets[m][d])
  }

  lemma EnforcedOnCounts(budgets: Budgets, rules: Counts, llm: Counts)
    ensures AllPassed(ChecksOf(budgets, Sorted(budgets.Keys), rules, llm)) <==> CountsKeepBudgets(budgets, rules, llm)
  {
    Enforced(budgets, rules, llm);
    forall m, d | m in budgets && d in budgets[m]
      ensures Actual(CountsOf(m, rules, llm), d) <= budgets[m][d] <==>
        DimKeeps(if m == "rules" then rules else llm, d, budgets[m][d])
    {
      ActualAtMost(CountsOf(m, rules, llm), d, budgets[m][d]);
    }
  }

  /**
   * In the mode "rules", of the scenarios with a check on the dimension at most this percentage
   * fails one, by distinct keys. In every other, of those judged on it at most this percentage fails.
   */
  ghost predicate RunKeeps(scores: seq<Score>, failOn: set<Level>, mode: string, dim: string, max: real) {
    if mode == "rules" then AtMost(|FailedKeys(scores, dim)|, |CheckedKeys(scores, dim)|, max)
    else AtMost(CountIf(scores, FailsOn(dim, failOn)), CountIf(scores, JudgedOn(dim)), max)
  }

  ghost predicate RunKeepsBudgets(budgets: Budgets, scores: seq<Score>, failOn: set<Level>) {
    forall m, d :: m in budgets && d in budgets[m] ==> RunKeeps(scores, failOn, m, d, budgets[m][d])
  }

  lemma CountedDimKeeps(scores: seq<Score>, failOn: set<Level>, mode: string, dim: string, max: real)
    ensures DimKeeps(if mode == "rules" then RulesFailures(scores) else LlmFailures(scores, failOn), dim, max) <==>
      RunKeeps(scores, failOn, mode, dim, max)
  {
    if mode == "rules" { RulesCounts(scores, dim); } else { LlmDimsExact(scores, dim); }
  }

  lemma CountedRun(budgets: Budgets, scores: seq<Score>, failOn: set<Level>, rules: Counts, llm: Counts)
    requires forall m, d, max :: DimKeeps(if m == "rules" then rules else llm, d, max) <==>
      RunKeeps(scores, failOn, m, d, max)
    ensures CountsKeepBudgets(budgets, rules, llm) <==> RunKeepsBudgets(budgets, scores, failOn)
  {
  }

  /** A run passes exactly when it keeps every budget, counted in scenarios. */
  lemma EnforcedOnRun(budgets: Budgets, scores: seq<Score>, failOn: set<Level>)
    ensures AllPassed(ChecksOf(budgets, Sorted(budgets.Keys), RulesFailures(scores), LlmFailures(scores, failOn))) <==>
      RunKeepsBudgets(budgets, scores, failOn)
  {
    var rules, llm := RulesFailures(scores), LlmFailures(scores, failOn);
    EnforcedOnCounts(budgets, rules, llm);
    forall m, d, max
      ensures DimKeeps(if m == "rules" then rules else llm, d, max) <==> RunKeeps(scores, failOn, m, d, max)
    {
      CountedDimKeeps(scores, failOn, m, d, max);
    }
    CountedRun(budgets, scores, failOn, rules, llm);
  }

  // ----- the checks reported -----

  /** The check of a budget names mode and dimension, and passes when the percentage of failures is no larger. */
  ghost predicate Reports(c: ThresholdCheck, mode: string, dim: string, max: real, counts: Counts) {
    && c.dimension == mode + "/" + dim && c.max == max && (c.passed <==> c.actual <= max)
    && if dim in counts && counts[dim].total != 0
       then c.actual * counts[dim].total as real == 100.0 * counts[dim].failed as real else c.actual == 0.0
  }

  lemma CheckReports(counts: Counts, mode: string, dim: string, max: real)
    ensures Reports(CheckOf(counts, mode, dim, max), mode, dim, max, counts)
  {
    if dim in counts && counts[dim].total != 0 {
      var n, failed := counts[dim].total as real, counts[dim].failed as real;
      TimesQuotient(n, failed);
      Percentage(n, failed / n, failed);
    }
  }

  ghost predicate InMode(c: ThresholdCheck, budgets: Budgets, m: string, rules: Counts, llm: Counts) {
    m in budgets && exists d :: d in budgets[m] && c == CheckOf(CountsOf(m, rules, llm), m, d, budgets[m][d])
  }

  lemma CheckAt(counts: Counts, mode: string, dims: seq<string>, budget: map<string, real>, d: string)
    requires (forall x :: x in dims ==> x in budget) && d in dims
    ensures CheckOf(counts, mode, d, budget[d]) in ModeChecks(counts, mode, dims, budget)
  {
    var i :| 0 <= i < |dims| && dims[i] == d;
    assert ModeChecks(counts, mode, dims, budget)[i] == CheckOf(counts, mode, d, budget[d]);
  }

  lemma ModeListed(budgets: Budgets, m: string, rules: Counts, llm: Counts, c: ThresholdCheck)
    requires m in budgets
    ensures c in ModeChecks(CountsOf(m, rules, llm), m, Sorted(budgets[m].Keys), budgets[m]) <==>
      InMode(c, budgets, m, rules, llm)
  {
    var counts, dims := CountsOf(m, rules, llm), Sorted(budgets[m].Keys);
    if i :| 0 <= i < |dims| && ModeChecks(counts, m, dims, budgets[m])[i] == c { assert dims[i] in dims; }
    if d :| d in budgets[m] && c == CheckOf(counts, m, d, budgets[m][d]) { CheckAt(counts, m, dims, budgets[m], d); }
  }

  ghost predicate InSomeMode(c: ThresholdCheck, budgets: Budgets, modes: seq<string>, rules: Counts, llm: Counts) {
    exists m :: m in modes && InMode(c, budgets, m, rules, llm)
  }

  lemma {:induction false} ModesListed(budgets: Budgets, modes: seq<string>, rules: Counts, llm: Counts,
      c: ThresholdCheck)
    requires forall m :: m in modes ==> m in budgets
    ensures c in ChecksOf(budgets, modes, rules, llm) <==> InSomeMode(c, budgets, modes, rules, llm)
  {
    if modes != [] {
      var front, m := modes[..|modes| - 1], modes[|modes| - 1];
      assert modes == front + [m];
      assert forall x :: x in modes <==> x in front || x == m;
      ModesListed(budgets, front, rules, llm, c);
      ModeListed(budgets, m, rules, llm, c);
    }
  }

  ghost predicate ReportsBudget(c: ThresholdCheck, budgets: Budgets, m: string, d: string, rules: Counts, llm: Counts) {
    m in budgets && d in budgets[m] && Reports(c, m, d, budgets[m][d], if m == "rules" then rules else llm)
  }

  /** There is a check for every budget, and no other. */
  lemma ChecksReport(budgets: Budgets, rules: Counts, llm: Counts)
    ensures var checks := ChecksOf(budgets, Sorted(budgets.Keys), rules, llm);
      && (forall c :: c in checks ==> exists m, d :: ReportsBudget(c, budgets, m, d, rules, llm))
      && (forall m, d :: m in budgets && d in budgets[m] ==>
        exists c :: c in checks && ReportsBudget(c, budgets, m, d, rules, llm))
  {
    var modes := Sorted(budgets.Keys);
    var checks := ChecksOf(budgets, modes, rules, llm);
    forall c | c in checks ensures exists m, d :: ReportsBudget(c, budgets, m, d, rules, llm) {
      ModesListed(budgets, modes, rules, llm, c);
      var m :| m in modes && InMode(c, budgets, m, rules, llm);
      var d :| d in budgets[m] && c == CheckOf(CountsOf(m, rules, llm), m, d, budgets[m][d]);
      CheckReports(CountsOf(m, rules, llm), m, d, budgets[m][d]);
      assert ReportsBudget(c, budgets, m, d, rules, llm);
    }
    forall m, d | m in budgets && d in budgets[m]
      ensures exists c :: c in checks && ReportsBudget(c, budgets, m, d, rules, llm)
    {
      var c := CheckOf(CountsOf(m, rules, llm), m, d, budgets[m][d]);
      assert m in modes && InMode(c, budgets, m, rules, llm);
      ModesListed(budgets, modes, rules, llm, c);
      CheckReports(CountsOf(m, rules, llm), m, d, budgets[m][d]);
    }
  }

  lemma Percentage(n: real, share: real, failed: real)
    requires n * share == failed
    ensures share * 100.0 * n == 100.0 * failed
  {
  }

  /** The same flags with no smaller percentages. */
  ghost predicate NoTighter(looser: Budgets, budgets: Budgets) {
    && looser.Keys == budgets.Keys
    && forall m :: m in budgets ==>
      && looser[m].Keys == budgets[m].Keys
      && forall d :: d in budgets[m] ==> budgets[m][d] <= looser[m][d]
  }

  lemma RaisingBudgetsKeepsPasses(budgets: Budgets, looser: Budgets, rules: Counts, llm: Counts)
    requires NoTighter(looser, budgets)
    ensures AllPassed(ChecksOf(budgets, Sorted(budgets.Keys), rules, llm)) ==>
      AllPassed(ChecksOf(looser, Sorted(looser.Keys), rules, llm))
  {
    Enforced(budgets, rules, llm);
    Enforced(looser, rules, llm);
    if Within(budgets, rules, llm) {
      forall m, d | m in looser && d in looser[m] ensures Actual(CountsOf(m, rules, llm), d) <= looser[m][d] {
        assert Actual(CountsOf(m, rules, llm), d) <= budgets[m][d] <= looser[m][d];
      }
    }
  }

  lemma QuotientBounds(a: nat, b: nat, c: nat)
    requires a <= b <= c && c > 0
    ensures 0.0 <= a as real / c as real * 100.0 <= b as real / c as real * 100.0 <= 100.0
    ensures a as real / c as real * 100.0 <= 0.0 <==> a == 0
  {
    var n := c as real;
    var x, y := a as real / n, b as real / n;
    TimesQuotient(n, a as real);
    DivideBy(n, 0.0, a as real);
    DivideBy(n, x, b as real);
    DivideAbove(n, 1.0, b as real);
    if x <= 0.0 { MulMonotone(n, x, 0.0); } else { Quotient(n, a as real, x); }
  }

  /**
   * With more failures among as many scenarios the percentage does not fall; it is a
   * percentage, so a budget of 100 always holds; and a budget of 0 holds only without a failure.
   */
  lemma ActualFollowsFailures(counts: Counts, worse: Counts, dim: string)
    requires dim in counts && dim in worse
    requires counts[dim].failed <= worse[dim].failed <= counts[dim].total == worse[dim].total
    ensures 0.0 <= Actual(counts, dim) <= Actual(worse, dim) <= 100.0
    ensures Actual(counts, dim) <= 0.0 <==> counts[dim].failed == 0
  {
    if counts[dim].total > 0 { QuotientBounds(counts[dim].failed, worse[dim].failed, counts[dim].total); }
  }

  /** A larger fail set never turns a failing run into a passing one. */
  lemma LargerFailSetFailsMore(scores: seq<Score>, failOn: set<Level>, larger: set<Level>, budgets: Budgets)
    requires failOn <= larger
    ensures Within(budgets, RulesFailures(scores), LlmFailures(scores, larger)) ==>
      Within(budgets, RulesFailures(scores), LlmFailures(scores, failOn))
  {
    var rules, few, many := RulesFailures(scores), LlmFailures(scores, failOn), LlmFailures(scores, larger);
    LlmCounts(scores, failOn, larger);
    if Within(budgets, rules, many) {
      forall m, d | m in budgets && d in budgets[m] ensures Actual(CountsOf(m, rules, few), d) <= budgets[m][d] {
        assert Actual(CountsOf(m, rules, many), d) <= budgets[m][d];
        if d in few {
          assert d in few.Keys && d in many.Keys;
          ActualFollowsFailures(few, many, d);
        } else {
          assert d !in few.Keys && d !in many.Keys;
        }
      }
    }
  }
}
