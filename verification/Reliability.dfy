/** pass@k and pass^k over trial groups, in exact reals; `round` stands for rounding to four decimals. */
module Reliability {
  import opened Prelude
  import opened Ordering
  import opened Trials
  import opened Reals

  // ----- powers -----

  function Pow(x: real, k: nat): real { if k == 0 then 1.0 else x * Pow(x, k - 1) }

  /** At least one of `k` trials passes. */
  function PassAt(p: real, k: nat): real { 1.0 - Pow(1.0 - p, k) }

  predicate Rate(p: real) { 0.0 <= p <= 1.0 }
  predicate AllRates(ps: seq<real>) { forall i :: 0 <= i < |ps| ==> Rate(ps[i]) }

  lemma RateTimes(p: real, q: real)
    requires Rate(p) && Rate(q)
    ensures 0.0 <= p * q <= q && p * q <= p
  {
    MulMonotone(p, 0.0, q);
    MulMonotone(p, q, 1.0);
    MulMonotone(q, p, 1.0);
  }

  lemma {:induction false} PowRate(p: real, k: nat)
    requires Rate(p)
    ensures Rate(Pow(p, k)) && Pow(p, k + 1) <= Pow(p, k) && (k >= 1 ==> Pow(p, k) <= p)
  {
    if k > 0 {
      PowRate(p, k - 1);
      RateTimes(p, Pow(p, k - 1));
      assert Pow(p, k) == p * Pow(p, k - 1);
    }
    RateTimes(p, Pow(p, k));
    assert Pow(p, k + 1) == p * Pow(p, k);
  }

  lemma {:induction false} PowDecreases(p: real, j: nat, k: nat)
    requires Rate(p) && j <= k
    ensures Pow(p, k) <= Pow(p, j)
  {
    if j < k {
      PowDecreases(p, j, k - 1);
      PowRate(p, k - 1);
    }
  }

  /** p^k <= p <= 1-(1-p)^k, all of them rates, falling and rising in k. */
  lemma PassOrder(p: real, j: nat, k: nat)
    requires Rate(p) && 1 <= j <= k
    ensures 0.0 <= Pow(p, k) <= Pow(p, j) <= p <= PassAt(p, j) <= PassAt(p, k) <= 1.0
  {
    PowRate(p, j);
    PowRate(p, k);
    PowDecreases(p, j, k);
    PowRate(1.0 - p, j);
    PowRate(1.0 - p, k);
    PowDecreases(1.0 - p, j, k);
  }

  // ----- Jensen's inequality -----

  lemma NonNegativeProduct(a: real, b: real)
    requires a >= 0.0 && b >= 0.0
    ensures a * b >= 0.0
  {
  }

  /** The curve x^k lies above its tangent at `a`. */
  lemma {:induction false} Tangent(x: real, a: real, k: nat)
    requires x >= 0.0 && a >= 0.0 && k >= 1
    ensures Pow(x, k) >= Pow(a, k) + (k as real) * Pow(a, k - 1) * (x - a)
    ensures Pow(a, k - 1) >= 0.0
  {
    if k == 1 {
      assert Pow(x, 1) == x * Pow(x, 0) && Pow(a, 1) == a * Pow(a, 0);
    } else {
      Tangent(x, a, k - 1);
      var n, q := (k - 1) as real, Pow(a, k - 2);
      assert Pow(a, k - 1) == a * q && Pow(a, k) == a * (a * q) && Pow(x, k) == x * Pow(x, k - 1);
      MulMonotone(x, a * q + n * q * (x - a), Pow(x, k - 1));
      NonNegativeProduct(a, q);
      NonNegativeProduct(n, q);
      NonNegativeProduct(n * q, (x - a) * (x - a));
      TangentAlgebra(x, a, n, q);
    }
  }

  lemma TangentAlgebra(x: real, a: real, n: real, q: real)
    ensures x * (a * q + n * q * (x - a)) == a * (a * q) + (n + 1.0) * (a * q) * (x - a) + n * q * ((x - a) * (x - a))
  {
  }

  function Sum(xs: seq<real>): real { if xs == [] then 0.0 else xs[0] + Sum(xs[1..]) }

  function Powers(ps: seq<real>, k: nat): (r: seq<real>)
    ensures |r| == |ps| && forall i :: 0 <= i < |r| ==> r[i] == Pow(ps[i], k)
  {
    seq(|ps|, i requires 0 <= i < |ps| => Pow(ps[i], k))
  }

  function Complements(ps: seq<real>): (r: seq<real>)
    ensures |r| == |ps| && forall i :: 0 <= i < |r| ==> r[i] == 1.0 - ps[i]
  {
    seq(|ps|, i requires 0 <= i < |ps| => 1.0 - ps[i])
  }

  function Mean(xs: seq<real>): real { if xs == [] then 0.0 else Sum(xs) / |xs| as real }

  function SumOf(f: real -> real, xs: seq<real>): real { if xs == [] then 0.0 else f(xs[0]) + SumOf(f, xs[1..]) }

  predicate Above(xs: seq<real>, ys: seq<real>, f: real -> real) {
    |xs| == |ys| && forall i :: 0 <= i < |xs| ==> f(xs[i]) <= ys[i]
  }

  lemma {:induction false} SumAbove(xs: seq<real>, ys: seq<real>, f: real -> real)
    requires Above(xs, ys, f)
    ensures SumOf(f, xs) <= Sum(ys)
  {
    if xs != [] { SumAbove(xs[1..], ys[1..], f); }
  }

  lemma LineStep(n: real, b: real, c: real, x: real, total: real)
    ensures (b + c * x) + (n * b + c * total) == (n + 1.0) * b + c * (x + total)
  {
  }

  lemma {:induction false} SumOfLine(xs: seq<real>, f: real -> real, b: real, c: real)
    requires forall x :: f(x) == b + c * x
    ensures SumOf(f, xs) == (|xs| as real) * b + c * Sum(xs)
  {
    if xs != [] {
      SumOfLine(xs[1..], f, b, c);
      LineStep(|xs[1..]| as real, b, c, xs[0], Sum(xs[1..]));
    }
  }

  /** The line through (a, h) with slope `c`. */
  function LineAt(a: real, h: real, c: real): real -> real { x => h + c * (x - a) }

  lemma LineThroughMean(n: real, h: real, c: real, m: real, total: real)
    requires n * m == total
    ensures n * (h - c * m) + c * total == n * h
  {
    assert c * total == n * (c * m);
  }

  lemma OtherForm(f: real -> real, h: real, c: real, a: real)
    requires f == LineAt(a, h, c)
    ensures forall x :: f(x) == (h - c * a) + c * x
  {
    forall x ensures f(x) == (h - c * a) + c * x { assert c * (x - a) == c * x - c * a; }
  }

  lemma LineSum(xs: seq<real>, f: real -> real, n: real, m: real, h: real, c: real, b: real)
    requires n == |xs| as real && n * m == Sum(xs) && f == LineAt(m, h, c) && b == h - c * m
    ensures SumOf(f, xs) == n * h
  {
    OtherForm(f, h, c, m);
    SumOfLine(xs, f, b, c);
    LineThroughMean(n, h, c, m, Sum(xs));
  }

  lemma {:induction false} SumComplements(ps: seq<real>)
    ensures Sum(Complements(ps)) == |ps| as real - Sum(ps)
  {
    if ps != [] {
      SumComplements(ps[1..]);
      assert Complements(ps)[1..] == Complements(ps[1..]);
    }
  }

  lemma {:induction false} SumBounds(ps: seq<real>)
    requires AllRates(ps)
    ensures 0.0 <= Sum(ps) <= |ps| as real
  {
    if ps != [] { SumBounds(ps[1..]); }
  }

  lemma MeanTimes(xs: seq<real>)
    requires xs != []
    ensures (|xs| as real) * Mean(xs) == Sum(xs)
  {
  }

  lemma MeanRate(ps: seq<real>)
    requires AllRates(ps)
    ensures Rate(Mean(ps))
  {
    if ps != [] {
      SumBounds(ps);
      MeanTimes(ps);
      DivideBy(|ps| as real, 0.0, Sum(ps));
      DivideAbove(|ps| as real, 1.0, Sum(ps));
    }
  }

  /** Over points whose mean is m, a line has the mean value it has at m. */
  lemma MeanAbove(xs: seq<real>, ys: seq<real>, m: real, h: real, c: real)
    requires xs != [] && m == Mean(xs) && Above(xs, ys, LineAt(m, h, c))
    ensures h <= Mean(ys)
  {
    var n, f := |xs| as real, LineAt(m, h, c);
    MeanTimes(xs);
    SumAbove(xs, ys, f);
    LineSum(xs, f, n, m, h, c, h - c * m);
    DivideBy(n, h, Sum(ys));
  }

  lemma PowersAbove(ps: seq<real>, m: real, k: nat, h: real, c: real)
    requires k >= 1 && m >= 0.0 && AllRates(ps) && h == Pow(m, k) && c == (k as real) * Pow(m, k - 1)
    ensures Above(ps, Powers(ps, k), LineAt(m, h, c))
  {
    forall i | 0 <= i < |ps| ensures LineAt(m, h, c)(ps[i]) <= Powers(ps, k)[i] {
      assert Rate(ps[i]);
      Tangent(ps[i], m, k);
    }
  }

  /** The power of the mean is at most the mean of the powers. */
  lemma JensenPow(ps: seq<real>, k: nat)
    requires k >= 1 && ps != [] && AllRates(ps)
    ensures Pow(Mean(ps), k) <= Mean(Powers(ps, k))
  {
    var m := Mean(ps);
    MeanRate(ps);
    PowersAbove(ps, m, k, Pow(m, k), (k as real) * Pow(m, k - 1));
    MeanAbove(ps, Powers(ps, k), m, Pow(m, k), (k as real) * Pow(m, k - 1));
  }

  /** What is reported for a run lies on the far side of the average of what is reported per scenario. */
  lemma Jensen(ps: seq<real>, k: nat)
    requires k >= 1 && ps != [] && AllRates(ps)
    ensures Pow(Mean(ps), k) <= Mean(Powers(ps, k))
    ensures PassAt(Mean(ps), k) >= 1.0 - Mean(Powers(Complements(ps), k))
    ensures 1.0 - Mean(Powers(Complements(ps), k)) == Mean(Complements(Powers(Complements(ps), k)))
  {
    JensenPow(ps, k);
    var qs := Complements(ps);
    JensenPow(qs, k);
    MeanComplements(ps);
    MeanComplements(Powers(qs, k));
  }

  lemma MeanComplements(xs: seq<real>)
    requires xs != []
    ensures Mean(Complements(xs)) == 1.0 - Mean(xs)
  {
    SumComplements(xs);
    var n := |xs| as real;
    DivideComplement(n, Sum(xs));
  }

  lemma DivideComplement(n: real, x: real)
    requires n > 0.0
    ensures (n - x) / n == 1.0 - x / n
  {
    var d := x / n;
    assert n * d == x;
    Quotient(n, n - x, 1.0 - d);
  }

  // ----- the report -----

  /** The two numbers of trials, besides one, for which a report gives both measures. */
  const FEW: nat := 3
  const MANY: nat := 8

  datatype Row = Row(scenario: string, trials: nat, passed: nat, passRate: real,
    at1: real, at3: real, at8: real, pow1: real, pow3: real, pow8: real)

  datatype Report = Report(rows: seq<Row>, meanPassRate: real,
    meanAt1: real, meanAt3: real, meanAt8: real, meanPow1: real, meanPow3: real, meanPow8: real)

  function CountTrue(xs: seq<bool>): (n: nat)
    ensures n <= |xs|
  {
    if xs == [] then 0 else (if xs[0] then 1 else 0) + CountTrue(xs[1..])
  }

  /** The empirical pass rate of one key. */
  function RateOf(scores: seq<Score>, key: string): real {
    var outcomes := Outcomes(Members(scores, key));
    if outcomes == [] then 0.0 else CountTrue(outcomes) as real / |outcomes| as real
  }

  function Rates(scores: seq<Score>): (r: seq<real>)
    ensures |r| == |Keys(scores)|
    ensures forall i :: 0 <= i < |r| ==> r[i] == RateOf(scores, Sorted(Keys(scores))[i])
  {
    var keys := Sorted(Keys(scores));
    seq(|keys|, i requires 0 <= i < |keys| => RateOf(scores, keys[i]))
  }

  function RowOf(scores: seq<Score>, key: string, round: real -> real): Row {
    var p := RateOf(scores, key);
    var outcomes := Outcomes(Members(scores, key));
    Row(key, |outcomes|, CountTrue(outcomes), round(p), round(p), round(PassAt(p, FEW)), round(PassAt(p, MANY)),
      round(p), round(Pow(p, FEW)), round(Pow(p, MANY)))
  }

  function RowsOf(scores: seq<Score>, keys: seq<string>, round: real -> real): (r: seq<Row>)
    ensures |r| == |keys| && forall i :: 0 <= i < |r| ==> r[i] == RowOf(scores, keys[i], round)
  {
    seq(|keys|, i requires 0 <= i < |keys| => RowOf(scores, keys[i], round))
  }

  lemma SumAppend(xs: seq<real>, x: real)
    ensures Sum(xs + [x]) == Sum(xs) + x
  {
    if xs == [] {
      assert (xs + [x])[1..] == [];
    } else {
      assert (xs + [x])[1..] == xs[1..] + [x];
      SumAppend(xs[1..], x);
    }
  }

  method BuildRow(key: string, results: seq<bool>, round: real -> real, ghost scores: seq<Score>)
      returns (row: Row, p: real)
    requires results == Outcomes(Members(scores, key))
    ensures row == RowOf(scores, key, round) && p == RateOf(scores, key)
  {
    var n := |results|;
    var passed := CountTrue(results);
    p := if n > 0 then passed as real / n as real else 0.0;
    row := Row(key, n, passed, round(p), round(p), round(PassAt(p, FEW)), round(PassAt(p, MANY)),
      round(p), round(Pow(p, FEW)), round(Pow(p, MANY)));
  }

  function MeansOf(rows: seq<Row>, m: real, round: real -> real): Report {
    Report(rows, round(m), round(m), round(PassAt(m, FEW)), round(PassAt(m, MANY)),
      round(m), round(Pow(m, FEW)), round(Pow(m, MANY)))
  }

  /** One row per key in sorted order; the mean pass rate goes through the same formulas as each rate. */
  ghost predicate Reports(r: Report, scores: seq<Score>, round: real -> real) {
    && r.rows == RowsOf(scores, Sorted(Keys(scores)), round)
    && r == MeansOf(r.rows, Mean(Rates(scores)), round)
  }

  lemma SumNext(rates: seq<real>, i: nat)
    requires i < |rates|
    ensures Sum(rates[..i + 1]) == Sum(rates[..i]) + rates[i]
  {
    assert rates[..i + 1] == rates[..i] + [rates[i]];
    SumAppend(rates[..i], rates[i]);
  }

  method AddRow(rows: seq<Row>, total: real, key: string, results: seq<bool>, round: real -> real,
      ghost scores: seq<Score>, ghost all: seq<Row>, ghost rates: seq<real>) returns (rows': seq<Row>, total': real)
    requires |rows| < |all| == |rates| && rows == all[..|rows|] && total == Sum(rates[..|rows|])
    requires results == Outcomes(Members(scores, key))
    requires all[|rows|] == RowOf(scores, key, round) && rates[|rows|] == RateOf(scores, key)
    ensures |rows'| == |rows| + 1 && rows' == all[..|rows'|] && total' == Sum(rates[..|rows'|])
  {
    var row, p := BuildRow(key, results, round, scores);
    rows', total' := rows + [row], total + p;
    SumNext(rates, |rows|);
  }

  method BuildRows(groups: map<string, seq<bool>>, keys: seq<string>, round: real -> real, ghost scores: seq<Score>,
      ghost rates: seq<real>)
      returns (rows: seq<Row>, total: real)
    requires forall i :: 0 <= i < |keys| ==> keys[i] in groups && groups[keys[i]] == Outcomes(Members(scores, keys[i]))
    requires |rates| == |keys| && forall i :: 0 <= i < |keys| ==> rates[i] == RateOf(scores, keys[i])
    ensures rows == RowsOf(scores, keys, round)
    ensures total == Sum(rates)
  {
    ghost var all := RowsOf(scores, keys, round);
    rows, total := [], 0.0;
    for i := 0 to |keys|
      invariant |rows| == i && rows == all[..i] && total == Sum(rates[..i])
    {
      rows, total := AddRow(rows, total, keys[i], groups[keys[i]], round, scores, all, rates);
    }
    assert rates[..|keys|] == rates;
  }

  lemma MeanOfRates(scores: seq<Score>, n: nat, total: real)
    requires n == |Keys(scores)| && total == Sum(Rates(scores))
    ensures (if n != 0 then total / n as real else 0.0) == Mean(Rates(scores))
  {
  }

  method Summarise(rows: seq<Row>, total: real, round: real -> real, ghost scores: seq<Score>) returns (report: Report)
    requires rows == RowsOf(scores, Sorted(Keys(scores)), round) && total == Sum(Rates(scores))
    ensures Reports(report, scores, round) && Explained(report, scores, round)
  {
    MeanOfRates(scores, |rows|, total);
    var m := if |rows| != 0 then total / |rows| as real else 0.0;
    report := MeansOf(rows, m, round);
    ReportExplained(report, scores, m, round);
  }

  lemma Grouped(groups: map<string, seq<bool>>, scores: seq<Score>, keys: seq<string>)
    requires IsGrouping(groups, scores) && forall k :: k in keys ==> k in groups
    ensures forall i :: 0 <= i < |keys| ==> keys[i] in groups && groups[keys[i]] == Outcomes(Members(scores, keys[i]))
  {
    forall i | 0 <= i < |keys| ensures keys[i] in groups { assert keys[i] in keys; }
  }

  method RowsOfGroups(groups: map<string, seq<bool>>, round: real -> real, ghost scores: seq<Score>)
      returns (rows: seq<Row>, total: real)
    requires IsGrouping(groups, scores)
    ensures rows == RowsOf(scores, Sorted(Keys(scores)), round) && total == Sum(Rates(scores))
  {
    var keys := Sorted(groups.Keys);
    Grouped(groups, scores, keys);
    rows, total := BuildRows(groups, keys, round, scores, Rates(scores));
  }

  method ComputeReliability(scores: seq<Score>, round: real -> real) returns (report: Option<Report>)
    ensures report.None? <==> !HasTrials(scores)
    ensures report.Some? ==> Reports(report.value, scores, round) && Explained(report.value, scores, round)
  {
    var groups, hasTrials := GroupOutcomes(scores);
    if !hasTrials { return None; }
    var rows, total := RowsOfGroups(groups, round, scores);
    var result := Summarise(rows, total, round, scores);
    report := Some(result);
  }

  // ----- what the numbers of a report are -----

  lemma {:induction false} PowAdd(x: real, j: nat, k: nat)
    ensures Pow(x, j + k) == Pow(x, j) * Pow(x, k)
  {
    if j > 0 {
      PowAdd(x, j - 1, k);
      Associate(x, Pow(x, j - 1), Pow(x, k));
    }
  }

  lemma Associate(x: real, y: real, z: real)
    ensures x * (y * z) == x * y * z
  {
  }

  /** The two powers of the report, multiplied out. */
  lemma SmallPowers(x: real)
    ensures Pow(x, FEW) == x * x * x && Pow(x, MANY) == (x * x * x * x) * (x * x * x * x)
  {
    assert Pow(x, 1) == x * Pow(x, 0) && Pow(x, 2) == x * Pow(x, 1) && Pow(x, 3) == x * Pow(x, 2);
    assert Pow(x, 4) == x * Pow(x, 3);
    Associate(x, x, x);
    Associate(x, x * x, x);
    PowAdd(x, 4, 4);
  }

  /** Seven numbers that all come from one rate: at least one pass, and only passes, in one, three and eight trials. */
  ghost predicate Measures(rate: real, at: (real, real, real), pow: (real, real, real), p: real, round: real -> real) {
    && rate == at.0 == pow.0 == round(p)
    && at.1 == round(1.0 - Pow(1.0 - p, FEW)) && at.2 == round(1.0 - Pow(1.0 - p, MANY))
    && pow.1 == round(Pow(p, FEW)) && pow.2 == round(Pow(p, MANY))
  }

  function WithKey(key: string): Score -> bool { s => Key(s) == key }
  function PassedWithKey(key: string): Score -> bool { s => Key(s) == key && s.passed }

  /** A row counts the trials and the passes of its scenario. */
  ghost predicate RowCounts(r: Row, scores: seq<Score>) {
    && r.trials == CountIf(scores, WithKey(r.scenario)) > 0
    && r.passed == CountIf(scores, PassedWithKey(r.scenario))
  }

  ghost predicate RowMeasures(r: Row, p: real, round: real -> real) {
    Measures(r.passRate, (r.at1, r.at3, r.at8), (r.pow1, r.pow3, r.pow8), p, round)
  }

  predicate IsShare(p: real, passed: nat, trials: nat) { p * trials as real == passed as real }

  /** And its numbers come from the share of passes. */
  ghost predicate RowExplained(r: Row, scores: seq<Score>, p: real, round: real -> real) {
    RowCounts(r, scores) && IsShare(p, r.passed, r.trials) && RowMeasures(r, p, round)
  }

  /** One row for each scenario, in the order of their keys. */
  ghost predicate OneRowPerKey(rows: seq<Row>, scores: seq<Score>) {
    && (forall i, j :: 0 <= i < j < |rows| ==>
      rows[i].scenario != rows[j].scenario && Le(rows[i].scenario, rows[j].scenario))
    && (forall s :: s in scores ==> exists i :: 0 <= i < |rows| && rows[i].scenario == Key(s))
  }

  ghost predicate RowsExplained(rows: seq<Row>, scores: seq<Score>, ps: seq<real>, round: real -> real) {
    |ps| == |rows| && forall i :: 0 <= i < |ps| ==> RowExplained(rows[i], scores, ps[i], round)
  }

  ghost predicate MeansMeasure(r: Report, m: real, round: real -> real) {
    Measures(r.meanPassRate, (r.meanAt1, r.meanAt3, r.meanAt8), (r.meanPow1, r.meanPow3, r.meanPow8), m, round)
  }

  predicate IsMean(m: real, n: nat, total: real) { m * n as real == total }

  /** The means come, by the same formulas, from the mean of the rates of the rows. */
  ghost predicate ExplainedBy(r: Report, scores: seq<Score>, ps: seq<real>, m: real, round: real -> real) {
    && OneRowPerKey(r.rows, scores) && RowsExplained(r.rows, scores, ps, round)
    && IsMean(m, |ps|, Sum(ps)) && MeansMeasure(r, m, round)
  }

  ghost predicate Explained(r: Report, scores: seq<Score>, round: real -> real) {
    exists ps, m :: ExplainedBy(r, scores, ps, m, round)
  }

  lemma NoMembers(scores: seq<Score>, key: string)
    requires scores == []
    ensures Members(scores, key) == [] && CountTrue(Outcomes(Members(scores, key))) == 0
  {
  }

  lemma MembersNext(scores: seq<Score>, s: Score, key: string)
    ensures |Members(scores + [s], key)| == |Members(scores, key)| + if Key(s) == key then 1 else 0
    ensures CountTrue(Outcomes(Members(scores + [s], key))) ==
      CountTrue(Outcomes(Members(scores, key))) + if Key(s) == key && s.passed then 1 else 0
  {
    if Key(s) == key {
      OutcomesAppend(scores, s, key);
      CountTrueAppend(Outcomes(Members(scores, key)), s.passed);
      MembersAppend(scores, s, key);
    } else {
      MembersAppend(scores, s, key);
      assert Members(scores, key) + [] == Members(scores, key);
    }
  }

  lemma {:induction false} MembersCounted(scores: seq<Score>, key: string)
    ensures |Members(scores, key)| == CountIf(scores, WithKey(key))
    ensures CountTrue(Outcomes(Members(scores, key))) == CountIf(scores, PassedWithKey(key))
  {
    if scores == [] {
      NoMembers(scores, key);
    } else {
      var front, s := scores[..|scores| - 1], scores[|scores| - 1];
      assert scores == front + [s];
      MembersCounted(front, key);
      MembersNext(front, s, key);
      CountIfAppend(front, s, WithKey(key));
      CountIfAppend(front, s, PassedWithKey(key));
    }
  }

  lemma {:induction false} KeyOfSome(scores: seq<Score>, key: string)
    requires key in Keys(scores)
    ensures CountIf(scores, WithKey(key)) > 0
  {
    if Key(scores[|scores| - 1]) != key { KeyOfSome(scores[..|scores| - 1], key); }
  }

  lemma Share(passed: nat, trials: nat)
    requires trials > 0
    ensures IsShare(passed as real / trials as real, passed, trials)
  {
    TimesQuotient(trials as real, passed as real);
  }

  lemma RateIsShare(scores: seq<Score>, key: string)
    requires Members(scores, key) != []
    ensures IsShare(RateOf(scores, key), CountTrue(Outcomes(Members(scores, key))), |Members(scores, key)|)
  {
    Share(CountTrue(Outcomes(Members(scores, key))), |Members(scores, key)|);
  }

  lemma RowMeasured(scores: seq<Score>, key: string, round: real -> real)
    ensures RowMeasures(RowOf(scores, key, round), RateOf(scores, key), round)
  {
  }

  lemma RowIsExplained(scores: seq<Score>, key: string, round: real -> real)
    requires key in Keys(scores)
    ensures RowExplained(RowOf(scores, key, round), scores, RateOf(scores, key), round)
  {
    MembersCounted(scores, key);
    KeyOfSome(scores, key);
    RateIsShare(scores, key);
    RowMeasured(scores, key, round);
  }

  lemma RowFor(scores: seq<Score>, keys: seq<string>, rows: seq<Row>, s: Score)
    requires |rows| == |keys| && (forall i :: 0 <= i < |keys| ==> rows[i].scenario == keys[i]) && Key(s) in keys
    ensures exists i :: 0 <= i < |rows| && rows[i].scenario == Key(s)
  {
    var i :| 0 <= i < |keys| && keys[i] == Key(s);
    assert rows[i].scenario == Key(s);
  }

  lemma RowScenarios(scores: seq<Score>, keys: seq<string>, round: real -> real)
    ensures forall i :: 0 <= i < |keys| ==> RowsOf(scores, keys, round)[i].scenario == keys[i]
  {
  }

  lemma RowsInOrder(scores: seq<Score>, keys: seq<string>, rows: seq<Row>)
    requires keys == Sorted(Keys(scores))
    requires |rows| == |keys| && forall i :: 0 <= i < |keys| ==> rows[i].scenario == keys[i]
    ensures OneRowPerKey(rows, scores)
  {
    SortedAscends(Keys(scores));
    forall s | s in scores ensures exists i :: 0 <= i < |rows| && rows[i].scenario == Key(s) {
      KeyIn(scores, s);
      RowFor(scores, keys, rows, s);
    }
  }

  lemma MeansMeasured(r: Report, m: real, round: real -> real)
    requires r == MeansOf(r.rows, m, round)
    ensures MeansMeasure(r, m, round)
  {
  }

  lemma MeanIsMean(xs: seq<real>)
    ensures IsMean(Mean(xs), |xs|, Sum(xs))
  {
    if xs != [] { MeanTimes(xs); }
  }

  lemma RatesExplain(scores: seq<Score>, rows: seq<Row>, round: real -> real)
    requires rows == RowsOf(scores, Sorted(Keys(scores)), round)
    ensures RowsExplained(rows, scores, Rates(scores), round)
  {
    var keys := Sorted(Keys(scores));
    forall i | 0 <= i < |rows| ensures RowExplained(rows[i], scores, Rates(scores)[i], round) {
      assert keys[i] in keys;
      RowIsExplained(scores, keys[i], round);
    }
  }

  lemma ReportExplained(r: Report, scores: seq<Score>, m: real, round: real -> real)
    requires r.rows == RowsOf(scores, Sorted(Keys(scores)), round)
    requires m == Mean(Rates(scores)) && r == MeansOf(r.rows, m, round)
    ensures Explained(r, scores, round)
  {
    RowScenarios(scores, Sorted(Keys(scores)), round);
    RowsInOrder(scores, Sorted(Keys(scores)), r.rows);
    RatesExplain(scores, r.rows, round);
    MeanIsMean(Rates(scores));
    MeansMeasured(r, m, round);
    ByRates(r, scores, Rates(scores), m, round);
  }

  lemma ByRates(r: Report, scores: seq<Score>, ps: seq<real>, m: real, round: real -> real)
    requires OneRowPerKey(r.rows, scores) && RowsExplained(r.rows, scores, ps, round)
    requires IsMean(m, |ps|, Sum(ps)) && MeansMeasure(r, m, round)
    ensures Explained(r, scores, round)
  {
    assert ExplainedBy(r, scores, ps, m, round);
  }

  /** Without rounding, the seven numbers follow from the first. */
  ghost predicate Unrounded(rate: real, at: (real, real, real), pow: (real, real, real)) {
    && at.0 == pow.0 == rate
    && at.1 == 1.0 - Pow(1.0 - rate, FEW) && at.2 == 1.0 - Pow(1.0 - rate, MANY)
    && pow.1 == Pow(rate, FEW) && pow.2 == Pow(rate, MANY)
  }

  ghost predicate RowUnrounded(r: Row) {
    && IsShare(r.passRate, r.passed, r.trials)
    && Unrounded(r.passRate, (r.at1, r.at3, r.at8), (r.pow1, r.pow3, r.pow8))
  }

  ghost predicate MeansUnrounded(r: Report) {
    Unrounded(r.meanPassRate, (r.meanAt1, r.meanAt3, r.meanAt8), (r.meanPow1, r.meanPow3, r.meanPow8))
  }

  lemma RowWithoutRounding(r: Row, scores: seq<Score>, p: real, round: real -> real)
    requires RowExplained(r, scores, p, round) && forall x :: round(x) == x
    ensures r.passRate == p && RowUnrounded(r)
  {
  }

  lemma MeansWithoutRounding(r: Report, m: real, round: real -> real)
    requires MeansMeasure(r, m, round) && forall x :: round(x) == x
    ensures r.meanPassRate == m && MeansUnrounded(r)
  {
  }

  lemma RowsWithoutRounding(rows: seq<Row>, scores: seq<Score>, ps: seq<real>, round: real -> real)
    requires RowsExplained(rows, scores, ps, round) && forall x :: round(x) == x
    ensures forall i :: 0 <= i < |rows| ==> RowUnrounded(rows[i])
    ensures SumRates(rows) == Sum(ps)
  {
    forall k | 0 <= k < |ps| ensures rows[k].passRate == ps[k] && RowUnrounded(rows[k]) {
      RowWithoutRounding(rows[k], scores, ps[k], round);
    }
    RatesSummed(rows, ps);
  }

  lemma ReportWithoutRounding(r: Report, scores: seq<Score>, ps: seq<real>, m: real, round: real -> real)
    requires ExplainedBy(r, scores, ps, m, round) && forall x :: round(x) == x
    ensures forall i :: 0 <= i < |r.rows| ==> RowUnrounded(r.rows[i])
    ensures IsMean(r.meanPassRate, |r.rows|, SumRates(r.rows)) && MeansUnrounded(r)
  {
    RowsWithoutRounding(r.rows, scores, ps, round);
    MeansWithoutRounding(r, m, round);
  }

  /** With no rounding at all: the numbers of the rows, and of the run. */
  lemma UnroundedReport(r: Report, scores: seq<Score>, round: real -> real)
    requires Explained(r, scores, round) && forall x :: round(x) == x
    ensures forall i :: 0 <= i < |r.rows| ==> RowUnrounded(r.rows[i])
    ensures IsMean(r.meanPassRate, |r.rows|, SumRates(r.rows)) && MeansUnrounded(r)
  {
    var ps, m :| ExplainedBy(r, scores, ps, m, round);
    ReportWithoutRounding(r, scores, ps, m, round);
  }

  function SumRates(rows: seq<Row>): real { if rows == [] then 0.0 else rows[0].passRate + SumRates(rows[1..]) }

  lemma {:induction false} RatesSummed(rows: seq<Row>, ps: seq<real>)
    requires |rows| == |ps| && forall k :: 0 <= k < |ps| ==> rows[k].passRate == ps[k]
    ensures SumRates(rows) == Sum(ps)
  {
    if rows != [] { RatesSummed(rows[1..], ps[1..]); }
  }

  /** Rounding that keeps order keeps the means of the run in order. */
  lemma MeansOrdered(r: Report, scores: seq<Score>, round: real -> real)
    requires Reports(r, scores, round) && forall x, y :: x <= y ==> round(x) <= round(y)
    ensures r.meanPow8 <= r.meanPow3 <= r.meanPow1 == r.meanPassRate == r.meanAt1 <= r.meanAt3 <= r.meanAt8
  {
    RatesRate(scores);
    MeanRate(Rates(scores));
    PassOrder(Mean(Rates(scores)), FEW, MANY);
  }

  lemma {:induction false} HasTrialsIff(scores: seq<Score>)
    ensures HasTrials(scores) <==> exists s :: s in scores && SuffixStart(s.name).Some?
  {
    if scores != [] {
      var front, s := scores[..|scores| - 1], scores[|scores| - 1];
      HasTrialsIff(front);
      assert scores == front + [s];
      assert forall x :: x in scores <==> x in front || x == s;
    }
  }

  lemma RateOfRate(scores: seq<Score>, key: string)
    ensures Rate(RateOf(scores, key))
  {
    var outcomes := Outcomes(Members(scores, key));
    if outcomes != [] {
      var c, n := CountTrue(outcomes) as real, |outcomes| as real;
      DivideBy(n, 0.0, c);
      DivideAbove(n, 1.0, c);
    }
  }

  lemma RatesRate(scores: seq<Score>)
    ensures AllRates(Rates(scores))
  {
    forall i | 0 <= i < |Rates(scores)| ensures Rate(Rates(scores)[i]) {
      RateOfRate(scores, Sorted(Keys(scores))[i]);
    }
  }

  /** Rounding that keeps order keeps every reported row in order. */
  lemma RowOrdered(scores: seq<Score>, key: string, round: real -> real)
    requires forall x, y :: x <= y ==> round(x) <= round(y)
    ensures var r := RowOf(scores, key, round);
      r.pow8 <= r.pow3 <= r.pow1 == r.passRate == r.at1 <= r.at3 <= r.at8
  {
    RateOfRate(scores, key);
    PassOrder(RateOf(scores, key), FEW, MANY);
  }

  /** Jensen for the run's own rates, whatever its scenarios. */
  lemma ReportedMeans(scores: seq<Score>, k: nat)
    requires scores != [] && k >= 1
    ensures var ps := Rates(scores);
      && Pow(Mean(ps), k) <= Mean(Powers(ps, k))
      && PassAt(Mean(ps), k) >= Mean(Complements(Powers(Complements(ps), k)))
  {
    KeyIn(scores, scores[0]);
    RatesRate(scores);
    Jensen(Rates(scores), k);
  }

  // ----- conservation -----

  /** The trials, or the passes, of some scores. */
  function Weight(scores: seq<Score>, passesOnly: bool): nat {
    if scores == [] then 0
    else Weight(scores[..|scores| - 1], passesOnly) + if passesOnly && !scores[|scores| - 1].passed then 0 else 1
  }

  /** Summed key by key. */
  function WeightByKey(scores: seq<Score>, keys: seq<string>, passesOnly: bool): nat {
    if keys == [] then 0
    else WeightByKey(scores, keys[..|keys| - 1], passesOnly) + Weight(Members(scores, keys[|keys| - 1]), passesOnly)
  }

  lemma WeightAppend(scores: seq<Score>, s: Score, passesOnly: bool)
    ensures Weight(scores + [s], passesOnly) == Weight(scores, passesOnly) + if passesOnly && !s.passed then 0 else 1
  {
    assert (scores + [s])[..|scores|] == scores;
  }

  lemma MemberWeight(scores: seq<Score>, s: Score, key: string, passesOnly: bool)
    ensures Weight(Members(scores + [s], key), passesOnly) ==
      Weight(Members(scores, key), passesOnly) + if Key(s) == key && !(passesOnly && !s.passed) then 1 else 0
  {
    MembersAppend(scores, s, key);
    if Key(s) == key {
      WeightAppend(Members(scores, key), s, passesOnly);
    } else {
      assert Members(scores, key) + [] == Members(scores, key);
    }
  }

  predicate DistinctKeys(keys: seq<string>) { forall i, j :: 0 <= i < j < |keys| ==> keys[i] != keys[j] }

  lemma DistinctFront(front: seq<string>, k: string, key: string)
    requires DistinctKeys(front + [k])
    ensures DistinctKeys(front) && k !in front && (key in front + [k] <==> key in front || key == k)
  {
    var keys := front + [k];
    assert forall i :: 0 <= i < |front| ==> keys[i] == front[i];
    assert keys[|front|] == k;
  }

  /** One more score adds to its own key only. */
  lemma {:induction false} WeightByKeyAppend(scores: seq<Score>, s: Score, keys: seq<string>, passesOnly: bool)
    requires DistinctKeys(keys)
    ensures WeightByKey(scores + [s], keys, passesOnly) ==
      WeightByKey(scores, keys, passesOnly) + if Key(s) in keys && !(passesOnly && !s.passed) then 1 else 0
  {
    if keys != [] {
      var front, k := keys[..|keys| - 1], keys[|keys| - 1];
      assert keys == front + [k];
      DistinctFront(front, k, Key(s));
      WeightByKeyAppend(scores, s, front, passesOnly);
      MemberWeight(scores, s, k, passesOnly);
    }
  }

  lemma {:induction false} WeightsAgree(scores: seq<Score>, keys: seq<string>, passesOnly: bool)
    requires DistinctKeys(keys) && forall s :: s in scores ==> Key(s) in keys
    ensures WeightByKey(scores, keys, passesOnly) == Weight(scores, passesOnly)
  {
    if scores == [] {
      NoWeight(keys, passesOnly);
    } else {
      var front, s := scores[..|scores| - 1], scores[|scores| - 1];
      assert scores == front + [s];
      WeightsAgree(front, keys, passesOnly);
      WeightByKeyAppend(front, s, keys, passesOnly);
    }
  }

  lemma {:induction false} NoWeight(keys: seq<string>, passesOnly: bool)
    ensures WeightByKey([], keys, passesOnly) == 0
  {
    if keys != [] { NoWeight(keys[..|keys| - 1], passesOnly); }
  }

  lemma CountTrueAppend(xs: seq<bool>, x: bool)
    ensures CountTrue(xs + [x]) == CountTrue(xs) + if x then 1 else 0
  {
    if xs == [] {
      assert (xs + [x])[1..] == [];
    } else {
      assert (xs + [x])[1..] == xs[1..] + [x];
      CountTrueAppend(xs[1..], x);
    }
  }

  lemma {:induction false} OutcomeWeights(scores: seq<Score>)
    ensures |Outcomes(scores)| == Weight(scores, false) == |scores|
    ensures CountTrue(Outcomes(scores)) == Weight(scores, true)
  {
    if scores != [] {
      var front, s := scores[..|scores| - 1], scores[|scores| - 1];
      OutcomeWeights(front);
      assert Outcomes(scores) == Outcomes(front) + [s.passed];
      CountTrueAppend(Outcomes(front), s.passed);
    }
  }

  function SumTrials(rows: seq<Row>): nat {
    if rows == [] then 0 else SumTrials(rows[..|rows| - 1]) + rows[|rows| - 1].trials
  }
  function SumPassed(rows: seq<Row>): nat {
    if rows == [] then 0 else SumPassed(rows[..|rows| - 1]) + rows[|rows| - 1].passed
  }

  lemma RowWeights(scores: seq<Score>, key: string, round: real -> real)
    ensures RowOf(scores, key, round).trials == Weight(Members(scores, key), false)
    ensures RowOf(scores, key, round).passed == Weight(Members(scores, key), true)
  {
    OutcomeWeights(Members(scores, key));
  }

  lemma {:induction false} ColumnSums(scores: seq<Score>, keys: seq<string>, rows: seq<Row>, round: real -> real)
    requires |rows| == |keys| && forall i :: 0 <= i < |keys| ==> rows[i] == RowOf(scores, keys[i], round)
    ensures SumTrials(rows) == WeightByKey(scores, keys, false)
    ensures SumPassed(rows) == WeightByKey(scores, keys, true)
  {
    if keys != [] {
      var last := |keys| - 1;
      ColumnSums(scores, keys[..last], rows[..last], round);
      RowWeights(scores, keys[last], round);
    }
  }

  lemma {:induction false} WeightCounts(scores: seq<Score>)
    ensures Weight(scores, true) == CountIf(scores, (s: Score) => s.passed)
  {
    if scores != [] { WeightCounts(scores[..|scores| - 1]); }
  }

  lemma SortedKeys(scores: seq<Score>, keys: seq<string>)
    requires keys == Sorted(Keys(scores))
    ensures DistinctKeys(keys) && forall s :: s in scores ==> Key(s) in keys
  {
    SortedAscends(Keys(scores));
    forall s | s in scores ensures Key(s) in keys { KeyIn(scores, s); }
  }

  lemma RowsSums(scores: seq<Score>, keys: seq<string>, round: real -> real)
    ensures SumTrials(RowsOf(scores, keys, round)) == WeightByKey(scores, keys, false)
    ensures SumPassed(RowsOf(scores, keys, round)) == WeightByKey(scores, keys, true)
  {
    ColumnSums(scores, keys, RowsOf(scores, keys, round), round);
  }

  lemma KeyWeights(scores: seq<Score>, keys: seq<string>)
    requires keys == Sorted(Keys(scores))
    ensures WeightByKey(scores, keys, false) == |scores|
    ensures WeightByKey(scores, keys, true) == CountIf(scores, (s: Score) => s.passed)
  {
    SortedKeys(scores, keys);
    WeightsAgree(scores, keys, false);
    WeightsAgree(scores, keys, true);
    OutcomeWeights(scores);
    WeightCounts(scores);
  }

  /** The columns of a report add up: no trial and no pass is lost or counted twice. */
  lemma ReportConserves(scores: seq<Score>, keys: seq<string>, round: real -> real)
    requires keys == Sorted(Keys(scores))
    ensures SumTrials(RowsOf(scores, keys, round)) == |scores|
    ensures SumPassed(RowsOf(scores, keys, round)) == CountIf(scores, (s: Score) => s.passed)
  {
    RowsSums(scores, keys, round);
    KeyWeights(scores, keys);
  }
}
