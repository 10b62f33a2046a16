/**
 * A run of the manifest protocol in which a process dies half-way through a sweep and the next sweep
 * delivers again.
 */
module InterruptedSweep {
  import opened Prelude
  import opened Json
  import opened ManifestDoc
  import opened ManifestProtocol

  const GONE: Probe := Probe(NoSuchProcess, None)

  /** Process `p`, with PID `pid`, takes the lock, judges the first run dead and hands its first group over. */
  function SweepOfOne(p: nat, pid: int): seq<Step> {
    [Start(p, pid, 0.0), Begin(p, Cleanup), Acquire(p), Judge(p, GONE), Delete(p)]
  }

  function Sweeper(pid: int, doc: Doc, task: Task): Process { Process(pid, 0.0, true, doc, task, {}) }

  /** The only entry on disk is the run of a process that is no longer there, with one group. */
  ghost predicate Orphaned(s: State, run: Json, entry: Json, dead: int) {
    && s.doc == ReadDoc(s.file) && Runs(s.doc) == [run] && s.ids == [0] && s.lock.None?
    && Field(run, "pid") == Int(dead) && Groups(run) == [entry]
    && forall q :: !Is(s, q)
  }

  /** What a sweep of one leaves: the lock taken, one verdict, one delivery. */
  function SweptOne(s: State, p: nat, pid: int, entry: Json): State {
    s.(procs := s.procs[p := Sweeper(pid, s.doc, Working(Cleanup, [false], 1))],
       lock := Some(p), log := s.log + [Call(0, entry)])
  }

  /** The process has the lock and a fresh copy. */
  function Holding(s: State, p: nat, pid: int, task: Task): State {
    s.(procs := s.procs[p := Sweeper(pid, s.doc, task)], lock := Some(p))
  }

  lemma SweepAcquires(s: State, p: nat, pid: int, run: Json, entry: Json, dead: int)
    requires Orphaned(s, run, entry, dead) && p !in s.procs && pid != dead
    ensures var steps := [Start(p, pid, 0.0), Begin(p, Cleanup), Acquire(p)];
      Allowed(s, steps) && After(s, steps) == Holding(s, p, pid, Working(Cleanup, [], 0))
  {
    var s1 := With(s, p, Sweeper(pid, map[], Idle));
    var s2 := With(s, p, Sweeper(pid, map[], Waiting(Cleanup)));
    OneStep(s, Start(p, pid, 0.0), s1);
    assert Do(s1, Begin(p, Cleanup)) == s2;
    OneMore(s, [Start(p, pid, 0.0)], Begin(p, Cleanup), s2);
    assert Do(s2, Acquire(p)) == Holding(s, p, pid, Working(Cleanup, [], 0));
    OneMore(s, [Start(p, pid, 0.0)] + [Begin(p, Cleanup)], Acquire(p), Holding(s, p, pid, Working(Cleanup, [], 0)));
    assert [Start(p, pid, 0.0)] + [Begin(p, Cleanup)] + [Acquire(p)] ==
      [Start(p, pid, 0.0), Begin(p, Cleanup), Acquire(p)];
  }

  lemma SweepJudges(s: State, p: nat, pid: int, run: Json, entry: Json, dead: int)
    requires Orphaned(s, run, entry, dead) && pid != dead
    ensures var h := Holding(s, p, pid, Working(Cleanup, [], 0));
      Enabled(h, Judge(p, GONE)) && Do(h, Judge(p, GONE)) == Holding(s, p, pid, Working(Cleanup, [false], 0))
  {
    var h := Holding(s, p, pid, Working(Cleanup, [], 0));
    assert forall q :: Is(h, q) ==> q == p || Is(s, q);
    assert forall q :: Is(h, q) ==> h.procs[q].pid == pid;
    assert Truthful(h, Int(dead), GONE);
    assert !Survives(run, GONE);
    assert [] + [false] == [false];
  }

  lemma SweepDelivers(s: State, p: nat, pid: int, run: Json, entry: Json, dead: int)
    requires Orphaned(s, run, entry, dead)
    ensures var h := Holding(s, p, pid, Working(Cleanup, [false], 0));
      Enabled(h, Delete(p)) && Do(h, Delete(p)) == SweptOne(s, p, pid, entry)
  {
  }

  lemma SweepRuns(s: State, p: nat, pid: int, run: Json, entry: Json, dead: int)
    requires Orphaned(s, run, entry, dead) && p !in s.procs && pid != dead
    ensures Allowed(s, SweepOfOne(p, pid)) && After(s, SweepOfOne(p, pid)) == SweptOne(s, p, pid, entry)
  {
    var steps := [Start(p, pid, 0.0), Begin(p, Cleanup), Acquire(p)];
    SweepAcquires(s, p, pid, run, entry, dead);
    SweepJudges(s, p, pid, run, entry, dead);
    OneMore(s, steps, Judge(p, GONE), Holding(s, p, pid, Working(Cleanup, [false], 0)));
    SweepDelivers(s, p, pid, run, entry, dead);
    OneMore(s, steps + [Judge(p, GONE)], Delete(p), SweptOne(s, p, pid, entry));
    assert steps + [Judge(p, GONE)] + [Delete(p)] == SweepOfOne(p, pid);
  }

  /** Dying there frees the lock and leaves the entry on disk. */
  lemma Dies(s: State, p: nat, pid: int, run: Json, entry: Json, dead: int)
    requires Orphaned(s, run, entry, dead) && p !in s.procs && s.log == []
    ensures var t := SweptOne(s, p, pid, entry); var u := Do(t, Die(p));
      && Enabled(t, Die(p)) && Orphaned(u, run, entry, dead)
      && u.procs.Keys == s.procs.Keys + {p} && u.log == [Call(0, entry)] && u.recs == s.recs && u.swept == s.swept
  {
    var u := Do(SweptOne(s, p, pid, entry), Die(p));
    assert forall q :: Is(u, q) ==> Is(s, q);
  }

  /** Writing there takes the entry off the disk. */
  lemma Writes(s: State, p: nat, pid: int, run: Json, entry: Json, dead: int)
    requires Orphaned(s, run, entry, dead) && p !in s.procs
    ensures var t := SweptOne(s, p, pid, entry); var u := Do(t, Commit(p));
      && Enabled(t, Commit(p)) && u.log == t.log && u.recs == s.recs && 0 in u.swept
  {
    assert Kept([0], [false]) == [] by { assert [0][1..] == []; }
    assert 0 in Set([0]) - Set([]);
  }

  function FileOf(run: Json): Option<Json> { Some(Obj(map["runs" := List([run])])) }

  lemma InitOrphaned(run: Json, entry: Json, dead: int)
    requires ValidRun(run) && Field(run, "pid") == Int(dead) && Groups(run) == [entry]
    ensures var s := Init(FileOf(run));
      Orphaned(s, run, entry, dead) && s.log == [] && s.recs == [run] && s.procs == map[]
  {
    var doc: Doc := map["runs" := List([run])];
    ValidDocUnchanged(doc);
    assert Runs(doc) == [run] && Upto(1) == [0];
  }

  /** The first sweeper dies after delivering, the second delivers and writes. */
  function Interrupted(first: int, second: int): seq<Step> {
    SweepOfOne(0, first) + [Die(0)] + (SweepOfOne(1, second) + [Commit(1)])
  }

  lemma FirstSweep(s: State, first: int, run: Json, entry: Json, dead: int)
    requires Orphaned(s, run, entry, dead) && s.procs == map[] && s.log == [] && dead != first
    ensures Allowed(s, SweepOfOne(0, first) + [Die(0)])
    ensures var died := After(s, SweepOfOne(0, first) + [Die(0)]);
      Orphaned(died, run, entry, dead) && 1 !in died.procs && died.log == [Call(0, entry)] && died.recs == s.recs
  {
    SweepRuns(s, 0, first, run, entry, dead);
    Dies(s, 0, first, run, entry, dead);
    OneMore(s, SweepOfOne(0, first), Die(0), Do(SweptOne(s, 0, first, entry), Die(0)));
  }

  lemma SecondSweep(s: State, second: int, run: Json, entry: Json, dead: int)
    requires Orphaned(s, run, entry, dead) && 1 !in s.procs && dead != second
    ensures Allowed(s, SweepOfOne(1, second) + [Commit(1)])
    ensures var written := After(s, SweepOfOne(1, second) + [Commit(1)]);
      written.log == s.log + [Call(0, entry)] && written.recs == s.recs && 0 in written.swept
  {
    SweepRuns(s, 1, second, run, entry, dead);
    Writes(s, 1, second, run, entry, dead);
    OneMore(s, SweepOfOne(1, second), Commit(1), Do(SweptOne(s, 1, second, entry), Commit(1)));
  }

  lemma InterruptedRuns(s: State, first: int, second: int, run: Json, entry: Json, dead: int)
    requires Orphaned(s, run, entry, dead) && s.procs == map[] && s.log == [] && dead != first && dead != second
    ensures Allowed(s, Interrupted(first, second))
    ensures var end := After(s, Interrupted(first, second));
      end.log == [Call(0, entry), Call(0, entry)] && end.recs == s.recs && 0 in end.swept
  {
    var a, b := SweepOfOne(0, first) + [Die(0)], SweepOfOne(1, second) + [Commit(1)];
    FirstSweep(s, first, run, entry, dead);
    SecondSweep(After(s, a), second, run, entry, dead);
    AfterAppend(s, a, b);
  }

  /**
   * Two processes clean up after a dead one; the first dies in between, and the one group of the run
   * is deleted twice.
   */
  lemma DeliveredTwice(run: Json, entry: Json, dead: int, first: int, second: int)
    requires ValidRun(run) && Field(run, "pid") == Int(dead) && Groups(run) == [entry]
    requires dead != first && dead != second
    ensures Allowed(Init(FileOf(run)), Interrupted(first, second))
    ensures var s := After(Init(FileOf(run)), Interrupted(first, second));
      s.recs == [run] && 0 in s.swept && Received(s.log, 0) == [entry, entry]
  {
    InitOrphaned(run, entry, dead);
    InterruptedRuns(Init(FileOf(run)), first, second, run, entry, dead);
    TwoCalls(entry);
  }

  lemma TwoCalls(entry: Json)
    ensures Received([Call(0, entry), Call(0, entry)], 0) == [entry, entry]
  {
    var log := [Call(0, entry), Call(0, entry)];
    assert log[..1] == [Call(0, entry)] && log[..1][..0] == [];
    assert Received(log[..1], 0) == [entry];
  }
}
