/**
 * Any number of processes sharing one manifest file, as a transition system. A
 * process takes the file lock, re-reads the file, works, writes the whole file in
 * one step and lets go; it may die, or leave by an exception, between any two
 * steps. Process identities are never reused; PIDs are.
 *
 * `doc` and the last seven fields of the state are bookkeeping that no step consults. They
 * give every run entry an identity (its position in `recs`), because two entries
 * can be equal as JSON, and record what happened to each.
 */
module ManifestProtocol {
  import opened Prelude
  import opened Json
  import opened ManifestDoc

  datatype Job =
    | Register(created: Option<real>, groups: seq<Group>, dir: string)
    | Unregister
    | Cleanup

  datatype Task =
    | Idle
    | Waiting(job: Job)                                        // wants the lock
    | Working(job: Job, verdicts: seq<bool>, next: nat)        // holds it; nothing written yet
    | Leaving                                                  // written, or nothing to write

  /** `born` is the creation time the operating system keeps; `mine` the entries registered and not unregistered. */
  datatype Process = Process(pid: int, born: real, alive: bool, data: Doc, task: Task, mine: set<nat>)

  datatype Op = DidRegister(run: Json, dir: string) | DidUnregister(pid: int) | DidSweep(verdicts: seq<bool>)

  /** One call of `delete_fn`: an entry of the run with this identity. */
  datatype Call = Call(id: nat, entry: Json)

  datatype State = State(
    file: Option<Json>,
    doc: Doc,                   // what a read of the file gives
    lock: Option<nat>,
    procs: map<nat, Process>,
    ids: seq<nat>,              // identities of the entries on disk, in file order
    recs: seq<Json>,            // every entry that ever was on disk, by identity
    hist: seq<Op>,              // completed operations, in the order they wrote
    log: seq<Call>,
    torn: map<nat, seq<Json>>,  // entries handed to delete_fn by sweeps that never wrote
    gone: set<nat>,             // removed by unregister_run
    swept: set<nat>)            // removed by a completed sweep

  function Run(p: Process, job: Job): Json
    requires job.Register?
  {
    RunRecord(p.pid, job.created, job.dir, job.groups)
  }

  function Apply(doc: Doc, op: Op): Doc {
    match op
    case DidRegister(run, dir) => Registered(doc, run, dir)
    case DidUnregister(pid) => Unregistered(doc, pid)
    case DidSweep(verdicts) => Swept(doc, verdicts)
  }

  function Replay(doc: Doc, hist: seq<Op>): Doc {
    if hist == [] then doc else Apply(Replay(doc, hist[..|hist| - 1]), hist[|hist| - 1])
  }

  /** What `delete_fn` has received for one run, in order. */
  function Received(log: seq<Call>, id: nat): seq<Json> {
    if log == [] then []
    else
      var last := log[|log| - 1];
      Received(log[..|log| - 1], id) + if last.id == id then [last.entry] else []
  }

  function Lost(torn: map<nat, seq<Json>>, id: nat): seq<Json> { if id in torn then torn[id] else [] }

  // ----- steps -----

  datatype Step =
    | Start(p: nat, pid: int, born: real)
    | Open(p: nat)
    | Begin(p: nat, job: Job)
    | GiveUp(p: nat)
    | Acquire(p: nat)
    | Judge(p: nat, probe: Probe)
    | Delete(p: nat)
    | Commit(p: nat)
    | Release(p: nat)
    | Abort(p: nat)
    | Die(p: nat)

  predicate Is(s: State, p: nat) { p in s.procs && s.procs[p].alive }
  predicate Sweeping(p: Process) { p.task.Working? && p.task.job.Cleanup? }

  /** The run judged last was judged dead and still has groups to delete. */
  predicate Pending(p: Process) {
    Sweeping(p) &&
    var n := |p.task.verdicts|;
    0 < n <= |Runs(p.data)| && !p.task.verdicts[n - 1] && p.task.next < |Groups(Runs(p.data)[n - 1])|
  }

  /** What a probe of `pid` may answer, given the live processes. */
  ghost predicate Truthful(s: State, pid: Json, probe: Probe) {
    IsInt(pid) ==>
      && (forall q :: Is(s, q) && s.procs[q].pid == IntOf(pid) ==>
        && !probe.signal.NoSuchProcess?
        && (probe.created == None || probe.created == Some(s.procs[q].born)))
      && (IntOf(pid) > 0 && (forall q :: Is(s, q) ==> s.procs[q].pid != IntOf(pid)) ==>
        probe.signal.NoSuchProcess?)
  }

  ghost predicate Enabled(s: State, step: Step) {
    match step
    case Start(p, pid, born) => p !in s.procs && forall q :: Is(s, q) ==> s.procs[q].pid != pid
    case Open(p) => Is(s, p) && s.procs[p].task.Idle?
    case Begin(p, job) => Is(s, p) && s.procs[p].task.Idle? &&
        (job.Register? ==> job.created == None || job.created == Some(s.procs[p].born))
    case GiveUp(p) => Is(s, p) && s.procs[p].task.Waiting?
    case Acquire(p) => Is(s, p) && s.procs[p].task.Waiting? && s.lock.None?
    case Judge(p, probe) => Is(s, p) && Sweeping(s.procs[p]) && !Pending(s.procs[p]) &&
        |s.procs[p].task.verdicts| < |Runs(s.procs[p].data)| &&
        Truthful(s, Field(Runs(s.procs[p].data)[|s.procs[p].task.verdicts|], "pid"), probe)
    case Delete(p) => Is(s, p) && Pending(s.procs[p])
    case Commit(p) => Is(s, p) && s.procs[p].task.Working? && !NullRuns(s.procs[p].data) &&
        (Sweeping(s.procs[p]) ==> !Pending(s.procs[p]) && |s.procs[p].task.verdicts| == |Runs(s.procs[p].data)|)
    case Release(p) => Is(s, p) && s.procs[p].task.Leaving?
    case Abort(p) => Is(s, p) && s.procs[p].task.Working?
    case Die(p) => Is(s, p)
  }

  function With(s: State, p: nat, proc: Process): State { s.(procs := s.procs[p := proc]) }

  /** Losing the lock half-way: what was delivered stays delivered, and the entries stay on disk. */
  function Drop(s: State, p: nat): State {
    if s.lock == Some(p) then
      s.(lock := None, torn := s.torn + map id | id in s.ids :: Received(s.log, id))
    else s
  }

  function Do(s: State, step: Step): State
    requires step.Start? || step.p in s.procs
  {
    match step
    case Start(p, pid, born) => With(s, p, Process(pid, born, true, map[], Idle, {}))
    case Open(p) => With(s, p, s.procs[p].(data := ReadDoc(s.file)))
    case Begin(p, job) => With(s, p, s.procs[p].(task := Waiting(job)))
    case GiveUp(p) => With(s, p, s.procs[p].(task := Idle))
    case Acquire(p) => DoAcquire(s, p)
    case Judge(p, probe) => DoJudge(s, p, probe)
    case Delete(p) => DoDelete(s, p)
    case Commit(p) => DoCommit(s, p)
    case Release(p) => With(s, p, s.procs[p].(task := Idle)).(lock := None)
    case Abort(p) => With(Drop(s, p), p, s.procs[p].(task := Idle))
    case Die(p) => With(Drop(s, p), p, s.procs[p].(task := Idle, alive := false))
  }

  function DoAcquire(s: State, p: nat): State
    requires p in s.procs
  {
    var proc := s.procs[p];
    if !proc.task.Waiting? then s else
    var doc := ReadDoc(s.file);
    var task := if proc.task.job.Cleanup? && Runs(doc) == [] then Leaving else Working(proc.task.job, [], 0);
    With(s, p, proc.(data := doc, task := task)).(lock := Some(p))
  }

  function DoJudge(s: State, p: nat, probe: Probe): State
    requires p in s.procs
  {
    var proc := s.procs[p];
    if !proc.task.Working? || |proc.task.verdicts| >= |Runs(proc.data)| then s else
    var verdict := Survives(Runs(proc.data)[|proc.task.verdicts|], probe);
    With(s, p, proc.(task := Working(proc.task.job, proc.task.verdicts + [verdict], 0)))
  }

  function DoDelete(s: State, p: nat): State
    requires p in s.procs
  {
    var proc := s.procs[p];
    if !Pending(proc) || |proc.task.verdicts| > |s.ids| then s else
    var i := |proc.task.verdicts| - 1;
    With(s, p, proc.(task := Working(proc.task.job, proc.task.verdicts, proc.task.next + 1)))
    .(log := s.log + [Call(s.ids[i], Groups(Runs(proc.data)[i])[proc.task.next])])
  }

  function DoCommit(s: State, p: nat): State
    requires p in s.procs
  {
    var proc := s.procs[p];
    if !proc.task.Working? then s else
    match proc.task.job
    case Register(_, _, dir) =>
      var run := Run(proc, proc.task.job);
      var doc := Registered(proc.data, run, dir);
      With(s, p, proc.(data := doc, task := Leaving, mine := proc.mine + {|s.recs|}))
      .(file := Some(Obj(doc)), doc := doc, ids := s.ids + [|s.recs|], recs := s.recs + [run],
        hist := s.hist + [DidRegister(run, dir)])
    case Unregister =>
      var doc := Unregistered(proc.data, proc.pid);
      var ids := Kept(s.ids, OtherPids(Runs(proc.data), proc.pid));
      With(s, p, proc.(data := doc, task := Leaving, mine := {}))
      .(file := Some(Obj(doc)), doc := doc, ids := ids, gone := s.gone + (Set(s.ids) - Set(ids)),
        hist := s.hist + [DidUnregister(proc.pid)])
    case Cleanup =>
      var doc := Swept(proc.data, proc.task.verdicts);
      var ids := Kept(s.ids, proc.task.verdicts);
      With(s, p, proc.(data := doc, task := Leaving))
      .(file := Some(Obj(doc)), doc := doc, ids := ids, swept := s.swept + (Set(s.ids) - Set(ids)),
        hist := s.hist + [DidSweep(proc.task.verdicts)])
  }

  function Set(xs: seq<nat>): set<nat> { set x | x in xs }

  // ----- runs -----

  function Upto(n: nat): (xs: seq<nat>)
    ensures |xs| == n && forall i :: 0 <= i < n ==> xs[i] == i
  {
    seq(n, i => i)
  }

  /** No process yet; whatever the file holds is numbered from 0. */
  function Init(file: Option<Json>): State {
    var runs := Runs(ReadDoc(file));
    State(file, ReadDoc(file), None, map[], Upto(|runs|), runs, [], [], map[], {}, {})
  }

  ghost predicate Allowed(s: State, steps: seq<Step>)
    decreases |steps|
  {
    steps == [] || (Enabled(s, steps[0]) && Allowed(Do(s, steps[0]), steps[1..]))
  }

  ghost function After(s: State, steps: seq<Step>): State
    requires Allowed(s, steps)
    decreases |steps|
  {
    if steps == [] then s else After(Do(s, steps[0]), steps[1..])
  }

  // ----- invariants -----

  predicate Inside(t: Task) { t.Working? || t.Leaving? }

  ghost predicate Locking(lock: Option<nat>, procs: map<nat, Process>) {
    && (lock.Some? ==> lock.value in procs && Inside(procs[lock.value].task))
    && (forall p :: p in procs && Inside(procs[p].task) ==> lock == Some(p) && procs[p].alive)
    && (forall p, q :: p in procs && q in procs && procs[p].alive && procs[q].alive ==>
      procs[p].pid == procs[q].pid ==> p == q)
  }

  /** The task of the process that holds the lock. */
  function Current(s: State): Task {
    if s.lock.Some? && s.lock.value in s.procs then s.procs[s.lock.value].task else Idle
  }

  /** A process at work sees what is on disk, however stale its copy was before. */
  ghost predicate Fresh(procs: map<nat, Process>, doc: Doc) {
    forall p :: p in procs && procs[p].task.Working? ==> procs[p].data == doc
  }

  /** Where a task can stand over a file with these runs. */
  predicate Positioned(t: Task, runs: seq<Json>) {
    t.Working? ==>
      && (t.job.Cleanup? ==> |t.verdicts| <= |runs| && runs != [])
      && (!t.job.Cleanup? ==> t.verdicts == [])
      && (t.verdicts != [] && !t.verdicts[|t.verdicts| - 1] ==> t.next <= |Groups(runs[|t.verdicts| - 1])|)
  }

  ghost predicate Named(ids: seq<nat>, recs: seq<Json>, runs: seq<Json>) {
    && |ids| == |runs|
    && (forall i :: 0 <= i < |ids| ==> ids[i] < |recs| && runs[i] == recs[ids[i]])
    && (forall i, j :: 0 <= i < j < |ids| ==> ids[i] != ids[j])
  }

  /** Every identity is in exactly one place: on disk, unregistered, or swept. */
  ghost predicate Placed(ids: seq<nat>, gone: set<nat>, swept: set<nat>, n: nat) {
    && (forall id :: id in ids || id in gone || id in swept <==> 0 <= id < n)
    && (forall id :: id in ids ==> id !in gone && id !in swept)
    && gone !! swept
  }

  /** The part of the i-th run's groups that the sweep in progress has handed over. */
  function Sent(t: Task, i: nat, groups: seq<Json>): seq<Json> {
    if !t.Working? || i >= |t.verdicts| || t.verdicts[i] then []
    else if i == |t.verdicts| - 1 && t.next <= |groups| then groups[..t.next]
    else groups
  }

  ghost predicate SentOnDisk(ids: seq<nat>, recs: seq<Json>, log: seq<Call>, torn: map<nat, seq<Json>>, t: Task) {
    forall i :: 0 <= i < |ids| && ids[i] < |recs| ==>
      Received(log, ids[i]) == Lost(torn, ids[i]) + Sent(t, i, Groups(recs[ids[i]]))
  }

  ghost predicate SentElsewhere(gone: set<nat>, swept: set<nat>, recs: seq<Json>, log: seq<Call>,
      torn: map<nat, seq<Json>>)
  {
    && (forall id :: id >= |recs| ==> Received(log, id) == [] && Lost(torn, id) == [])
    && (forall id :: id in gone ==> Received(log, id) == Lost(torn, id))
    && (forall id :: id in swept && id < |recs| ==> Received(log, id) == Lost(torn, id) + Groups(recs[id]))
  }

  /** `run` was written by `proc`, as far as its PID and creation time tell. */
  predicate WrittenBy(run: Json, proc: Process) {
    && Field(run, "pid") == Int(proc.pid)
    && (Created(run) == None || Created(run) == Some(proc.born))
  }

  /** A process records its own creation time, or none. */
  ghost predicate Honest(procs: map<nat, Process>) {
    forall p :: p in procs && (procs[p].task.Waiting? || procs[p].task.Working?) && procs[p].task.job.Register? ==>
      procs[p].task.job.created == None || procs[p].task.job.created == Some(procs[p].born)
  }

  /** The live process `p` registered the entry `id` and has not unregistered it. */
  predicate Owns(procs: map<nat, Process>, p: nat, id: nat) {
    p in procs && procs[p].alive && id in procs[p].mine
  }

  ghost predicate Owned(procs: map<nat, Process>, ids: seq<nat>, recs: seq<Json>, log: seq<Call>) {
    forall p: nat, id: nat :: Owns(procs, p, id) ==>
      id in ids && id < |recs| && WrittenBy(recs[id], procs[p]) && Received(log, id) == []
  }

  /** The sweep in progress has judged no entry of a live process dead. */
  ghost predicate Spared(procs: map<nat, Process>, ids: seq<nat>, t: Task) {
    t.Working? ==> forall i: nat, p: nat ::
      0 <= i < |t.verdicts| && i < |ids| && Owns(procs, p, ids[i]) ==> t.verdicts[i]
  }

  ghost predicate Inv(s: State, first: Option<Json>) {
    && s.doc == ReadDoc(s.file)
    && s.doc == Replay(ReadDoc(first), s.hist)
    && Core(s)
  }

  ghost predicate Core(s: State) {
    && Locking(s.lock, s.procs)
    && Fresh(s.procs, s.doc)
    && Positioned(Current(s), Runs(s.doc))
    && Named(s.ids, s.recs, Runs(s.doc))
    && Placed(s.ids, s.gone, s.swept, |s.recs|)
    && SentOnDisk(s.ids, s.recs, s.log, s.torn, Current(s))
    && SentElsewhere(s.gone, s.swept, s.recs, s.log, s.torn)
    && Honest(s.procs)
    && Owned(s.procs, s.ids, s.recs, s.log)
    && Spared(s.procs, s.ids, Current(s))
  }

  // ----- every step keeps the invariants -----

  /** `proc` may stand in for `before` wherever only identity and ownership matter. */
  predicate Continues(proc: Process, before: Process) {
    proc.pid == before.pid && proc.born == before.born && proc.mine == before.mine && (proc.alive ==> before.alive)
  }

  lemma OwnedFrame(procs: map<nat, Process>, p: nat, proc: Process, ids: seq<nat>, recs: seq<Json>, log: seq<Call>)
    requires Owned(procs, ids, recs, log) && p in procs && Continues(proc, procs[p])
    ensures Owned(procs[p := proc], ids, recs, log)
  {
    var procs' := procs[p := proc];
    forall q: nat, id: nat | Owns(procs', q, id)
      ensures id in ids && id < |recs| && WrittenBy(recs[id], procs'[q]) && Received(log, id) == []
    {
      assert Owns(procs, q, id);
    }
  }

  lemma SparedFrame(procs: map<nat, Process>, p: nat, proc: Process, ids: seq<nat>, t: Task)
    requires Spared(procs, ids, t) && p in procs && Continues(proc, procs[p])
    ensures Spared(procs[p := proc], ids, t)
  {
    var procs' := procs[p := proc];
    if t.Working? {
      forall i: nat, q: nat | 0 <= i < |t.verdicts| && i < |ids| && Owns(procs', q, ids[i])
        ensures t.verdicts[i]
      {
        assert Owns(procs, q, ids[i]);
      }
    }
  }

  lemma LockingFrame(lock: Option<nat>, procs: map<nat, Process>, p: nat, proc: Process)
    requires Locking(lock, procs) && p in procs && Continues(proc, procs[p])
    requires Inside(proc.task) <==> Inside(procs[p].task)
    requires Inside(proc.task) ==> proc.alive
    ensures Locking(lock, procs[p := proc])
  {
  }

  lemma StartKeeps(s: State, p: nat, pid: int, born: real)
    requires Core(s) && Enabled(s, Start(p, pid, born))
    ensures Core(Do(s, Start(p, pid, born)))
  {
    var s' := Do(s, Start(p, pid, born));
    assert Current(s') == Current(s);
    assert Locking(s'.lock, s'.procs) by {
      assert forall q :: q in s'.procs && s'.procs[q].alive && q != p ==> Is(s, q);
    }
    assert forall q: nat, id: nat :: Owns(s'.procs, q, id) ==> Owns(s.procs, q, id);
    assert Owned(s'.procs, s'.ids, s'.recs, s'.log);
  }

  /** A step of one process outside the lock that only touches its copy and its task. */
  lemma OutsideKeeps(s: State, step: Step)
    requires Core(s) && Enabled(s, step) && (step.Open? || step.Begin? || step.GiveUp?)
    ensures Core(Do(s, step))
  {
    var s' := Do(s, step);
    var proc := s'.procs[step.p];
    assert Current(s') == Current(s);
    LockingFrame(s.lock, s.procs, step.p, proc);
    OwnedFrame(s.procs, step.p, proc, s.ids, s.recs, s.log);
    SparedFrame(s.procs, step.p, proc, s.ids, Current(s));
    assert Honest(s'.procs);
  }

  lemma AcquireKeeps(s: State, p: nat)
    requires Core(s) && s.doc == ReadDoc(s.file) && Enabled(s, Acquire(p))
    ensures Core(Do(s, Acquire(p)))
  {
    var s' := Do(s, Acquire(p));
    OwnedFrame(s.procs, p, s'.procs[p], s.ids, s.recs, s.log);
  }

  lemma ReleaseKeeps(s: State, p: nat)
    requires Core(s) && Enabled(s, Release(p))
    ensures Core(Do(s, Release(p)))
  {
    var s' := Do(s, Release(p));
    OwnedFrame(s.procs, p, s'.procs[p], s.ids, s.recs, s.log);
    LockingFree(s.procs, p, s'.procs[p]);
  }

  /** Dying or failing outside the lock. */
  lemma DropOutsideKeeps(s: State, step: Step)
    requires Core(s) && Enabled(s, step) && (step.Abort? || step.Die?) && s.lock != Some(step.p)
    ensures Core(Do(s, step))
  {
    var s' := Do(s, step);
    var proc := s'.procs[step.p];
    assert Current(s') == Current(s);
    LockingFrame(s.lock, s.procs, step.p, proc);
    OwnedFrame(s.procs, step.p, proc, s.ids, s.recs, s.log);
    SparedFrame(s.procs, step.p, proc, s.ids, Current(s));
  }

  ghost function WrittenOff(ids: seq<nat>, log: seq<Call>, torn: map<nat, seq<Json>>): map<nat, seq<Json>> {
    torn + map id | id in ids :: Received(log, id)
  }

  lemma WriteOff(ids: seq<nat>, recs: seq<Json>, log: seq<Call>, torn: map<nat, seq<Json>>, gone: set<nat>,
      swept: set<nat>)
    requires Placed(ids, gone, swept, |recs|)
    requires SentElsewhere(gone, swept, recs, log, torn)
    ensures SentOnDisk(ids, recs, log, WrittenOff(ids, log, torn), Idle)
    ensures SentElsewhere(gone, swept, recs, log, WrittenOff(ids, log, torn))
  {
    var torn' := WrittenOff(ids, log, torn);
    assert forall id: nat :: id !in ids ==> Lost(torn', id) == Lost(torn, id);
    assert forall id: nat :: id in ids ==> Lost(torn', id) == Received(log, id);
  }

  lemma LockingFree(procs: map<nat, Process>, p: nat, proc: Process)
    requires Locking(Some(p), procs) && Continues(proc, procs[p]) && !Inside(proc.task)
    ensures Locking(None, procs[p := proc])
  {
  }

  /** Dying or failing inside it: the lock is freed and the interrupted deliveries are written off. */
  lemma DropInsideKeeps(s: State, step: Step)
    requires Core(s) && Enabled(s, step) && (step.Abort? || step.Die?) && s.lock == Some(step.p)
    ensures Core(Do(s, step))
  {
    var s' := Do(s, step);
    assert Current(s') == Idle;
    OwnedFrame(s.procs, step.p, s'.procs[step.p], s.ids, s.recs, s.log);
    LockingFree(s.procs, step.p, s'.procs[step.p]);
    WriteOff(s.ids, s.recs, s.log, s.torn, s.gone, s.swept);
    assert s'.torn == WrittenOff(s.ids, s.log, s.torn);
  }

  /** A truthful probe never condemns an entry of the live process that wrote it. */
  lemma OwnerSurvives(s: State, owner: nat, run: Json, probe: Probe)
    requires Is(s, owner) && WrittenBy(run, s.procs[owner]) && Truthful(s, Field(run, "pid"), probe)
    ensures Survives(run, probe)
  {
  }

  lemma JudgeSpares(s: State, p: nat, probe: Probe)
    requires Named(s.ids, s.recs, Runs(s.doc)) && Owned(s.procs, s.ids, s.recs, s.log)
    requires Enabled(s, Judge(p, probe)) && s.procs[p].data == s.doc && Spared(s.procs, s.ids, s.procs[p].task)
    ensures Spared(s.procs, s.ids, Do(s, Judge(p, probe)).procs[p].task)
  {
    var t := s.procs[p].task;
    var n := |t.verdicts|;
    var t' := Do(s, Judge(p, probe)).procs[p].task;
    forall i: nat, q: nat | 0 <= i < |t'.verdicts| && i < |s.ids| && Owns(s.procs, q, s.ids[i])
      ensures t'.verdicts[i]
    {
      if i == n {
        assert WrittenBy(s.recs[s.ids[n]], s.procs[q]) && Is(s, q);
        OwnerSurvives(s, q, Runs(s.doc)[n], probe);
      } else {
        assert t.verdicts[i];
      }
    }
  }

  /** Judging the next run closes the account of the one before. */
  lemma SentJudged(t: Task, verdict: bool, i: nat, groups: seq<Json>)
    requires t.Working?
    requires i == |t.verdicts| - 1 && !t.verdicts[i] ==> t.next >= |groups|
    ensures Sent(Working(t.job, t.verdicts + [verdict], 0), i, groups) == Sent(t, i, groups)
  {
    if i == |t.verdicts| - 1 { assert groups[..|groups|] == groups; }
    assert groups[..0] == [];
  }

  lemma JudgeSends(t: Task, verdict: bool, runs: seq<Json>, ids: seq<nat>, recs: seq<Json>, log: seq<Call>,
      torn: map<nat, seq<Json>>)
    requires t.Working? && Named(ids, recs, runs) && |t.verdicts| < |runs|
    requires t.verdicts != [] && !t.verdicts[|t.verdicts| - 1] ==> t.next >= |Groups(runs[|t.verdicts| - 1])|
    requires SentOnDisk(ids, recs, log, torn, t)
    ensures SentOnDisk(ids, recs, log, torn, Working(t.job, t.verdicts + [verdict], 0))
  {
    var t' := Working(t.job, t.verdicts + [verdict], 0);
    forall i | 0 <= i < |ids| && ids[i] < |recs|
      ensures Received(log, ids[i]) == Lost(torn, ids[i]) + Sent(t', i, Groups(recs[ids[i]]))
    {
      assert runs[i] == recs[ids[i]];
      SentJudged(t, verdict, i, Groups(recs[ids[i]]));
    }
  }

  /** The holder moves on inside its critical section; `log` is the deliveries so far. */
  lemma WorkKeeps(s: State, p: nat, t: Task, log: seq<Call>)
    requires Core(s) && s.lock == Some(p) && s.procs[p].task.Working? && t.Working? && t.job == s.procs[p].task.job
    requires Positioned(t, Runs(s.doc))
    requires SentOnDisk(s.ids, s.recs, log, s.torn, t) && SentElsewhere(s.gone, s.swept, s.recs, log, s.torn)
    requires Owned(s.procs, s.ids, s.recs, log) && Spared(s.procs, s.ids, t)
    ensures Core(With(s, p, s.procs[p].(task := t)).(log := log))
  {
    var proc := s.procs[p].(task := t);
    LockingFrame(s.lock, s.procs, p, proc);
    OwnedFrame(s.procs, p, proc, s.ids, s.recs, log);
    SparedFrame(s.procs, p, proc, s.ids, t);
  }

  lemma JudgeKeeps(s: State, p: nat, probe: Probe)
    requires Core(s) && Enabled(s, Judge(p, probe))
    ensures Core(Do(s, Judge(p, probe)))
  {
    var s' := Do(s, Judge(p, probe));
    var t := s.procs[p].task;
    var proc := s'.procs[p];
    assert s.lock == Some(p) && Current(s) == t && Current(s') == proc.task && s.procs[p].data == s.doc;
    JudgeSpares(s, p, probe);
    JudgeSends(t, proc.task.verdicts[|t.verdicts|], Runs(s.doc), s.ids, s.recs, s.log, s.torn);
    WorkKeeps(s, p, proc.task, s.log);
  }

  lemma ReceivedOne(log: seq<Call>, call: Call, id: nat)
    ensures Received(log + [call], id) == Received(log, id) + if id == call.id then [call.entry] else []
  {
    assert (log + [call])[..|log|] == log;
  }

  lemma ReceivedAppend(log: seq<Call>, call: Call)
    ensures forall id: nat ::
      Received(log + [call], id) == Received(log, id) + (if id == call.id then [call.entry] else [])
  {
    assert (log + [call])[..|log|] == log;
  }

  lemma SentDeleted(t: Task, i: nat, groups: seq<Json>)
    requires t.Working? && t.verdicts != [] && !t.verdicts[|t.verdicts| - 1]
    requires i == |t.verdicts| - 1 ==> t.next < |groups|
    ensures Sent(Working(t.job, t.verdicts, t.next + 1), i, groups) ==
      Sent(t, i, groups) + if i == |t.verdicts| - 1 then [groups[t.next]] else []
  {
    if i == |t.verdicts| - 1 { assert groups[..t.next + 1] == groups[..t.next] + [groups[t.next]]; }
  }

  lemma DeleteSends(t: Task, runs: seq<Json>, ids: seq<nat>, recs: seq<Json>, log: seq<Call>, torn: map<nat, seq<Json>>)
    requires t.Working? && 0 < |t.verdicts| <= |runs| && !t.verdicts[|t.verdicts| - 1] && Named(ids, recs, runs)
    requires t.next < |Groups(runs[|t.verdicts| - 1])|
    requires SentOnDisk(ids, recs, log, torn, t)
    ensures var n := |t.verdicts| - 1;
      SentOnDisk(ids, recs, log + [Call(ids[n], Groups(runs[n])[t.next])], torn, Working(t.job, t.verdicts, t.next + 1))
  {
    var n := |t.verdicts| - 1;
    var call := Call(ids[n], Groups(runs[n])[t.next]);
    forall i | 0 <= i < |ids| && ids[i] < |recs|
      ensures Received(log + [call], ids[i]) ==
        Lost(torn, ids[i]) + Sent(Working(t.job, t.verdicts, t.next + 1), i, Groups(recs[ids[i]]))
    {
      ReceivedOne(log, call, ids[i]);
      assert runs[i] == recs[ids[i]] && (i != n ==> ids[i] != ids[n]);
      SentDeleted(t, i, Groups(recs[ids[i]]));
    }
  }

  lemma DeleteElsewhere(call: Call, ids: seq<nat>, gone: set<nat>, swept: set<nat>, procs: map<nat, Process>, t: Task,
      recs: seq<Json>, log: seq<Call>, torn: map<nat, seq<Json>>)
    requires Placed(ids, gone, swept, |recs|) && SentElsewhere(gone, swept, recs, log, torn)
    requires t.Working? && 0 < |t.verdicts| <= |ids| && !t.verdicts[|t.verdicts| - 1]
      && call.id == ids[|t.verdicts| - 1]
    requires Owned(procs, ids, recs, log) && Spared(procs, ids, t)
    ensures SentElsewhere(gone, swept, recs, log + [call], torn)
    ensures Owned(procs, ids, recs, log + [call])
  {
    ReceivedAppend(log, call);
    assert call.id in ids;
  }

  lemma Holder(s: State, p: nat)
    requires Core(s) && p in s.procs && Inside(s.procs[p].task)
    ensures s.lock == Some(p) && s.procs[p].alive && Current(s) == s.procs[p].task
    ensures s.procs[p].task.Working? ==> s.procs[p].data == s.doc
  {
  }

  lemma PendingShape(s: State, p: nat, t: Task, n: int)
    requires Core(s) && Enabled(s, Delete(p)) && t == s.procs[p].task && n == |s.procs[p].task.verdicts| - 1
    ensures s.lock == Some(p) && Current(s) == t && s.procs[p].data == s.doc && t.Working? && t.job.Cleanup?
    ensures 0 <= n < |s.ids| && |s.ids| == |Runs(s.doc)| && !t.verdicts[n] && t.next < |Groups(Runs(s.doc)[n])|
  {
    Holder(s, p);
    PendingTask(s.procs[p], t, n);
    AsManyIds(s);
  }

  lemma AsManyIds(s: State)
    requires Core(s)
    ensures |s.ids| == |Runs(s.doc)|
  {
  }

  lemma PendingTask(proc: Process, t: Task, n: int)
    requires Pending(proc) && t == proc.task && n == |proc.task.verdicts| - 1
    ensures t.Working? && t.job.Cleanup? && 0 <= n < |Runs(proc.data)| && !t.verdicts[n]
    ensures t.next < |Groups(Runs(proc.data)[n])|
  {
  }

  lemma DeleteShape(s: State, p: nat, t: Task, n: nat)
    requires p in s.procs && s.procs[p].task == t && t.Working? && t.job.Cleanup? && n == |t.verdicts| - 1
    requires s.procs[p].data == s.doc && n < |s.ids| && n < |Runs(s.doc)| && !t.verdicts[n]
      && t.next < |Groups(Runs(s.doc)[n])|
    ensures Do(s, Delete(p)) == With(s, p, s.procs[p].(task := Working(t.job, t.verdicts, t.next + 1)))
      .(log := s.log + [Call(s.ids[n], Groups(Runs(s.doc)[n])[t.next])])
  {
  }

  lemma DeleteKeeps(s: State, p: nat)
    requires Core(s) && Enabled(s, Delete(p))
    ensures Core(Do(s, Delete(p)))
  {
    var t := s.procs[p].task;
    var n := |t.verdicts| - 1;
    PendingShape(s, p, t, n);
    DeleteShape(s, p, t, n);
    DeleteCore(s, p, t, n);
  }

  lemma DeleteCore(s: State, p: nat, t: Task, n: nat)
    requires Core(s) && s.lock == Some(p) && s.procs[p].task == t == Current(s) && t.Working? && t.job.Cleanup?
    requires n == |t.verdicts| - 1 && n < |s.ids| && |s.ids| == |Runs(s.doc)| && !t.verdicts[n]
    requires t.next < |Groups(Runs(s.doc)[n])|
    ensures Core(With(s, p, s.procs[p].(task := Working(t.job, t.verdicts, t.next + 1)))
      .(log := s.log + [Call(s.ids[n], Groups(Runs(s.doc)[n])[t.next])]))
  {
    var call := Call(s.ids[n], Groups(Runs(s.doc)[n])[t.next]);
    var t' := Working(t.job, t.verdicts, t.next + 1);
    var log := s.log + [call];
    assert SentOnDisk(s.ids, s.recs, log, s.torn, t') by { DeleteSends(t, Runs(s.doc), s.ids, s.recs, s.log, s.torn); }
    assert SentElsewhere(s.gone, s.swept, s.recs, log, s.torn) && Owned(s.procs, s.ids, s.recs, log) by {
      DeleteElsewhere(call, s.ids, s.gone, s.swept, s.procs, t, s.recs, s.log, s.torn);
    }
    assert Spared(s.procs, s.ids, t') by { SpareOn(s.procs, s.ids, t); }
    WorkKeeps(s, p, t', log);
  }

  lemma SpareOn(procs: map<nat, Process>, ids: seq<nat>, t: Task)
    requires Spared(procs, ids, t) && t.Working?
    ensures Spared(procs, ids, Working(t.job, t.verdicts, t.next + 1))
  {
  }

  lemma {:induction false} KeptMembers(ids: seq<nat>, verdicts: seq<bool>, id: nat)
    requires |verdicts| == |ids|
    ensures id in Kept(ids, verdicts) <==> exists i :: 0 <= i < |ids| && ids[i] == id && verdicts[i]
  {
    if ids != [] {
      KeptMembers(ids[1..], verdicts[1..], id);
      if i :| 0 <= i < |ids[1..]| && ids[1..][i] == id && verdicts[1..][i] {
        assert ids[i + 1] == id && verdicts[i + 1];
      }
      if i :| 0 < i < |ids| && ids[i] == id && verdicts[i] { assert ids[1..][i - 1] == id && verdicts[1..][i - 1]; }
    }
  }

  lemma NamedTail(ids: seq<nat>, recs: seq<Json>, runs: seq<Json>)
    requires Named(ids, recs, runs) && ids != []
    ensures Named(ids[1..], recs, runs[1..]) && ids[0] !in ids[1..]
  {
    forall i, j | 0 <= i < j < |ids[1..]| ensures ids[1..][i] != ids[1..][j] { assert ids[i + 1] != ids[j + 1]; }
    forall i | 0 <= i < |ids[1..]| ensures ids[1..][i] < |recs| && runs[1..][i] == recs[ids[1..][i]] {
      assert ids[i + 1] < |recs| && runs[i + 1] == recs[ids[i + 1]];
    }
    forall i | 0 <= i < |ids[1..]| ensures ids[1..][i] != ids[0] { assert ids[i + 1] != ids[0]; }
  }

  lemma NamedCons(id: nat, ids: seq<nat>, recs: seq<Json>, run: Json, runs: seq<Json>)
    requires Named(ids, recs, runs) && id !in ids && id < |recs| && recs[id] == run
    ensures Named([id] + ids, recs, [run] + runs)
  {
  }

  lemma {:induction false} KeptStaysNamed(ids: seq<nat>, recs: seq<Json>, runs: seq<Json>, verdicts: seq<bool>)
    requires Named(ids, recs, runs) && |verdicts| == |ids|
    ensures Named(Kept(ids, verdicts), recs, Kept(runs, verdicts))
  {
    if ids != [] {
      NamedTail(ids, recs, runs);
      KeptStaysNamed(ids[1..], recs, runs[1..], verdicts[1..]);
      var rest, runs' := Kept(ids[1..], verdicts[1..]), Kept(runs[1..], verdicts[1..]);
      if verdicts[0] {
        if ids[0] in rest {
          KeptMembers(ids[1..], verdicts[1..], ids[0]);
          assert false;
        }
        NamedCons(ids[0], rest, recs, runs[0], runs');
      } else {
        assert [] + rest == rest && [] + runs' == runs';
      }
    }
  }

  lemma KeptNamed(ids: seq<nat>, recs: seq<Json>, runs: seq<Json>, verdicts: seq<bool>)
    requires Named(ids, recs, runs) && |verdicts| == |ids|
    ensures Named(Kept(ids, verdicts), recs, Kept(runs, verdicts))
    ensures forall i :: 0 <= i < |ids| ==> (ids[i] in Kept(ids, verdicts) <==> verdicts[i])
    ensures forall id :: id in Kept(ids, verdicts) ==> id in ids
  {
    KeptStaysNamed(ids, recs, runs, verdicts);
    forall i | 0 <= i < |ids| ensures ids[i] in Kept(ids, verdicts) <==> verdicts[i] {
      KeptMembers(ids, verdicts, ids[i]);
    }
    forall id | id in Kept(ids, verdicts) ensures id in ids { KeptMembers(ids, verdicts, id); }
  }

  /** A holder that has written is inside the lock still, with nothing under way. */
  lemma LockingHeld(procs: map<nat, Process>, p: nat, proc: Process)
    requires Locking(Some(p), procs) && proc.alive && proc.pid == procs[p].pid && Inside(proc.task)
    ensures Locking(Some(p), procs[p := proc])
  {
  }

  lemma RegisterNames(ids: seq<nat>, recs: seq<Json>, doc: Doc, gone: set<nat>, swept: set<nat>, run: Json, dir: string)
    requires Named(ids, recs, Runs(doc)) && Placed(ids, gone, swept, |recs|)
    ensures Named(ids + [|recs|], recs + [run], Runs(Registered(doc, run, dir)))
    ensures Placed(ids + [|recs|], gone, swept, |recs + [run]|)
  {
    assert Runs(Registered(doc, run, dir)) == Runs(doc) + [run];
    assert forall id :: id in ids + [|recs|] <==> id in ids || id == |recs|;
  }

  lemma RegisterSends(ids: seq<nat>, recs: seq<Json>, gone: set<nat>, swept: set<nat>, run: Json, log: seq<Call>,
      torn: map<nat, seq<Json>>, t: Task)
    requires SentOnDisk(ids, recs, log, torn, t) && SentElsewhere(gone, swept, recs, log, torn)
    requires t.Working? && t.verdicts == [] && (forall i :: 0 <= i < |ids| ==> ids[i] < |recs|)
    requires Placed(ids, gone, swept, |recs|)
    ensures SentOnDisk(ids + [|recs|], recs + [run], log, torn, Leaving)
    ensures SentElsewhere(gone, swept, recs + [run], log, torn)
  {
    var ids' := ids + [|recs|];
    forall i | 0 <= i < |ids'|
      ensures Received(log, ids'[i]) == Lost(torn, ids'[i])
    {
      if i < |ids| {
        assert ids'[i] == ids[i] && Sent(t, i, Groups(recs[ids[i]])) == [];
      }
    }
  }

  lemma RegisterOwns(procs: map<nat, Process>, p: nat, proc: Process, ids: seq<nat>, recs: seq<Json>, run: Json,
      log: seq<Call>)
    requires Owned(procs, ids, recs, log) && p in procs && procs[p].alive
    requires proc.pid == procs[p].pid && proc.born == procs[p].born && proc.mine == procs[p].mine + {|recs|}
    requires WrittenBy(run, proc) && Received(log, |recs|) == []
    ensures Owned(procs[p := proc], ids + [|recs|], recs + [run], log)
  {
    var procs' := procs[p := proc];
    forall q: nat, id: nat | Owns(procs', q, id)
      ensures id in ids + [|recs|] && id < |recs + [run]| && WrittenBy((recs + [run])[id], procs'[q])
        && Received(log, id) == []
    {
      if id != |recs| {
        assert Owns(procs, q, id);
      } else if q != p {
        assert Owns(procs, q, id);
      }
    }
  }

  /** The processes once `p` has written: it holds the lock with nothing under way. */
  lemma WriterLeaves(procs: map<nat, Process>, p: nat, proc: Process, before: Doc, doc: Doc)
    requires Locking(Some(p), procs) && Fresh(procs, before) && Honest(procs)
    requires proc.alive && proc.pid == procs[p].pid && proc.task == Leaving
    ensures Locking(Some(p), procs[p := proc]) && Fresh(procs[p := proc], doc) && Honest(procs[p := proc])
  {
    LockingHeld(procs, p, proc);
  }

  lemma RegisterKeeps(s: State, p: nat)
    requires Core(s) && Enabled(s, Commit(p)) && s.procs[p].task.job.Register?
    ensures Core(Do(s, Commit(p)))
  {
    var s' := Do(s, Commit(p));
    var proc := s'.procs[p];
    var job := s.procs[p].task.job;
    var run := Run(s.procs[p], job);
    Holder(s, p);
    assert Current(s') == Leaving;
    RegisterNames(s.ids, s.recs, s.doc, s.gone, s.swept, run, job.dir);
    RegisterSends(s.ids, s.recs, s.gone, s.swept, run, s.log, s.torn, s.procs[p].task);
    assert Owned(s'.procs, s'.ids, s'.recs, s'.log) by {
      assert WrittenBy(run, proc);
      RegisterOwns(s.procs, p, proc, s.ids, s.recs, run, s.log);
    }
    assert Locking(s'.lock, s'.procs) && Fresh(s'.procs, s'.doc) && Honest(s'.procs) by {
      WriterLeaves(s.procs, p, proc, s.doc, s'.doc);
    }
  }

  lemma Leave(ids: seq<nat>, recs: seq<Json>, runs: seq<Json>, gone: set<nat>, swept: set<nat>, verdicts: seq<bool>)
    requires Named(ids, recs, runs) && Placed(ids, gone, swept, |recs|) && |verdicts| == |ids|
    ensures var out := Set(ids) - Set(Kept(ids, verdicts));
      && Placed(Kept(ids, verdicts), gone + out, swept, |recs|)
        && Placed(Kept(ids, verdicts), gone, swept + out, |recs|)
      && (forall id :: id in out ==> exists i :: 0 <= i < |ids| && ids[i] == id && !verdicts[i])
  {
    KeptNamed(ids, recs, runs, verdicts);
    forall id | id in Set(ids) - Set(Kept(ids, verdicts))
      ensures exists i :: 0 <= i < |ids| && ids[i] == id && !verdicts[i]
    {
      var i :| 0 <= i < |ids| && ids[i] == id;
    }
  }

  lemma SpareSent(ids: seq<nat>, recs: seq<Json>, log: seq<Call>, torn: map<nat, seq<Json>>, t: Task, i: nat)
    requires SentOnDisk(ids, recs, log, torn, t) && i < |ids| && ids[i] < |recs|
    requires t.Working? && (t.verdicts == [] || (i < |t.verdicts| && t.verdicts[i]))
    ensures Received(log, ids[i]) == Lost(torn, ids[i])
  {
    assert Sent(t, i, Groups(recs[ids[i]])) == [];
  }

  /** Once the verdicts are in, a kept entry has received nothing in this critical section. */
  lemma LeavingSent(ids: seq<nat>, recs: seq<Json>, runs: seq<Json>, verdicts: seq<bool>, log: seq<Call>,
      torn: map<nat, seq<Json>>, t: Task)
    requires Named(ids, recs, runs) && |verdicts| == |ids| && SentOnDisk(ids, recs, log, torn, t)
    requires t.Working? && (t.verdicts == [] || t.verdicts == verdicts)
    ensures SentOnDisk(Kept(ids, verdicts), recs, log, torn, Leaving)
  {
    var ids' := Kept(ids, verdicts);
    KeptNamed(ids, recs, runs, verdicts);
    forall k | 0 <= k < |ids'| && ids'[k] < |recs|
      ensures Received(log, ids'[k]) == Lost(torn, ids'[k])
    {
      assert ids'[k] in ids';
      var i :| 0 <= i < |ids| && ids[i] == ids'[k];
      SpareSent(ids, recs, log, torn, t, i);
    }
  }

  /** A run that a completed sweep drops has received all its groups in that sweep. */
  lemma SweptReceived(ids: seq<nat>, recs: seq<Json>, runs: seq<Json>, log: seq<Call>, torn: map<nat, seq<Json>>,
      t: Task, gone: set<nat>, swept: set<nat>)
    requires Named(ids, recs, runs) && SentOnDisk(ids, recs, log, torn, t)
      && SentElsewhere(gone, swept, recs, log, torn)
    requires Placed(ids, gone, swept, |recs|)
    requires t.Working? && |t.verdicts| == |ids| > 0
    requires !t.verdicts[|ids| - 1] ==> t.next == |Groups(runs[|ids| - 1])|
    ensures SentElsewhere(gone, swept + (Set(ids) - Set(Kept(ids, t.verdicts))), recs, log, torn)
  {
    Leave(ids, recs, runs, gone, swept, t.verdicts);
    forall id | id in Set(ids) - Set(Kept(ids, t.verdicts)) && id < |recs|
      ensures Received(log, id) == Lost(torn, id) + Groups(recs[id])
    {
      var i: nat :| i < |ids| && ids[i] == id && !t.verdicts[i];
      SentWhole(t, i, Groups(recs[id]));
    }
  }

  lemma SentWhole(t: Task, i: nat, groups: seq<Json>)
    requires t.Working? && i < |t.verdicts| && !t.verdicts[i] && (i == |t.verdicts| - 1 ==> t.next == |groups|)
    ensures Sent(t, i, groups) == groups
  {
    assert groups[..|groups|] == groups;
  }

  /** A live process keeps its entries when only others are dropped. */
  lemma KeptOwned(procs: map<nat, Process>, p: nat, proc: Process, ids: seq<nat>, recs: seq<Json>, runs: seq<Json>,
      verdicts: seq<bool>, log: seq<Call>, procs': map<nat, Process>)
    requires Named(ids, recs, runs) && |verdicts| == |ids| && Owned(procs, ids, recs, log) && p in procs
    requires procs' == procs[p := proc]
    requires proc.pid == procs[p].pid && proc.born == procs[p].born && proc.mine <= procs[p].mine
      && proc.alive == procs[p].alive
    requires forall i: nat, q: nat :: i < |ids| && Owns(procs', q, ids[i]) ==> verdicts[i]
    ensures Owned(procs', Kept(ids, verdicts), recs, log)
  {
    KeptNamed(ids, recs, runs, verdicts);
    forall q: nat, id: nat | Owns(procs', q, id)
      ensures id in Kept(ids, verdicts) && id < |recs| && WrittenBy(recs[id], procs'[q]) && Received(log, id) == []
    {
      assert Owns(procs, q, id);
      var i :| 0 <= i < |ids| && ids[i] == id;
      assert verdicts[i];
    }
  }

  lemma UnregisterKeeps(s: State, p: nat)
    requires Core(s) && Enabled(s, Commit(p)) && s.procs[p].task.job.Unregister?
    ensures Core(Do(s, Commit(p)))
  {
    var s' := Do(s, Commit(p));
    var proc := s'.procs[p];
    var runs := Runs(s.doc);
    var verdicts := OtherPids(runs, proc.pid);
    var t := s.procs[p].task;
    Holder(s, p);
    assert Current(s') == Leaving;
    assert Runs(s'.doc) == Kept(runs, verdicts) by { SweptRuns(s.doc, verdicts); }
    KeptNamed(s.ids, s.recs, runs, verdicts);
    Leave(s.ids, s.recs, runs, s.gone, s.swept, verdicts);
    LeavingSent(s.ids, s.recs, runs, verdicts, s.log, s.torn, t);
    UnregisterSends(s.ids, s.recs, runs, s.log, s.torn, t, s.gone, s.swept, verdicts);
    assert Owned(s'.procs, s'.ids, s'.recs, s'.log) by {
      forall i: nat, q: nat | i < |s.ids| && Owns(s'.procs, q, s.ids[i]) ensures verdicts[i] {
        assert Owns(s.procs, q, s.ids[i]) && q != p;
      }
      KeptOwned(s.procs, p, proc, s.ids, s.recs, runs, verdicts, s.log, s'.procs);
    }
    assert Locking(s'.lock, s'.procs) && Fresh(s'.procs, s'.doc) && Honest(s'.procs) by {
      WriterLeaves(s.procs, p, proc, s.doc, s'.doc);
    }
  }

  lemma UnregisterSends(ids: seq<nat>, recs: seq<Json>, runs: seq<Json>, log: seq<Call>, torn: map<nat, seq<Json>>,
      t: Task, gone: set<nat>, swept: set<nat>, verdicts: seq<bool>)
    requires Named(ids, recs, runs) && SentOnDisk(ids, recs, log, torn, t)
      && SentElsewhere(gone, swept, recs, log, torn)
    requires t.Working? && t.verdicts == []
    ensures SentElsewhere(gone + (Set(ids) - Set(Kept(ids, verdicts))), swept, recs, log, torn)
  {
    forall id | id in ids ensures Received(log, id) == Lost(torn, id) {
      var i :| 0 <= i < |ids| && ids[i] == id;
      assert Sent(t, i, Groups(recs[ids[i]])) == [];
    }
  }

  lemma SweepAccounts(ids: seq<nat>, recs: seq<Json>, runs: seq<Json>, log: seq<Call>, torn: map<nat, seq<Json>>,
      t: Task, gone: set<nat>, swept: set<nat>)
    requires Named(ids, recs, runs) && SentOnDisk(ids, recs, log, torn, t)
      && SentElsewhere(gone, swept, recs, log, torn)
    requires Placed(ids, gone, swept, |recs|)
    requires t.Working? && |t.verdicts| == |ids| > 0
    requires !t.verdicts[|ids| - 1] ==> t.next == |Groups(runs[|ids| - 1])|
    ensures var ids', swept' := Kept(ids, t.verdicts), swept + (Set(ids) - Set(Kept(ids, t.verdicts)));
      && Named(ids', recs, Kept(runs, t.verdicts)) && Placed(ids', gone, swept', |recs|)
      && SentOnDisk(ids', recs, log, torn, Leaving) && SentElsewhere(gone, swept', recs, log, torn)
  {
    KeptNamed(ids, recs, runs, t.verdicts);
    Leave(ids, recs, runs, gone, swept, t.verdicts);
    LeavingSent(ids, recs, runs, t.verdicts, log, torn, t);
    SweptReceived(ids, recs, runs, log, torn, t, gone, swept);
  }

  lemma SweepReady(s: State, p: nat)
    requires Core(s) && Enabled(s, Commit(p)) && s.procs[p].task.job.Cleanup?
    ensures s.lock == Some(p) && s.procs[p].data == s.doc && Current(s) == s.procs[p].task && s.procs[p].alive
    ensures var t := s.procs[p].task;
      |t.verdicts| == |s.ids| > 0 && (!t.verdicts[|s.ids| - 1] ==> t.next == |Groups(Runs(s.doc)[|s.ids| - 1])|)
  {
  }

  lemma SweepShape(s: State, p: nat)
    requires p in s.procs && s.procs[p].task.Working? && s.procs[p].task.job.Cleanup? && s.procs[p].data == s.doc
    ensures var s', t := Do(s, Commit(p)), s.procs[p].task;
      && s'.lock == s.lock && s'.recs == s.recs && s'.log == s.log && s'.torn == s.torn && s'.gone == s.gone
      && s'.procs == s.procs[p := s.procs[p].(data := s'.doc, task := Leaving)]
      && s'.doc == Swept(s.doc, t.verdicts) && s'.ids == Kept(s.ids, t.verdicts)
      && s'.swept == s.swept + (Set(s.ids) - Set(s'.ids))
  {
  }

  lemma SweptRuns(doc: Doc, verdicts: seq<bool>)
    ensures Runs(Swept(doc, verdicts)) == Kept(Runs(doc), verdicts)
  {
  }

  lemma SweepKeeps(s: State, p: nat)
    requires Core(s) && Enabled(s, Commit(p)) && s.procs[p].task.job.Cleanup?
    ensures Core(Do(s, Commit(p)))
  {
    SweepReady(s, p);
    SweepShape(s, p);
    SweepCore(s, Do(s, Commit(p)), p, s.procs[p].task);
  }

  lemma SweepCore(s: State, s': State, p: nat, t: Task)
    requires Core(s) && s.lock == Some(p) && p in s.procs && s.procs[p].alive && s.procs[p].task == t && Current(s) == t
    requires t.Working? && |t.verdicts| == |s.ids| > 0
    requires !t.verdicts[|s.ids| - 1] ==> t.next == |Groups(Runs(s.doc)[|s.ids| - 1])|
    requires s'.lock == s.lock && s'.recs == s.recs && s'.log == s.log && s'.torn == s.torn && s'.gone == s.gone
    requires s'.procs == s.procs[p := s.procs[p].(data := s'.doc, task := Leaving)]
    requires s'.doc == Swept(s.doc, t.verdicts) && s'.ids == Kept(s.ids, t.verdicts)
    requires s'.swept == s.swept + (Set(s.ids) - Set(s'.ids))
    ensures Core(s')
  {
    var proc := s'.procs[p];
    var runs := Runs(s.doc);
    assert Current(s') == Leaving;
    assert Locking(s'.lock, s'.procs) && Fresh(s'.procs, s'.doc) && Honest(s'.procs) by {
      WriterLeaves(s.procs, p, proc, s.doc, s'.doc);
    }
    assert Owned(s'.procs, s'.ids, s'.recs, s'.log) by {
      SweepOwned(s.procs, p, proc, s.ids, s.recs, runs, t, s.log, s'.procs);
    }
    assert Runs(s'.doc) == Kept(runs, t.verdicts) by { SweptRuns(s.doc, t.verdicts); }
    SweepAccounts(s.ids, s.recs, runs, s.log, s.torn, t, s.gone, s.swept);
  }

  lemma SweepOwned(procs: map<nat, Process>, p: nat, proc: Process, ids: seq<nat>, recs: seq<Json>, runs: seq<Json>,
      t: Task, log: seq<Call>, procs': map<nat, Process>)
    requires Named(ids, recs, runs) && t.Working? && |t.verdicts| == |ids| && Owned(procs, ids, recs, log) && p in procs
    requires procs' == procs[p := proc] && Continues(proc, procs[p]) && proc.alive && Spared(procs, ids, t)
    ensures Owned(procs', Kept(ids, t.verdicts), recs, log)
  {
    forall i: nat, q: nat | i < |ids| && Owns(procs', q, ids[i]) ensures t.verdicts[i] {
      assert Owns(procs, q, ids[i]);
    }
    KeptOwned(procs, p, proc, ids, recs, runs, t.verdicts, log, procs');
  }

  lemma ReplayAppend(doc: Doc, hist: seq<Op>, op: Op)
    ensures Replay(doc, hist + [op]) == Apply(Replay(doc, hist), op)
  {
    assert (hist + [op])[..|hist|] == hist;
  }

  lemma ApplyReadsBack(doc: Doc, op: Op)
    requires ValidDoc(doc)
    requires op.DidRegister? ==> ValidRun(op.run)
    requires op.DidSweep? ==> |op.verdicts| == |Runs(doc)|
    ensures ReadDoc(Some(Obj(Apply(doc, op)))) == Apply(doc, op)
  {
    match op
    case DidRegister(run, dir) => WrittenReadsBack(doc, run, dir, 0, OtherPids(Runs(doc), 0));
    case DidUnregister(pid) => WrittenReadsBack(doc, RunRecord(0, None, "", []), "", pid, OtherPids(Runs(doc), pid));
    case DidSweep(verdicts) => WrittenReadsBack(doc, RunRecord(0, None, "", []), "", 0, verdicts);
  }

  lemma CommitReads(s: State, p: nat, first: Option<Json>)
    requires Inv(s, first) && Enabled(s, Commit(p))
    ensures var s' := Do(s, Commit(p)); s'.doc == ReadDoc(s'.file) && s'.doc == Replay(ReadDoc(first), s'.hist)
  {
    var s' := Do(s, Commit(p));
    var op := s'.hist[|s.hist|];
    assert s.procs[p].data == s.doc;
    assert s'.hist == s.hist + [op] && s'.doc == Apply(s.doc, op) && s'.file == Some(Obj(s'.doc));
    ReplayAppend(ReadDoc(first), s.hist, op);
    ReadValid(s.file);
    ApplyReadsBack(s.doc, op);
  }

  lemma StepKeepsCore(s: State, step: Step)
    requires Core(s) && s.doc == ReadDoc(s.file) && Enabled(s, step)
    ensures Core(Do(s, step))
  {
    match step
    case Start(p, pid, born) => StartKeeps(s, p, pid, born);
    case Open(_) => OutsideKeeps(s, step);
    case Begin(_, _) => OutsideKeeps(s, step);
    case GiveUp(_) => OutsideKeeps(s, step);
    case Acquire(p) => AcquireKeeps(s, p);
    case Judge(p, probe) => JudgeKeeps(s, p, probe);
    case Delete(p) => DeleteKeeps(s, p);
    case Commit(p) => CommitKeeps(s, p);
    case Release(p) => ReleaseKeeps(s, p);
    case Abort(_) => DropKeeps(s, step);
    case Die(_) => DropKeeps(s, step);
  }

  lemma CommitKeeps(s: State, p: nat)
    requires Core(s) && Enabled(s, Commit(p))
    ensures Core(Do(s, Commit(p)))
  {
    match s.procs[p].task.job
    case Register(_, _, _) => RegisterKeeps(s, p);
    case Unregister => UnregisterKeeps(s, p);
    case Cleanup => SweepKeeps(s, p);
  }

  lemma OnlyCommitsWrite(s: State, step: Step)
    requires Enabled(s, step) && !step.Commit?
    ensures var s' := Do(s, step); s'.file == s.file && s'.doc == s.doc && s'.hist == s.hist
  {
  }

  lemma StepKeeps(s: State, step: Step, first: Option<Json>)
    requires Inv(s, first) && Enabled(s, step)
    ensures Inv(Do(s, step), first)
  {
    StepKeepsCore(s, step);
    if step.Commit? { CommitReads(s, step.p, first); } else { OnlyCommitsWrite(s, step); }
  }

  lemma DropKeeps(s: State, step: Step)
    requires Core(s) && Enabled(s, step) && (step.Abort? || step.Die?)
    ensures Core(Do(s, step))
  {
    if s.lock == Some(step.p) { DropInsideKeeps(s, step); } else { DropOutsideKeeps(s, step); }
  }

  lemma {:induction false} RunKeeps(s: State, steps: seq<Step>, first: Option<Json>)
    requires Inv(s, first) && Allowed(s, steps)
    ensures Inv(After(s, steps), first)
    decreases |steps|
  {
    if steps != [] {
      StepKeeps(s, steps[0], first);
      RunKeeps(Do(s, steps[0]), steps[1..], first);
    }
  }

  lemma InitHolds(file: Option<Json>)
    ensures Inv(Init(file), file)
  {
    var s := Init(file);
    forall id: nat ensures id in s.ids <==> id < |s.recs| {
      if id < |s.recs| { assert s.ids[id] == id; }
    }
  }

  // ----- what holds of every run -----

  /** No lost update: the file reads as the completed operations applied one after another. */
  lemma Serializable(file: Option<Json>, steps: seq<Step>)
    requires Allowed(Init(file), steps)
    ensures var s := After(Init(file), steps); ReadDoc(s.file) == Replay(ReadDoc(file), s.hist)
  {
    InitHolds(file);
    RunKeeps(Init(file), steps, file);
  }

  /** `p` does not die and completes no unregister; asking for one and giving up or failing is allowed. */
  ghost predicate Stays(s: State, p: nat, steps: seq<Step>)
    requires Allowed(s, steps)
    decreases |steps|
  {
    steps == [] || (
      && steps[0] != Die(p) && (steps[0] == Commit(p) ==> !s.procs[p].task.job.Unregister?)
      && Stays(Do(s, steps[0]), p, steps[1..]))
  }

  lemma StepStays(s: State, step: Step, p: nat, id: nat)
    requires Enabled(s, step) && Owns(s.procs, p, id)
    requires step != Die(p) && (step == Commit(p) ==> !s.procs[p].task.job.Unregister?)
    ensures var s' := Do(s, step);
      Owns(s'.procs, p, id) && (id < |s.recs| ==> id < |s'.recs| && s'.recs[id] == s.recs[id])
  {
    if step.p != p && !step.Start? {
      assert Do(s, step).procs[p] == s.procs[p];
    }
  }

  lemma {:induction false} StaysMine(s: State, p: nat, id: nat, steps: seq<Step>)
    requires Allowed(s, steps) && Stays(s, p, steps) && Owns(s.procs, p, id)
    ensures Owns(After(s, steps).procs, p, id)
    ensures id < |s.recs| ==> id < |After(s, steps).recs| && After(s, steps).recs[id] == s.recs[id]
    decreases |steps|
  {
    if steps != [] {
      StepStays(s, steps[0], p, id);
      StaysMine(Do(s, steps[0]), p, id, steps[1..]);
    }
  }

  /** The `i`-th run on disk is `run`, with this identity. */
  predicate OnDiskAt(ids: seq<nat>, runs: seq<Json>, i: nat, id: nat, run: Json) {
    i < |ids| && i < |runs| && ids[i] == id && runs[i] == run
  }

  /**
   * A completed registration holds: whatever the other processes do, and whatever PIDs the
   * system hands out, the entry stays on disk and none of its groups is deleted for as long as
   * the process is alive and has completed no unregister.
   */
  lemma RegisteredRunStays(file: Option<Json>, before: seq<Step>, p: nat, after: seq<Step>)
    requires Allowed(Init(file), before)
    requires var s := After(Init(file), before);
      Enabled(s, Commit(p)) && s.procs[p].task.job.Register? && Allowed(Do(s, Commit(p)), after)
        && Stays(Do(s, Commit(p)), p, after)
    ensures var s := After(Init(file), before); var end := After(Do(s, Commit(p)), after); var id := |s.recs|;
      && Run(s.procs[p], s.procs[p].task.job) in Runs(ReadDoc(end.file))
      && |end.ids| == |Runs(ReadDoc(end.file))|
      && (exists i :: OnDiskAt(end.ids, Runs(ReadDoc(end.file)), i, id, Run(s.procs[p], s.procs[p].task.job)))
      && (forall k :: 0 <= k < |end.log| ==> end.log[k].id != id)
  {
    var s := After(Init(file), before);
    var id := |s.recs|;
    var mid := Do(s, Commit(p));
    InitHolds(file);
    RunKeeps(Init(file), before, file);
    StepKeeps(s, Commit(p), file);
    RegisteredNow(s, p);
    StaysMine(mid, p, id, after);
    RunKeeps(mid, after, file);
    OwnedOnDisk(After(mid, after), file, p, id);
  }

  lemma RegisteredNow(s: State, p: nat)
    requires Core(s) && Enabled(s, Commit(p)) && s.procs[p].task.job.Register?
    ensures var s' := Do(s, Commit(p)); var id := |s.recs|;
      && Owns(s'.procs, p, id) && id < |s'.recs| && s'.recs[id] == Run(s.procs[p], s.procs[p].task.job)
  {
  }

  lemma OwnedOnDisk(s: State, first: Option<Json>, p: nat, id: nat)
    requires Inv(s, first) && Owns(s.procs, p, id) && id < |s.recs|
    ensures s.recs[id] in Runs(ReadDoc(s.file)) && |s.ids| == |Runs(ReadDoc(s.file))|
    ensures exists i :: OnDiskAt(s.ids, Runs(ReadDoc(s.file)), i, id, s.recs[id])
    ensures forall k :: 0 <= k < |s.log| ==> s.log[k].id != id
  {
    var i :| 0 <= i < |s.ids| && s.ids[i] == id;
    assert OnDiskAt(s.ids, Runs(s.doc), i, id, s.recs[id]);
    NothingReceived(s.log, id);
  }

  lemma {:induction false} NothingReceived(log: seq<Call>, id: nat)
    ensures Received(log, id) == [] <==> forall k :: 0 <= k < |log| ==> log[k].id != id
  {
    if log != [] {
      NothingReceived(log[..|log| - 1], id);
      assert log == log[..|log| - 1] + [log[|log| - 1]];
    }
  }

  /**
   * Conservation: every entry that was ever on disk is still there, or was unregistered, or was
   * swept, and in one of these places only. A swept one has been delivered to `delete_fn` group
   * by group, in order, after whatever interrupted sweeps delivered; the others have received
   * only the latter, once no critical section is open.
   */
  lemma EveryEntryAccounted(file: Option<Json>, steps: seq<Step>, id: nat)
    requires Allowed(Init(file), steps) && id < |After(Init(file), steps).recs|
    ensures var s := After(Init(file), steps); var lost := Lost(s.torn, id);
      && (id in s.ids || id in s.gone || id in s.swept)
      && !(id in s.ids && id in s.gone) && !(id in s.ids && id in s.swept) && !(id in s.gone && id in s.swept)
      && (id in s.swept ==> Received(s.log, id) == lost + Groups(s.recs[id]))
      && (id in s.gone || (id in s.ids && s.lock.None?) ==> Received(s.log, id) == lost)
  {
    InitHolds(file);
    RunKeeps(Init(file), steps, file);
    var s := After(Init(file), steps);
    if id in s.ids {
      var i :| 0 <= i < |s.ids| && s.ids[i] == id;
    }
  }

  /** No process leaves a sweep by dying or by an exception. */
  ghost predicate SweepsFinish(s: State, steps: seq<Step>)
    requires Allowed(s, steps)
    decreases |steps|
  {
    steps == [] || (
      && (steps[0].Abort? || steps[0].Die? ==> !Sweeping(s.procs[steps[0].p]))
      && SweepsFinish(Do(s, steps[0]), steps[1..]))
  }

  lemma OnlyDropsTear(s: State, step: Step)
    requires Enabled(s, step)
    ensures Do(s, step).torn == if step.Abort? || step.Die? then Drop(s, step.p).torn else s.torn
  {
  }

  /** A critical section that is not a sweep has delivered nothing. */
  lemma NothingSent(t: Task, ids: seq<nat>, recs: seq<Json>, runs: seq<Json>, log: seq<Call>,
      torn: map<nat, seq<Json>>, id: nat)
    requires SentOnDisk(ids, recs, log, torn, t) && Named(ids, recs, runs) && Positioned(t, runs)
    requires (t.Working? ==> !t.job.Cleanup?) && id in ids
    ensures Received(log, id) == Lost(torn, id)
  {
    var i: nat :| i < |ids| && ids[i] == id;
    assert Sent(t, i, Groups(recs[id])) == [];
  }

  lemma FinishedStep(s: State, step: Step, id: nat)
    requires Core(s) && Enabled(s, step) && Lost(s.torn, id) == []
    requires step.Abort? || step.Die? ==> !Sweeping(s.procs[step.p])
    ensures Lost(Do(s, step).torn, id) == []
  {
    OnlyDropsTear(s, step);
    if (step.Abort? || step.Die?) && s.lock == Some(step.p) && id in s.ids {
      NothingSent(Current(s), s.ids, s.recs, Runs(s.doc), s.log, s.torn, id);
    }
  }

  lemma {:induction false} FinishedSweepsLoseNothing(s: State, steps: seq<Step>, first: Option<Json>, id: nat)
    requires Inv(s, first) && Allowed(s, steps) && SweepsFinish(s, steps) && Lost(s.torn, id) == []
    ensures Lost(After(s, steps).torn, id) == []
    decreases |steps|
  {
    if steps != [] {
      FinishedStep(s, steps[0], id);
      StepKeeps(s, steps[0], first);
      FinishedSweepsLoseNothing(Do(s, steps[0]), steps[1..], first, id);
    }
  }

  /** With no sweep cut short, a swept run has had each of its groups deleted once, and no other run any. */
  lemma ExactlyOnce(file: Option<Json>, steps: seq<Step>, id: nat)
    requires Allowed(Init(file), steps) && SweepsFinish(Init(file), steps)
    requires id < |After(Init(file), steps).recs| && After(Init(file), steps).lock.None?
    ensures var s := After(Init(file), steps);
      Received(s.log, id) == if id in s.swept then Groups(s.recs[id]) else []
  {
    InitHolds(file);
    FinishedSweepsLoseNothing(Init(file), steps, file, id);
    EveryEntryAccounted(file, steps, id);
    var groups := Groups(After(Init(file), steps).recs[id]);
    assert [] + groups == groups;
  }

  /** The task has judged run `i` dead and handed over a group of it. */
  predicate Delivering(t: Task, i: nat, groups: seq<Json>) {
    && t.Working? && i < |t.verdicts| && !t.verdicts[i] && groups != []
    && (i == |t.verdicts| - 1 ==> t.next > 0)
  }

  /** The step is a death or an exception inside a sweep that has handed over a group of entry `id`. */
  ghost predicate CutsShort(s: State, step: Step, id: nat) {
    && (step.Abort? || step.Die?) && s.lock == Some(step.p) && step.p in s.procs && id < |s.recs|
    && exists i: nat :: i < |s.ids| && s.ids[i] == id && Delivering(s.procs[step.p].task, i, Groups(s.recs[id]))
  }

  ghost predicate NeverCutShort(s: State, steps: seq<Step>, id: nat)
    requires Allowed(s, steps)
    decreases |steps|
  {
    steps == [] || (!CutsShort(s, steps[0], id) && NeverCutShort(Do(s, steps[0]), steps[1..], id))
  }

  lemma SentIff(t: Task, i: nat, groups: seq<Json>)
    ensures Sent(t, i, groups) != [] <==> Delivering(t, i, groups)
  {
  }

  /** Freeing the lock writes off what was delivered in the critical section. */
  lemma DropWritesOff(ids: seq<nat>, recs: seq<Json>, log: seq<Call>, torn: map<nat, seq<Json>>, t: Task, i: nat)
    requires SentOnDisk(ids, recs, log, torn, t) && i < |ids| && ids[i] < |recs|
    ensures Lost(WrittenOff(ids, log, torn), ids[i]) == Lost(torn, ids[i]) + Sent(t, i, Groups(recs[ids[i]]))
  {
    assert ids[i] in ids;
  }

  lemma CutStep(s: State, step: Step, id: nat)
    requires Core(s) && Enabled(s, step)
    ensures Lost(Do(s, step).torn, id) == [] <==> Lost(s.torn, id) == [] && !CutsShort(s, step, id)
  {
    OnlyDropsTear(s, step);
    if (step.Abort? || step.Die?) && s.lock == Some(step.p) { CutDrop(s, step, id); }
  }

  lemma CutDrop(s: State, step: Step, id: nat)
    requires Core(s) && (step.Abort? || step.Die?) && s.lock == Some(step.p) && step.p in s.procs
    ensures Lost(Drop(s, step.p).torn, id) == [] <==> Lost(s.torn, id) == [] && !CutsShort(s, step, id)
  {
    assert Drop(s, step.p).torn == WrittenOff(s.ids, s.log, s.torn);
    if id in s.ids {
      var i: nat :| i < |s.ids| && s.ids[i] == id;
      CutEntry(s, step, i);
    }
  }

  lemma CutEntry(s: State, step: Step, i: nat)
    requires Core(s) && (step.Abort? || step.Die?) && s.lock == Some(step.p) && step.p in s.procs && i < |s.ids|
    ensures s.ids[i] < |s.recs|
    ensures Lost(WrittenOff(s.ids, s.log, s.torn), s.ids[i]) == [] <==>
      Lost(s.torn, s.ids[i]) == [] && !CutsShort(s, step, s.ids[i])
  {
    var t, groups := s.procs[step.p].task, Groups(s.recs[s.ids[i]]);
    assert Current(s) == t;
    DropWritesOff(s.ids, s.recs, s.log, s.torn, t, i);
    SentIff(t, i, groups);
    assert forall j: nat :: j < |s.ids| && s.ids[j] == s.ids[i] ==> j == i;
  }

  lemma {:induction false} LostIff(s: State, steps: seq<Step>, first: Option<Json>, id: nat)
    requires Inv(s, first) && Allowed(s, steps)
    ensures Lost(After(s, steps).torn, id) == [] <==> Lost(s.torn, id) == [] && NeverCutShort(s, steps, id)
    decreases |steps|
  {
    if steps != [] {
      CutStep(s, steps[0], id);
      StepKeeps(s, steps[0], first);
      LostIff(Do(s, steps[0]), steps[1..], first, id);
    }
  }

  /**
   * Exactly once, exactly when: a swept run has had each of its groups deleted once, and any other
   * run none, if and only if no process died or failed in a sweep that had delivered a group of it.
   */
  lemma ExactlyOnceIff(file: Option<Json>, steps: seq<Step>, id: nat)
    requires Allowed(Init(file), steps)
    requires id < |After(Init(file), steps).recs| && After(Init(file), steps).lock.None?
    ensures var s := After(Init(file), steps);
      Received(s.log, id) == (if id in s.swept then Groups(s.recs[id]) else []) <==>
        NeverCutShort(Init(file), steps, id)
  {
    InitHolds(file);
    LostIff(Init(file), steps, file, id);
    EveryEntryAccounted(file, steps, id);
    var s := After(Init(file), steps);
    OnlyAddition(Lost(s.torn, id), if id in s.swept then Groups(s.recs[id]) else []);
  }

  lemma OnlyAddition<T>(a: seq<T>, b: seq<T>)
    ensures a + b == b <==> a == []
  {
    if a + b == b { assert |a + b| == |a| + |b|; }
  }

  lemma {:induction false} AfterAppend(s: State, steps: seq<Step>, more: seq<Step>)
    requires Allowed(s, steps) && Allowed(After(s, steps), more)
    ensures Allowed(s, steps + more) && After(s, steps + more) == After(After(s, steps), more)
    decreases |steps|
  {
    if steps == [] {
      assert steps + more == more;
    } else {
      assert (steps + more)[1..] == steps[1..] + more;
      AfterAppend(Do(s, steps[0]), steps[1..], more);
    }
  }

  lemma OneStep(s: State, step: Step, next: State)
    requires Enabled(s, step) && Do(s, step) == next
    ensures Allowed(s, [step]) && After(s, [step]) == next
  {
    assert [step][1..] == [];
    assert Allowed(next, []) && After(next, []) == next;
  }

  lemma OneMore(s: State, steps: seq<Step>, step: Step, last: State)
    requires Allowed(s, steps) && Enabled(After(s, steps), step) && Do(After(s, steps), step) == last
    ensures Allowed(s, steps + [step]) && After(s, steps + [step]) == last
  {
    OneStep(After(s, steps), step, last);
    AfterAppend(s, steps, [step]);
  }

  lemma StepGivesNew(s: State, step: Step, p: nat, id: nat)
    requires Enabled(s, step) && Owns(Do(s, step).procs, p, id) && id < |s.recs|
    ensures Owns(s.procs, p, id)
  {
    if step.p != p && !step.Start? {
      assert Do(s, step).procs[p] == s.procs[p];
    }
  }

  lemma StepRecs(s: State, step: Step)
    requires Enabled(s, step)
    ensures s.recs <= Do(s, step).recs
  {
  }

  lemma {:induction false} RecsStay(s: State, steps: seq<Step>)
    requires Allowed(s, steps)
    ensures s.recs <= After(s, steps).recs
    decreases |steps|
  {
    if steps != [] {
      StepRecs(s, steps[0]);
      RecsStay(Do(s, steps[0]), steps[1..]);
    }
  }

  lemma JustRegistered(s: State, p: nat)
    requires Core(s) && Enabled(s, Commit(p)) && s.procs[p].task.job.Register?
    ensures var s', id, job := Do(s, Commit(p)), |s.recs|, s.procs[p].task.job;
      && Lost(s'.torn, id) == [] && id < |s'.recs|
      && Describes(s'.recs[id], s.procs[p].pid, job.created, job.dir, job.groups)
  {
    var job := s.procs[p].task.job;
    RegisteredExact(s.doc, s.procs[p].pid, job.created, job.dir, job.groups);
  }

  lemma GroupsDescribed(run: Json, pid: int, created: Option<real>, dir: string, groups: seq<Group>)
    requires Describes(run, pid, created, dir, groups)
    ensures AreEntriesOf(Groups(run), groups)
  {
  }

  /**
   * From registration to deletion: the entry on record says what its job said, for good. Once it
   * has been swept, `delete_fn` has received one entry per group of the job, in order, if and only
   * if no process died or failed in a sweep that had delivered a group of it.
   */
  lemma RegisteredThenSwept(file: Option<Json>, before: seq<Step>, p: nat, after: seq<Step>)
    requires Allowed(Init(file), before)
    requires var s := After(Init(file), before);
      Enabled(s, Commit(p)) && s.procs[p].task.job.Register? && Allowed(Do(s, Commit(p)), after)
    ensures var s := After(Init(file), before); var proc, id := s.procs[p], |s.recs|;
      var mid := Do(s, Commit(p)); var end := After(mid, after);
      && id < |end.recs|
      && Describes(end.recs[id], proc.pid, proc.task.job.created, proc.task.job.dir, proc.task.job.groups)
      && (id in end.swept ==>
        (AreEntriesOf(Received(end.log, id), proc.task.job.groups) <==> NeverCutShort(mid, after, id)))
  {
    var s := After(Init(file), before);
    var job, id, mid := s.procs[p].task.job, |s.recs|, Do(s, Commit(p));
    var end := After(mid, after);
    InitHolds(file);
    RunKeeps(Init(file), before, file);
    JustRegistered(s, p);
    StepKeeps(s, Commit(p), file);
    RecsStay(mid, after);
    RunKeeps(mid, after, file);
    LostIff(mid, after, file, id);
    GroupsDescribed(end.recs[id], s.procs[p].pid, job.created, job.dir, job.groups);
    if id in end.swept { OnlyAddition(Lost(end.torn, id), Groups(end.recs[id])); }
  }

  /** Whoever owns an entry later on that was on record before owned it before. */
  lemma {:induction false} OwnedBefore(s: State, steps: seq<Step>, p: nat, id: nat)
    requires Allowed(s, steps) && Owns(After(s, steps).procs, p, id) && id < |s.recs|
    ensures Owns(s.procs, p, id)
    decreases |steps|
  {
    if steps != [] {
      StepRecs(s, steps[0]);
      OwnedBefore(Do(s, steps[0]), steps[1..], p, id);
      StepGivesNew(s, steps[0], p, id);
    }
  }

  /** The process may be the one recorded, as far as its creation time tells. */
  predicate SameStart(born: real, recorded: Json) {
    match recorded
    case Float(t) => -1.0 < born - t < 1.0
    case Int(t) => -1.0 < born - t as real < 1.0
    case Bool(b) => -1.0 < born - (if b then 1.0 else 0.0) < 1.0
    case _ => true
  }

  /** Some live process holds the PID of the run, and nothing shows that it is a later one. */
  ghost predicate Occupied(s: State, run: Json, pid: int, probe: Probe) {
    exists q :: Is(s, q) && s.procs[q].pid == pid &&
      (probe.signal.NotPermitted? || probe.created.None? || SameStart(s.procs[q].born, Field(run, "create_time")))
  }

  /** The verdict on a run with a positive PID, in terms of the processes alive at that moment. */
  lemma VerdictIff(s: State, run: Json, pid: int, probe: Probe)
    requires EqualsInt(Field(run, "pid"), pid) && pid > 0 && Truthful(s, Int(pid), probe)
    ensures Survives(run, probe) <==> Occupied(s, run, pid, probe)
  {
  }

  /** Zero and negative PIDs name no process: for them the answers of the system are taken as they come. */
  predicate Answered(run: Json, probe: Probe) {
    match probe.signal
    case NoSuchProcess => false
    case NotPermitted => true
    case Delivered => probe.created.None? || SameStart(probe.created.value, Field(run, "create_time"))
  }

  lemma VerdictOtherwise(run: Json, pid: int, probe: Probe)
    ensures EqualsInt(Field(run, "pid"), pid) && pid <= 0 ==> (Survives(run, probe) <==> Answered(run, probe))
    ensures Field(run, "pid") == Null ==> !Survives(run, probe)
  {
  }

  lemma LeaveOne(ids: seq<nat>, recs: seq<Json>, runs: seq<Json>, verdicts: seq<bool>, swept: set<nat>, i: nat)
    requires Named(ids, recs, runs) && |verdicts| == |ids| && i < |ids| && ids[i] !in swept
    ensures ids[i] in Kept(ids, verdicts) <==> verdicts[i]
    ensures ids[i] in swept + (Set(ids) - Set(Kept(ids, verdicts))) <==> !verdicts[i]
  {
    KeptNamed(ids, recs, runs, verdicts);
    assert ids[i] in ids;
  }

  lemma Unswept(s: State, i: nat)
    requires Core(s) && i < |s.ids|
    ensures s.ids[i] !in s.swept && Named(s.ids, s.recs, Runs(s.doc))
  {
    assert s.ids[i] in s.ids;
  }

  /** A sweep that completes takes off the disk exactly the entries judged dead. */
  lemma SweepTakesTheDead(s: State, p: nat, verdicts: seq<bool>, i: nat)
    requires Core(s) && Enabled(s, Commit(p)) && s.procs[p].task.job.Cleanup?
    requires verdicts == s.procs[p].task.verdicts && i < |s.ids|
    ensures |verdicts| == |s.ids|
    ensures s.ids[i] in Do(s, Commit(p)).ids <==> verdicts[i]
    ensures s.ids[i] in Do(s, Commit(p)).swept <==> !verdicts[i]
  {
    SweepReady(s, p);
    SweepShape(s, p);
    Unswept(s, i);
    LeaveOne(s.ids, s.recs, Runs(s.doc), verdicts, s.swept, i);
  }

  /** A file that says `"runs": null` is never written again: no operation on it completes. */
  lemma {:induction false} NullRunsStuck(s: State, steps: seq<Step>, first: Option<Json>)
    requires Inv(s, first) && Allowed(s, steps) && NullRuns(s.doc)
    ensures After(s, steps).file == s.file && After(s, steps).hist == s.hist
    decreases |steps|
  {
    if steps != [] {
      StepKeeps(s, steps[0], first);
      NullRunsStuck(Do(s, steps[0]), steps[1..], first);
    }
  }
}
