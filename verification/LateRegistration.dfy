/** A run of the manifest protocol in which a run is registered after `belt gc` has read the manifest. */
module LateRegistration {
  import opened Prelude
  import opened Json
  import opened ManifestDoc
  import opened ManifestProtocol
  import Retention

  function Job(dir: string): ManifestProtocol.Job { Register(None, [], dir) }

  /** A process starts and registers a run in this directory. */
  function Registering(pid: int, dir: string): seq<Step> {
    [Start(0, pid, 0.0), Begin(0, Job(dir)), Acquire(0), Commit(0)]
  }

  function Registrar(pid: int, task: Task): Process { Process(pid, 0.0, true, map[], task, {}) }

  /** No file yet: nothing is read, and the process has reached this task. */
  function Empty(pid: int, task: Task, lock: Option<nat>): State {
    State(None, map[], lock, map[0 := Registrar(pid, task)], [], [], [], [], map[], {}, {})
  }

  lemma ReachesLock(pid: int, dir: string)
    ensures var steps := [Start(0, pid, 0.0), Begin(0, Job(dir)), Acquire(0)];
      Allowed(Init(None), steps) && After(Init(None), steps) == Empty(pid, Working(Job(dir), [], 0), Some(0))
  {
    var s := Init(None);
    var s1, s2 := Empty(pid, Idle, None), Empty(pid, Waiting(Job(dir)), None);
    assert s.ids == [] && s.recs == [];
    assert map[][0 := Registrar(pid, Idle)] == map[0 := Registrar(pid, Idle)];
    assert Do(s, Start(0, pid, 0.0)) == s1;
    OneStep(s, Start(0, pid, 0.0), s1);
    assert map[0 := Registrar(pid, Idle)][0 := Registrar(pid, Waiting(Job(dir)))] ==
      map[0 := Registrar(pid, Waiting(Job(dir)))];
    assert Do(s1, Begin(0, Job(dir))) == s2;
    OneMore(s, [Start(0, pid, 0.0)], Begin(0, Job(dir)), s2);
    var t := Working(Job(dir), [], 0);
    assert map[0 := Registrar(pid, Waiting(Job(dir)))][0 := Registrar(pid, t)] == map[0 := Registrar(pid, t)];
    assert Do(s2, Acquire(0)) == Empty(pid, t, Some(0));
    OneMore(s, [Start(0, pid, 0.0)] + [Begin(0, Job(dir))], Acquire(0), Empty(pid, t, Some(0)));
    assert [Start(0, pid, 0.0)] + [Begin(0, Job(dir))] + [Acquire(0)] ==
      [Start(0, pid, 0.0), Begin(0, Job(dir)), Acquire(0)];
  }

  /**
   * The manifest is read before the registration and holds no run, so a plan that keeps none
   * deletes the directory of a run that is registered and alive by then.
   */
  lemma RegisteredAfterRead(pid: int, dir: string, mtime: real, resolve: string -> string)
    ensures Runs(ReadDoc(Init(None).file)) == []
    ensures Allowed(Init(None), Registering(pid, dir))
    ensures var s := After(Init(None), Registering(pid, dir));
      Owns(s.procs, 0, 0) && s.ids == [0] && |s.recs| == 1 && Field(s.recs[0], "run_dir") == Str(dir)
    ensures var d := Retention.RunDir(dir, resolve(dir), mtime); var sorted := Retention.NewestFirst([d]);
      d in Retention.Select(sorted, |sorted|, Retention.Policy({}, Some(0), None), true)
  {
    var steps := [Start(0, pid, 0.0), Begin(0, Job(dir)), Acquire(0)];
    ReachesLock(pid, dir);
    var held := Empty(pid, Working(Job(dir), [], 0), Some(0));
    OneMore(Init(None), steps, Commit(0), Do(held, Commit(0)));
    assert steps + [Commit(0)] == Registering(pid, dir);
    var d := Retention.RunDir(dir, resolve(dir), mtime);
    Retention.NewestUnregisteredDeletedIff([d], Retention.Policy({}, Some(0), None), d);
  }
}
