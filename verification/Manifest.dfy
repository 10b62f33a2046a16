/**
 * The `Manifest` object: a shared file and a private copy of it that goes stale
 * between operations. Each method is proved against the functions of ManifestDoc,
 * applied to what is on disk rather than to the stale copy.
 */
module Manifest {
  import opened Prelude
  import opened Json
  import opened ManifestDoc

  /** `.manifest.json` with the `.lock` file beside it. */
  class ManifestFile {
    var content: Option<Json>
    var locked: bool

    constructor (content: Option<Json>)
      ensures this.content == content && !locked
    {
      this.content, locked := content, false;
    }
  }

  /** The entries handed to `delete_fn`: all groups of the runs judged dead, in order. */
  function DeadEntries(runs: seq<Json>, verdicts: seq<bool>): seq<Json>
    requires |verdicts| == |runs|
  {
    if runs == [] then []
    else (if verdicts[0] then [] else Groups(runs[0])) + DeadEntries(runs[1..], verdicts[1..])
  }

  /** The calls of `delete_fn` that returned rather than raised. */
  function Returned(calls: seq<Json>, deletes: nat -> bool): set<nat> {
    set k: nat | k < |calls| && deletes(k)
  }

  function Verdicts(runs: seq<Json>, probes: nat -> Probe): (verdicts: seq<bool>)
    ensures |verdicts| == |runs|
  {
    seq(|runs|, i requires 0 <= i < |runs| => Survives(runs[i], probes(i)))
  }

  lemma DeadEntriesCons(run: Json, runs: seq<Json>, verdict: bool, verdicts: seq<bool>)
    requires |verdicts| == |runs|
    ensures DeadEntries([run] + runs, [verdict] + verdicts) ==
      (if verdict then [] else Groups(run)) + DeadEntries(runs, verdicts)
  {
    assert ([run] + runs)[1..] == runs && ([verdict] + verdicts)[1..] == verdicts;
  }

  lemma DeadEntriesNext(first: Json, runs: seq<Json>, firstVerdict: bool, verdicts: seq<bool>, run: Json, verdict: bool)
    requires |verdicts| == |runs|
    requires DeadEntries(runs + [run], verdicts + [verdict])
          == DeadEntries(runs, verdicts) + (if verdict then [] else Groups(run))
    ensures DeadEntries([first] + (runs + [run]), [firstVerdict] + (verdicts + [verdict]))
         == DeadEntries([first] + runs, [firstVerdict] + verdicts) + (if verdict then [] else Groups(run))
  {
    DeadEntriesCons(first, runs, firstVerdict, verdicts);
    DeadEntriesCons(first, runs + [run], firstVerdict, verdicts + [verdict]);
    var own, more := if firstVerdict then [] else Groups(first), if verdict then [] else Groups(run);
    Regroup(own, DeadEntries(runs, verdicts), more);
  }

  lemma {:induction false} DeadEntriesAppend(runs: seq<Json>, verdicts: seq<bool>, run: Json, verdict: bool)
    requires |verdicts| == |runs|
    ensures DeadEntries(runs + [run], verdicts + [verdict])
         == DeadEntries(runs, verdicts) + (if verdict then [] else Groups(run))
  {
    if runs == [] {
      assert runs + [run] == [run] + [] && verdicts + [verdict] == [verdict] + [];
      DeadEntriesCons(run, [], verdict, []);
      assert DeadEntries([], []) == [];
    } else {
      var runs', verdicts' := runs[1..], verdicts[1..];
      DeadEntriesAppend(runs', verdicts', run, verdict);
      DeadEntriesNext(runs[0], runs', verdicts[0], verdicts', run, verdict);
      Regroup([runs[0]], runs', [run]);
      Regroup([verdicts[0]], verdicts', [verdict]);
      assert runs == [runs[0]] + runs' && verdicts == [verdicts[0]] + verdicts';
    }
  }

  lemma {:induction false} KeptAppend<T>(xs: seq<T>, verdicts: seq<bool>, x: T, verdict: bool)
    requires |verdicts| == |xs|
    ensures Kept(xs + [x], verdicts + [verdict]) == Kept(xs, verdicts) + (if verdict then [x] else [])
  {
    var xs', verdicts' := xs + [x], verdicts + [verdict];
    if xs == [] {
      assert xs'[1..] == [] && verdicts'[1..] == [];
    } else {
      assert xs'[1..] == xs[1..] + [x] && verdicts'[1..] == verdicts[1..] + [verdict];
      KeptAppend(xs[1..], verdicts[1..], x, verdict);
    }
  }

  lemma {:induction false} CleanRunsAppend(runs: seq<Json>, run: Json)
    ensures CleanRuns(runs + [run])
         == CleanRuns(runs) + (match CleanRun(run) case None => [] case Some(r) => [r])
  {
    if runs == [] {
      assert (runs + [run])[1..] == [];
    } else {
      assert (runs + [run])[1..] == runs[1..] + [run];
      CleanRunsAppend(runs[1..], run);
    }
  }

  class Manifest {
    const file: ManifestFile
    var data: Doc

    constructor (file: ManifestFile)
      ensures this.file == file && data == ReadDoc(file.content) && ValidDoc(data)
    {
      this.file := file;
      new;
      data := Read(file.content);
      ReadValid(file.content);
    }

    static method Read(content: Option<Json>) returns (doc: Doc)
      ensures doc == ReadDoc(content) && ValidDoc(doc)
    {
      ReadValid(content);
      if content.None? { return map[]; }
      doc := Clean(content.value);
    }

    /** `_validate`, with its loop over `runs`. */
    static method Clean(value: Json) returns (doc: Doc)
      ensures doc == Validate(value)
    {
      if !value.Obj? { return map[]; }
      var runs := Get(value.fields, "runs");
      if runs.Null? { return value.fields; }
      if !runs.List? { return value.fields - {"runs"}; }
      var cleanRuns: seq<Json> := [];
      for i := 0 to |runs.elems|
        invariant cleanRuns == CleanRuns(runs.elems[..i])
      {
        var run := CleanRun(runs.elems[i]);
        CleanRunsAppend(runs.elems[..i], runs.elems[i]);
        assert runs.elems[..i + 1] == runs.elems[..i] + [runs.elems[i]];
        if run.Some? { cleanRuns := cleanRuns + [run.value]; }
      }
      assert runs.elems[..|runs.elems|] == runs.elems;
      doc := value.fields["runs" := List(cleanRuns)];
    }

    /** Enter `_locked`: take the lock, then forget the stale copy. */
    method Lock()
      requires !file.locked
      modifies this, file`locked
      ensures file.locked && data == ReadDoc(file.content) && ValidDoc(data)
    {
      file.locked := true;
      data := Read(file.content);
    }

    /** Raises, with nothing written, exactly when the file says `"runs": null`. */
    method RegisterRun(pid: int, created: Option<real>, groups: seq<Group>, dir: string) returns (raised: bool)
      requires !file.locked
      modifies this, file
      ensures !file.locked
      ensures raised <==> NullRuns(ReadDoc(old(file.content)))
      ensures raised ==> file.content == old(file.content)
      ensures !raised ==>
        && data == Registered(ReadDoc(old(file.content)), RunRecord(pid, created, dir, groups), dir)
        && file.content == Some(Obj(data)) && ReadDoc(file.content) == data
      ensures !raised ==>
        exists run :: Describes(run, pid, created, dir, groups)
          && OnlyRunsDiffer(ReadDoc(old(file.content)), data, Runs(ReadDoc(old(file.content))) + [run])
      ensures !raised ==> "latest_run" in data && data["latest_run"] == Str(dir)
    {
      Lock();
      RegisteredExact(data, pid, created, dir, groups);
      data := data["latest_run" := Str(dir)];
      raised := NullRuns(data);
      if !raised {
        var entries: seq<Json> := [];
        for i := 0 to |groups|
          invariant |entries| == i && forall k :: 0 <= k < i ==> entries[k] == Entry(groups[k])
        {
          entries := entries + [Entry(groups[i])];
        }
        var run := Obj(map[
          "pid" := Int(pid),
          "create_time" := if created.Some? then Float(created.value) else Null,
          "run_dir" := Str(dir),
          "groups" := List(entries)]);
        assert entries == Entries(groups);
        assert run == RunRecord(pid, created, dir, groups);
        data := data["runs" := List(Runs(data) + [run])];
        ValidDocUnchanged(data);
        file.content := Some(Obj(data));
      }
      file.locked := false;
    }

    /** Removes every entry with this PID, whoever wrote it, and nothing else. */
    method UnregisterRun(pid: int) returns (raised: bool)
      requires !file.locked
      modifies this, file
      ensures !file.locked
      ensures raised <==> NullRuns(ReadDoc(old(file.content)))
      ensures raised ==> file.content == old(file.content)
      ensures !raised ==>
        && data == Unregistered(ReadDoc(old(file.content)), pid)
        && file.content == Some(Obj(data)) && ReadDoc(file.content) == data
      ensures !raised ==>
        && OthersOf(Runs(data), Runs(ReadDoc(old(file.content))), pid)
        && data - {"runs"} == ReadDoc(old(file.content)) - {"runs"}
    {
      Lock();
      UnregisteredExact(data, pid);
      raised := NullRuns(data);
      if !raised {
        KeptSpec(Runs(data), OtherPids(Runs(data), pid));
        data := data["runs" := List(Kept(Runs(data), OtherPids(Runs(data), pid)))];
        if data["runs"].elems == [] {
          data := data - {"runs"};
        }
        ValidDocUnchanged(data);
        file.content := Some(Obj(data));
      }
      file.locked := false;
    }

    /** The inner loop of `cleanup_orphans`: an exception from the callback is logged and passed over. */
    static method DeleteGroups(entries: seq<Json>, deletes: nat -> bool, deleted: nat, calls: seq<Json>)
        returns (deleted': nat, calls': seq<Json>)
      requires deleted == |Returned(calls, deletes)|
      ensures calls' == calls + entries
      ensures deleted' == |Returned(calls', deletes)|
    {
      deleted', calls' := deleted, calls;
      for j := 0 to |entries|
        invariant calls' == calls + entries[..j]
        invariant deleted' == |Returned(calls', deletes)|
      {
        var k := |calls'|;
        assert Returned(calls' + [entries[j]], deletes)
            == Returned(calls', deletes) + (if deletes(k) then {k} else {});
        calls' := calls' + [entries[j]];
        if deletes(k) { deleted' := deleted' + 1; }
      }
    }

    /** The loop body of `cleanup_orphans` for one run. */
    static method SweepRun(run: Json, probe: Probe, deletes: nat -> bool, liveRuns: seq<Json>, deleted: nat,
        calls: seq<Json>)
        returns (liveRuns': seq<Json>, deleted': nat, calls': seq<Json>)
      requires deleted == |Returned(calls, deletes)|
      ensures liveRuns' == liveRuns + (if Survives(run, probe) then [run] else [])
      ensures calls' == calls + (if Survives(run, probe) then [] else Groups(run))
      ensures deleted' == |Returned(calls', deletes)|
    {
      liveRuns', deleted', calls' := liveRuns, deleted, calls;
      if Survives(run, probe) {
        liveRuns' := liveRuns' + [run];
      } else {
        deleted', calls' := DeleteGroups(Groups(run), deletes, deleted, calls);
      }
    }

    /** The loop itself: the runs that stay and the calls made for the others. */
    static method SweepRuns(runs: seq<Json>, probes: nat -> Probe, deletes: nat -> bool)
        returns (liveRuns: seq<Json>, deleted: nat, calls: seq<Json>)
      ensures liveRuns == Kept(runs, Verdicts(runs, probes)) && calls == DeadEntries(runs, Verdicts(runs, probes))
      ensures deleted == |Returned(calls, deletes)|
    {
      ghost var verdicts := Verdicts(runs, probes);
      liveRuns, deleted, calls := [], 0, [];
      for i := 0 to |runs|
        invariant liveRuns == Kept(runs[..i], verdicts[..i])
        invariant calls == DeadEntries(runs[..i], verdicts[..i])
        invariant deleted == |Returned(calls, deletes)|
      {
        assert runs[..i + 1] == runs[..i] + [runs[i]] && verdicts[..i + 1] == verdicts[..i] + [verdicts[i]];
        KeptAppend(runs[..i], verdicts[..i], runs[i], verdicts[i]);
        DeadEntriesAppend(runs[..i], verdicts[..i], runs[i], verdicts[i]);
        liveRuns, deleted, calls := SweepRun(runs[i], probes(i), deletes, liveRuns, deleted, calls);
      }
      assert runs[..|runs|] == runs && verdicts[..|runs|] == verdicts;
    }

    /**
     * `probes(i)` is what the operating system says about the i-th run when the loop reaches it;
     * `deletes(k)` tells whether the k-th call of `delete_fn` returns rather than raises. `calls`
     * records the arguments of those calls.
     */
    method CleanupOrphans(probes: nat -> Probe, deletes: nat -> bool) returns (deleted: nat, calls: seq<Json>)
      requires !file.locked
      modifies this, file
      ensures !file.locked && ValidDoc(ReadDoc(old(file.content)))
      ensures var doc := ReadDoc(old(file.content)); var verdicts := Verdicts(Runs(doc), probes);
        && calls == DeadEntries(Runs(doc), verdicts)
        && deleted == |Returned(calls, deletes)|
        && (Runs(doc) == [] ==> data == doc && file.content == old(file.content))
        && (Runs(doc) != [] ==> data == Swept(doc, verdicts) && file.content == Some(Obj(data)))
        && ReadDoc(file.content) == data
      ensures data - {"runs"} == ReadDoc(old(file.content)) - {"runs"}
    {
      Lock();
      var runs := Runs(data);
      deleted, calls := 0, [];
      if runs == [] {
        file.locked := false;
        return;
      }
      ghost var doc := data;
      var liveRuns: seq<Json>;
      liveRuns, deleted, calls := SweepRuns(runs, probes, deletes);
      data := data["runs" := List(liveRuns)];
      if liveRuns == [] {
        data := data - {"runs"};
      }
      assert data == Swept(doc, Verdicts(runs, probes));
      WrittenReadsBack(doc, runs[0], "", 0, Verdicts(runs, probes));
      SweptExact(doc, Verdicts(runs, probes));
      file.content := Some(Obj(data));
      file.locked := false;
    }
  }
}
