/** Decoded JSON values. An object is a dict with string keys; a number keeps Python's int/float split. */
module Json {
  datatype Json =
    | Null
    | Bool(b: bool)
    | Int(i: int)
    | Float(r: real)
    | Str(s: string)
    | List(elems: seq<Json>)
    | Obj(fields: map<string, Json>)

  /** `d.get(key)`: None both for a missing key and for an explicit null. */
  function Get(d: map<string, Json>, key: string): Json { if key in d then d[key] else Null }

  /** `isinstance(v, int)`, which holds of booleans as well. */
  predicate IsInt(v: Json) { v.Int? || v.Bool? }

  predicate IsNumber(v: Json) { IsInt(v) || v.Float? }

  function IntOf(v: Json): int
    requires IsInt(v)
  {
    match v case Int(i) => i case Bool(b) => if b then 1 else 0
  }

  function NumberOf(v: Json): real
    requires IsNumber(v)
  {
    if v.Float? then v.r else IntOf(v) as real
  }
}

/**
 * The manifest file as a value: what `_read` makes of the bytes on disk and what
 * each of the three mutating operations turns it into. The class in Manifest.dfy
 * and the protocol in ManifestProtocol.dfy are both stated over these functions.
 */
module ManifestDoc {
  import opened Prelude
  import opened Json

  type Doc = map<string, Json>

  // ----- reading -----

  function Objects(vs: seq<Json>): (os: seq<Json>)
    ensures forall v :: v in os ==> v.Obj?
    ensures (forall v :: v in vs ==> v.Obj?) ==> os == vs
  {
    if vs == [] then [] else (if vs[0].Obj? then [vs[0]] else []) + Objects(vs[1..])
  }

  /** One entry of `runs`, normalised to the four known keys; None when it is rejected. */
  function CleanRun(run: Json): Option<Json> {
    if !run.Obj? then None else
    var pid := Get(run.fields, "pid");
    if !pid.Null? && !IsInt(pid) then None else
    var groups := if "groups" in run.fields then run.fields["groups"] else List([]);
    if !groups.List? then None else
    var dir := Get(run.fields, "run_dir");
    if !dir.Null? && !dir.Str? then None else
    var created := Get(run.fields, "create_time");
    Some(Obj(map[
      "pid" := pid,
      "create_time" := if IsNumber(created) then created else Null,
      "run_dir" := dir,
      "groups" := List(Objects(groups.elems))]))
  }

  function CleanRuns(runs: seq<Json>): seq<Json> {
    if runs == [] then []
    else
      var rest := CleanRuns(runs[1..]);
      match CleanRun(runs[0])
      case None => rest
      case Some(run) => [run] + rest
  }

  /** `_validate`: keep the document, normalise or drop its `runs`. */
  function Validate(data: Json): Doc {
    if !data.Obj? then map[] else
    var runs := Get(data.fields, "runs");
    if runs.Null? then data.fields
    else if !runs.List? then data.fields - {"runs"}
    else data.fields["runs" := List(CleanRuns(runs.elems))]
  }

  /** `_read`: None stands for a file that is missing or does not parse. */
  function ReadDoc(content: Option<Json>): Doc {
    if content.None? then map[] else Validate(content.value)
  }

  // ----- the shape every read produces -----

  predicate ValidRun(run: Json) {
    && run.Obj?
    && run.fields.Keys == {"pid", "create_time", "run_dir", "groups"}
    && (run.fields["pid"].Null? || IsInt(run.fields["pid"]))
    && (run.fields["create_time"].Null? || IsNumber(run.fields["create_time"]))
    && (run.fields["run_dir"].Null? || run.fields["run_dir"].Str?)
    && run.fields["groups"].List?
    && forall g :: g in run.fields["groups"].elems ==> g.Obj?
  }

  /** `"runs": null` survives validation; every mutating operation then fails before writing. */
  predicate NullRuns(doc: Doc) { "runs" in doc && doc["runs"].Null? }

  predicate ValidDoc(doc: Doc) {
    "runs" in doc ==> doc["runs"].Null? || (doc["runs"].List? && forall r :: r in doc["runs"].elems ==> ValidRun(r))
  }

  function Runs(doc: Doc): seq<Json> {
    if "runs" in doc && doc["runs"].List? then doc["runs"].elems else []
  }

  lemma CleanRunValid(run: Json)
    ensures CleanRun(run).Some? ==> ValidRun(CleanRun(run).value)
    ensures ValidRun(run) ==> CleanRun(run) == Some(run)
  {
    if ValidRun(run) {
      var f := run.fields;
      assert Objects(f["groups"].elems) == f["groups"].elems;
      var c := CleanRun(run).value.fields;
      assert c.Keys == f.Keys;
      assert f.Keys == {"pid", "create_time", "run_dir", "groups"};
      assert forall k :: k in f ==> c[k] == f[k];
      assert c == f;
    }
  }

  lemma {:induction false} CleanRunsValid(runs: seq<Json>)
    ensures forall r :: r in CleanRuns(runs) ==> ValidRun(r)
    ensures (forall r :: r in runs ==> ValidRun(r)) ==> CleanRuns(runs) == runs
  {
    if runs != [] {
      CleanRunValid(runs[0]);
      CleanRunsValid(runs[1..]);
      assert runs == [runs[0]] + runs[1..];
    }
  }

  /** Reading yields a valid document, and leaves a valid document alone: validation is idempotent. */
  lemma ValidateValid(data: Json)
    ensures ValidDoc(Validate(data))
    ensures Validate(Obj(Validate(data))) == Validate(data)
  {
    if data.Obj? {
      var runs := Get(data.fields, "runs");
      if runs.List? { CleanRunsValid(runs.elems); }
    }
    ValidDocUnchanged(Validate(data));
  }

  lemma ValidDocUnchanged(doc: Doc)
    requires ValidDoc(doc)
    ensures Validate(Obj(doc)) == doc
  {
    if "runs" in doc && doc["runs"].List? {
      CleanRunsValid(doc["runs"].elems);
    }
  }

  // ----- the three operations -----

  datatype Group = Group(name: string, info: map<string, Json>)

  /** A manifest entry: the group name, overridden by whatever the info dict brings. */
  function Entry(g: Group): Json { Obj(map["group" := Str(g.name)] + g.info) }

  function Entries(groups: seq<Group>): (es: seq<Json>)
    ensures |es| == |groups| && forall i :: 0 <= i < |es| ==> es[i] == Entry(groups[i])
  {
    seq(|groups|, i requires 0 <= i < |groups| => Entry(groups[i]))
  }

  function RunRecord(pid: int, created: Option<real>, dir: string, groups: seq<Group>): (run: Json)
    ensures ValidRun(run)
  {
    Obj(map[
      "pid" := Int(pid),
      "create_time" := if created.Some? then Float(created.value) else Null,
      "run_dir" := Str(dir),
      "groups" := List(Entries(groups))])
  }

  function Field(run: Json, key: string): Json { if run.Obj? then Get(run.fields, key) else Null }

  function Groups(run: Json): seq<Json> {
    var groups := Field(run, "groups"); if groups.List? then groups.elems else []
  }

  function Created(run: Json): Option<real> {
    var created := Field(run, "create_time"); if IsNumber(created) then Some(NumberOf(created)) else None
  }

  /** Python's `run["pid"] == pid`, under which True equals 1. */
  predicate HasPid(run: Json, pid: int) {
    var own := Field(run, "pid"); IsInt(own) && IntOf(own) == pid
  }

  function WithRuns(doc: Doc, runs: seq<Json>): Doc {
    if runs == [] then doc - {"runs"} else doc["runs" := List(runs)]
  }

  function Registered(doc: Doc, run: Json, dir: string): Doc {
    doc["latest_run" := Str(dir)]["runs" := List(Runs(doc) + [run])]
  }

  /** The elements whose verdict is true, in order. */
  function Kept<T>(xs: seq<T>, verdicts: seq<bool>): seq<T> {
    if xs == [] || verdicts == [] then []
    else (if verdicts[0] then [xs[0]] else []) + Kept(xs[1..], verdicts[1..])
  }

  function OtherPids(runs: seq<Json>, pid: int): (verdicts: seq<bool>)
    ensures |verdicts| == |runs|
  {
    seq(|runs|, i requires 0 <= i < |runs| => !HasPid(runs[i], pid))
  }

  function Unregistered(doc: Doc, pid: int): Doc {
    WithRuns(doc, Kept(Runs(doc), OtherPids(Runs(doc), pid)))
  }

  function Swept(doc: Doc, verdicts: seq<bool>): Doc {
    WithRuns(doc, Kept(Runs(doc), verdicts))
  }

  // ----- liveness -----

  /** What `os.kill(pid, 0)` reports. */
  datatype Signal = Delivered | NoSuchProcess | NotPermitted

  /** One observation of the operating system: the signal and the creation time psutil gives, if any. */
  datatype Probe = Probe(signal: Signal, created: Option<real>)

  function Abs(x: real): real { if x < 0.0 then -x else x }

  function IsPidAlive(probe: Probe, expected: Option<real>): bool {
    match probe.signal
    case NoSuchProcess => false
    case NotPermitted => true
    case Delivered => expected.None? || probe.created.None? || Abs(probe.created.value - expected.value) < 1.0
  }

  /** The verdict `cleanup_orphans` reaches on one run: true keeps it. */
  predicate Survives(run: Json, probe: Probe) {
    !Field(run, "pid").Null? && IsPidAlive(probe, Created(run))
  }

  // ----- facts about the operations -----

  lemma {:induction false} KeptSpec<T>(xs: seq<T>, verdicts: seq<bool>)
    requires |verdicts| == |xs|
    ensures Subsequence(Kept(xs, verdicts), xs)
    ensures forall i :: 0 <= i < |xs| && verdicts[i] ==> xs[i] in Kept(xs, verdicts)
    ensures forall x :: x in Kept(xs, verdicts) ==> exists i :: 0 <= i < |xs| && verdicts[i] && xs[i] == x
  {
    if xs != [] {
      var rest := Kept(xs[1..], verdicts[1..]);
      KeptSpec(xs[1..], verdicts[1..]);
      assert xs == [xs[0]] + xs[1..];
      if verdicts[0] {
        SubsequenceKeep(rest, xs[0], xs[1..]);
      } else {
        SubsequenceSkip(rest, xs[0], xs[1..]);
        assert Kept(xs, verdicts) == rest;
      }
      forall x | x in Kept(xs, verdicts)
        ensures exists i :: 0 <= i < |xs| && verdicts[i] && xs[i] == x
      {
        if !(verdicts[0] && x == xs[0]) {
          var i :| 0 <= i < |xs| - 1 && verdicts[1..][i] && xs[1..][i] == x;
          assert verdicts[i + 1] && xs[i + 1] == x;
        }
      }
      forall i | 0 <= i < |xs| && verdicts[i] ensures xs[i] in Kept(xs, verdicts) {
        if i > 0 { assert xs[1..][i - 1] == xs[i] && verdicts[1..][i - 1]; }
      }
    }
  }

  lemma ReadValid(content: Option<Json>)
    ensures ValidDoc(ReadDoc(content))
  {
    if content.Some? { ValidateValid(content.value); }
  }

  /** Whatever the three operations write is read back unchanged. */
  lemma WrittenReadsBack(doc: Doc, run: Json, dir: string, pid: int, verdicts: seq<bool>)
    requires ValidDoc(doc) && ValidRun(run) && |verdicts| == |Runs(doc)|
    ensures ReadDoc(Some(Obj(Registered(doc, run, dir)))) == Registered(doc, run, dir)
    ensures ReadDoc(Some(Obj(Unregistered(doc, pid)))) == Unregistered(doc, pid)
    ensures ReadDoc(Some(Obj(Swept(doc, verdicts)))) == Swept(doc, verdicts)
  {
    KeptSpec(Runs(doc), OtherPids(Runs(doc), pid));
    KeptSpec(Runs(doc), verdicts);
    ValidDocUnchanged(Registered(doc, run, dir));
    ValidDocUnchanged(Unregistered(doc, pid));
    ValidDocUnchanged(Swept(doc, verdicts));
  }

  // ----- what the operations write, key by key -----

  /** The manifest entry of one group: what its info says, and its name unless the info has one of its own. */
  ghost predicate IsEntryOf(entry: Json, g: Group) {
    && entry.Obj? && entry.fields.Keys == g.info.Keys + {"group"}
    && (forall k :: k in g.info ==> entry.fields[k] == g.info[k])
    && ("group" !in g.info ==> entry.fields["group"] == Str(g.name))
  }

  ghost predicate AreEntriesOf(entries: seq<Json>, groups: seq<Group>) {
    |entries| == |groups| && forall i :: 0 <= i < |groups| ==> IsEntryOf(entries[i], groups[i])
  }

  /** The record of one run, field by field. */
  ghost predicate Describes(run: Json, pid: int, created: Option<real>, dir: string, groups: seq<Group>) {
    && run.Obj? && run.fields.Keys == {"pid", "create_time", "run_dir", "groups"}
    && run.fields["pid"] == Int(pid) && run.fields["run_dir"] == Str(dir)
    && run.fields["create_time"] == (match created case None => Null case Some(t) => Float(t))
    && run.fields["groups"].List? && AreEntriesOf(run.fields["groups"].elems, groups)
  }

  /** `after` has these runs, or no `runs` at all when there are none; `latest_run` aside, nothing else differs. */
  ghost predicate OnlyRunsDiffer(before: Doc, after: Doc, runs: seq<Json>) {
    && (if runs == [] then "runs" !in after else "runs" in after && after["runs"] == List(runs))
    && after - {"runs", "latest_run"} == before - {"runs", "latest_run"}
  }

  /** A registration names its directory as the latest, and adds one record behind those on disk. */
  lemma RegisteredExact(doc: Doc, pid: int, created: Option<real>, dir: string, groups: seq<Group>)
    ensures var run := RunRecord(pid, created, dir, groups); var after := Registered(doc, run, dir);
      && Describes(run, pid, created, dir, groups)
      && OnlyRunsDiffer(doc, after, Runs(doc) + [run])
      && "latest_run" in after && after["latest_run"] == Str(dir)
  {
    forall i | 0 <= i < |groups| ensures IsEntryOf(Entries(groups)[i], groups[i]) {}
  }

  /** Python's `==` between a JSON value and an integer. */
  predicate EqualsInt(v: Json, n: int) {
    v == Int(n) || (v == Bool(true) && n == 1) || (v == Bool(false) && n == 0)
  }

  lemma {:induction false} KeptOccurrences<T>(xs: seq<T>, verdicts: seq<bool>, x: T, keep: bool)
    requires |verdicts| == |xs| && forall i :: 0 <= i < |xs| && xs[i] == x ==> verdicts[i] == keep
    ensures multiset(Kept(xs, verdicts))[x] == if keep then multiset(xs)[x] else 0
  {
    if xs != [] {
      assert xs == [xs[0]] + xs[1..];
      assert forall i :: 0 <= i < |xs| - 1 ==> xs[1..][i] == xs[i + 1] && verdicts[1..][i] == verdicts[i + 1];
      KeptOccurrences(xs[1..], verdicts[1..], x, keep);
    }
  }

  lemma {:induction false} KeptCounts<T>(xs: seq<T>, verdicts: seq<bool>)
    requires |verdicts| == |xs|
    ensures |Kept(xs, verdicts)| == CountIf(verdicts, (v: bool) => v)
  {
    if xs != [] {
      var last := |xs| - 1;
      KeptCounts(xs[..last], verdicts[..last]);
      KeptFront(xs, verdicts);
    }
  }

  lemma {:induction false} KeptFront<T>(xs: seq<T>, verdicts: seq<bool>)
    requires |verdicts| == |xs| > 0
    ensures var last := |xs| - 1;
      Kept(xs, verdicts) == Kept(xs[..last], verdicts[..last]) + if verdicts[last] then [xs[last]] else []
  {
    var last := |xs| - 1;
    if last == 0 {
      assert xs[1..] == [] && xs[..0] == [];
    } else {
      KeptFront(xs[1..], verdicts[1..]);
      assert xs[1..][..last - 1] == xs[..last][1..] && verdicts[1..][..last - 1] == verdicts[..last][1..];
    }
  }

  /** The runs with other PIDs, in their order and as often as before. */
  ghost predicate OthersOf(left: seq<Json>, runs: seq<Json>, pid: int) {
    && Subsequence(left, runs)
    && forall run :: multiset(left)[run] == if EqualsInt(Field(run, "pid"), pid) then 0 else multiset(runs)[run]
  }

  lemma OthersKept(runs: seq<Json>, pid: int)
    ensures OthersOf(Kept(runs, OtherPids(runs, pid)), runs, pid)
  {
    var verdicts := OtherPids(runs, pid);
    KeptSpec(runs, verdicts);
    forall run
      ensures multiset(Kept(runs, verdicts))[run] ==
        if EqualsInt(Field(run, "pid"), pid) then 0 else multiset(runs)[run]
    {
      KeptOccurrences(runs, verdicts, run, !EqualsInt(Field(run, "pid"), pid));
    }
  }

  lemma WithRunsExact(doc: Doc, runs: seq<Json>)
    ensures Runs(WithRuns(doc, runs)) == runs && OnlyRunsDiffer(doc, WithRuns(doc, runs), runs)
    ensures WithRuns(doc, runs) - {"runs"} == doc - {"runs"}
  {
  }

  /** An unregister takes away every run with the PID, and nothing else differs. */
  lemma UnregisteredExact(doc: Doc, pid: int)
    ensures var left := Runs(Unregistered(doc, pid));
      OthersOf(left, Runs(doc), pid) && OnlyRunsDiffer(doc, Unregistered(doc, pid), left)
    ensures Unregistered(doc, pid) - {"runs"} == doc - {"runs"}
  {
    OthersKept(Runs(doc), pid);
    WithRunsExact(doc, Kept(Runs(doc), OtherPids(Runs(doc), pid)));
  }

  /** A sweep leaves one run for each true verdict, and nothing but the runs differs. */
  lemma SweptExact(doc: Doc, verdicts: seq<bool>)
    requires |verdicts| == |Runs(doc)|
    ensures var left := Runs(Swept(doc, verdicts));
      && OnlyRunsDiffer(doc, Swept(doc, verdicts), left)
      && Subsequence(left, Runs(doc)) && |left| == CountIf(verdicts, (v: bool) => v)
    ensures Swept(doc, verdicts) - {"runs"} == doc - {"runs"}
  {
    KeptSpec(Runs(doc), verdicts);
    KeptCounts(Runs(doc), verdicts);
    WithRunsExact(doc, Kept(Runs(doc), verdicts));
  }

  // ----- what a read accepts -----

  lemma {:induction false} ObjectsInOrder(vs: seq<Json>)
    ensures Subsequence(Objects(vs), vs)
  {
    if vs != [] {
      ObjectsInOrder(vs[1..]);
      assert vs == [vs[0]] + vs[1..];
      if vs[0].Obj? {
        SubsequenceKeep(Objects(vs[1..]), vs[0], vs[1..]);
      } else {
        SubsequenceSkip(Objects(vs[1..]), vs[0], vs[1..]);
        assert [] + Objects(vs[1..]) == Objects(vs[1..]);
      }
    }
  }

  lemma OneMoreOf<T>(x: T, rest: seq<T>, y: T)
    ensures multiset([x] + rest)[y] == multiset(rest)[y] + if x == y then 1 else 0
  {
  }

  lemma {:induction false} ObjectsOccurrences(vs: seq<Json>, v: Json)
    ensures multiset(Objects(vs))[v] == if v.Obj? then multiset(vs)[v] else 0
  {
    if vs != [] {
      var rest := Objects(vs[1..]);
      ObjectsOccurrences(vs[1..], v);
      assert vs == [vs[0]] + vs[1..];
      OneMoreOf(vs[0], vs[1..], v);
      OneMoreOf(vs[0], rest, v);
      assert [] + rest == rest;
    }
  }

  lemma ObjectsExact(vs: seq<Json>)
    ensures Subsequence(Objects(vs), vs)
    ensures forall v :: multiset(Objects(vs))[v] == if v.Obj? then multiset(vs)[v] else 0
  {
    ObjectsInOrder(vs);
    forall v ensures multiset(Objects(vs))[v] == if v.Obj? then multiset(vs)[v] else 0 { ObjectsOccurrences(vs, v); }
  }

  ghost predicate Absent(fields: map<string, Json>, key: string) { key in fields ==> fields[key] == Null }

  /** A run is read unless a field has a type that it cannot have. */
  ghost predicate Readable(run: Json) {
    && run.Obj?
    && (Absent(run.fields, "pid") || run.fields["pid"].Int? || run.fields["pid"].Bool?)
    && (Absent(run.fields, "run_dir") || run.fields["run_dir"].Str?)
    && ("groups" in run.fields ==> run.fields["groups"].List?)
  }

  predicate Numeric(v: Json) { v.Int? || v.Float? || v.Bool? }

  /** What is read of it: its PID, directory and numeric creation time, or null, and the groups that are objects. */
  ghost predicate ReadAs(run: Json, clean: Json)
    requires run.Obj?
  {
    && clean.Obj? && clean.fields.Keys == {"pid", "create_time", "run_dir", "groups"}
    && clean.fields["pid"] == (if "pid" in run.fields then run.fields["pid"] else Null)
    && clean.fields["run_dir"] == (if "run_dir" in run.fields then run.fields["run_dir"] else Null)
    && clean.fields["create_time"] ==
      (if "create_time" in run.fields && Numeric(run.fields["create_time"]) then run.fields["create_time"] else Null)
    && clean.fields["groups"].List?
    && var groups := if "groups" in run.fields && run.fields["groups"].List? then run.fields["groups"].elems else [];
      && Subsequence(clean.fields["groups"].elems, groups)
      && forall g :: multiset(clean.fields["groups"].elems)[g] == if g.Obj? then multiset(groups)[g] else 0
  }

  lemma CleanRunExact(run: Json)
    ensures CleanRun(run).Some? <==> Readable(run)
    ensures Readable(run) ==> ReadAs(run, CleanRun(run).value)
  {
    if Readable(run) { ObjectsExact(if "groups" in run.fields then run.fields["groups"].elems else []); }
  }

  /** The readable runs of a list, in order. */
  ghost predicate ReadsAs(runs: seq<Json>, clean: seq<Json>)
    decreases |runs|
  {
    if runs == [] then clean == []
    else if !Readable(runs[0]) then ReadsAs(runs[1..], clean)
    else clean != [] && ReadAs(runs[0], clean[0]) && ReadsAs(runs[1..], clean[1..])
  }

  lemma {:induction false} CleanRunsExact(runs: seq<Json>)
    ensures ReadsAs(runs, CleanRuns(runs))
  {
    if runs != [] {
      CleanRunExact(runs[0]);
      CleanRunsExact(runs[1..]);
    }
  }

  /** A document is read as it is, except for its runs: those that are readable, or none when they are no list. */
  lemma ReadExact(content: Option<Json>)
    ensures content.None? || !content.value.Obj? ==> ReadDoc(content) == map[]
    ensures content.Some? && content.value.Obj? ==>
      var fields, doc := content.value.fields, ReadDoc(content);
      && doc - {"runs"} == fields - {"runs"}
      && (Absent(fields, "runs") ==> doc == fields)
      && (!Absent(fields, "runs") && !fields["runs"].List? ==> "runs" !in doc)
      && (!Absent(fields, "runs") && fields["runs"].List? ==>
        "runs" in doc && doc["runs"].List? && ReadsAs(fields["runs"].elems, doc["runs"].elems))
  {
    if content.Some? && content.value.Obj? {
      var fields := content.value.fields;
      if !Absent(fields, "runs") && fields["runs"].List? { CleanRunsExact(fields["runs"].elems); }
    }
  }
}
