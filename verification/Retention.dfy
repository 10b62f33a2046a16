/** `belt gc`: which run directories a retention policy deletes. */
module Retention {
  import opened Prelude
  import opened Json
  import opened ManifestDoc
  import ManifestProtocol

  /** A child directory of the outcomes root: its path, what the path resolves to, its mtime. */
  datatype RunDir = RunDir(path: string, resolved: string, mtime: real)

  datatype Policy = Policy(live: set<string>, keepLast: Option<int>, threshold: Option<real>)

  // ----- which directories are in use -----

  /** The loop body of `_live_run_dirs`: entries without a usable directory or PID are passed over. */
  predicate CountsAsLive(run: Json, probe: Probe) {
    var dir := Field(run, "run_dir");
    dir.Str? && dir.s != "" && IsInt(Field(run, "pid")) && IsPidAlive(probe, Created(run))
  }

  /** The directories of the runs that count as live. */
  ghost predicate LiveDirs(runs: seq<Json>, probes: nat -> Probe, resolve: string -> string, live: set<string>) {
    forall d :: d in live <==>
      exists i :: 0 <= i < |runs| && CountsAsLive(runs[i], probes(i)) && resolve(Field(runs[i], "run_dir").s) == d
  }

  /** None: iterating `"runs": null` raises, and nothing is planned at all. */
  method LiveRunDirs(doc: Doc, probes: nat -> Probe, resolve: string -> string) returns (live: Option<set<string>>)
    requires ValidDoc(doc)
    ensures live.None? <==> NullRuns(doc)
    ensures live.Some? ==> LiveDirs(Runs(doc), probes, resolve, live.value)
  {
    if NullRuns(doc) { return None; }
    var runs := Runs(doc);
    var dirs: set<string> := {};
    for k := 0 to |runs|
      invariant forall d :: d in dirs <==>
        exists i :: 0 <= i < k && CountsAsLive(runs[i], probes(i)) && resolve(Field(runs[i], "run_dir").s) == d
    {
      if CountsAsLive(runs[k], probes(k)) {
        dirs := dirs + {resolve(Field(runs[k], "run_dir").s)};
      }
    }
    live := Some(dirs);
  }

  // ----- newest first -----

  function Insert(x: RunDir, sorted: seq<RunDir>): seq<RunDir> {
    if sorted == [] || x.mtime >= sorted[0].mtime then [x] + sorted else [sorted[0]] + Insert(x, sorted[1..])
  }

  /** `candidates.sort(key=mtime, reverse=True)`, which keeps equal elements in listing order. */
  function NewestFirst(dirs: seq<RunDir>): seq<RunDir> {
    if dirs == [] then [] else Insert(dirs[0], NewestFirst(dirs[1..]))
  }

  ghost predicate Sorted(dirs: seq<RunDir>) {
    forall i, j :: 0 <= i < j < |dirs| ==> dirs[i].mtime >= dirs[j].mtime
  }

  lemma {:induction false} InsertElements(x: RunDir, sorted: seq<RunDir>)
    ensures multiset(Insert(x, sorted)) == multiset{x} + multiset(sorted)
  {
    if sorted != [] && x.mtime < sorted[0].mtime {
      InsertElements(x, sorted[1..]);
      assert sorted == [sorted[0]] + sorted[1..];
    }
  }

  lemma {:induction false} InsertMembers(x: RunDir, sorted: seq<RunDir>, y: RunDir)
    requires y in Insert(x, sorted)
    ensures y == x || y in sorted
  {
    if sorted != [] && x.mtime < sorted[0].mtime {
      if y != sorted[0] { InsertMembers(x, sorted[1..], y); }
    }
  }

  lemma {:induction false} InsertSorted(x: RunDir, sorted: seq<RunDir>)
    requires Sorted(sorted)
    ensures Sorted(Insert(x, sorted))
  {
    if sorted != [] && x.mtime < sorted[0].mtime {
      var rest := Insert(x, sorted[1..]);
      InsertSorted(x, sorted[1..]);
      forall j | 0 <= j < |rest| ensures rest[j].mtime <= sorted[0].mtime { InsertMembers(x, sorted[1..], rest[j]); }
    }
  }

  lemma {:induction false} NewestFirstSorted(dirs: seq<RunDir>)
    ensures Sorted(NewestFirst(dirs)) && multiset(NewestFirst(dirs)) == multiset(dirs)
  {
    if dirs != [] {
      NewestFirstSorted(dirs[1..]);
      InsertSorted(dirs[0], NewestFirst(dirs[1..]));
      InsertElements(dirs[0], NewestFirst(dirs[1..]));
      assert dirs == [dirs[0]] + dirs[1..];
    }
  }

  // ----- the plan -----

  predicate IsLive(dir: RunDir, policy: Policy) { dir.resolved in policy.live }

  /** What the loop decides at position `i` of the sorted candidates; live ones still take up a position. */
  predicate Doomed(sorted: seq<RunDir>, i: nat, policy: Policy)
    requires i < |sorted|
  {
    && !IsLive(sorted[i], policy)
    && ( || (policy.keepLast.Some? && i >= policy.keepLast.value)
         || (policy.threshold.Some? && sorted[i].mtime < policy.threshold.value))
  }

  /** The candidates before position `n` for which `Doomed` has the value `doomed`, in order. */
  function Select(sorted: seq<RunDir>, n: nat, policy: Policy, doomed: bool): seq<RunDir>
    requires n <= |sorted|
  {
    if n == 0 then []
    else Select(sorted, n - 1, policy, doomed) + if Doomed(sorted, n - 1, policy) == doomed then [sorted[n - 1]] else []
  }

  function Where(dirs: seq<RunDir>, keep: set<RunDir>): seq<RunDir> {
    if dirs == [] then []
    else if dirs[0] in keep then [dirs[0]] + Where(dirs[1..], keep)
    else Where(dirs[1..], keep)
  }

  function NotLive(dirs: seq<RunDir>, policy: Policy): seq<RunDir> {
    if dirs == [] then []
    else NotLive(dirs[..|dirs| - 1], policy) + if IsLive(dirs[|dirs| - 1], policy) then [] else [dirs[|dirs| - 1]]
  }

  method PlanDeletions(listing: seq<RunDir>, policy: Policy) returns (toDelete: seq<RunDir>, toKeep: seq<RunDir>)
    ensures var sorted := NewestFirst(listing);
      && toDelete == Select(sorted, |sorted|, policy, true)
      && toKeep == Select(sorted, |sorted|, policy, false)
    ensures SoundPlan(listing, policy, toDelete, toKeep)
  {
    var candidates := NewestFirst(listing);
    NewestFirstSorted(listing);
    toDelete, toKeep := [], [];
    for i := 0 to |candidates|
      invariant toDelete == Select(candidates, i, policy, true) && toKeep == Select(candidates, i, policy, false)
    {
      if IsLive(candidates[i], policy) {
        toKeep := toKeep + [candidates[i]];
      } else {
        var pastKeepLast := policy.keepLast.Some? && i >= policy.keepLast.value;
        var tooOld := policy.threshold.Some? && candidates[i].mtime < policy.threshold.value;
        if pastKeepLast || tooOld {
          toDelete := toDelete + [candidates[i]];
        } else {
          toKeep := toKeep + [candidates[i]];
        }
      }
    }
    PlanSound(listing, policy);
  }

  /** Nothing lost, nothing live deleted, and what is deleted is a tail of the rest, newest first. */
  ghost predicate SoundPlan(listing: seq<RunDir>, policy: Policy, toDelete: seq<RunDir>, toKeep: seq<RunDir>) {
    var others := NotLive(NewestFirst(listing), policy);
    && Interleaves(toDelete, toKeep, NewestFirst(listing)) && multiset(NewestFirst(listing)) == multiset(listing)
    && (forall d :: d in toDelete ==> !IsLive(d, policy))
    && |toDelete| <= |others| && toDelete == others[|others| - |toDelete|..]
  }

  lemma PlanSound(listing: seq<RunDir>, policy: Policy)
    ensures var sorted := NewestFirst(listing);
      SoundPlan(listing, policy, Select(sorted, |sorted|, policy, true), Select(sorted, |sorted|, policy, false))
  {
    NewestFirstSorted(listing);
    SortedPlan(NewestFirst(listing), policy);
  }

  /** Every listed run is in exactly one of the two lists, as often as it was listed. */
  lemma PlanLosesNothing(listing: seq<RunDir>, policy: Policy, toDelete: seq<RunDir>, toKeep: seq<RunDir>)
    requires SoundPlan(listing, policy, toDelete, toKeep)
    ensures multiset(toDelete) + multiset(toKeep) == multiset(listing)
  {
    InterleavesPermutes(toDelete, toKeep, NewestFirst(listing));
  }

  lemma SortedPlan(sorted: seq<RunDir>, policy: Policy)
    requires Sorted(sorted)
    ensures var doomed, kept := Select(sorted, |sorted|, policy, true), Select(sorted, |sorted|, policy, false);
      var others := NotLive(sorted, policy);
      && Interleaves(doomed, kept, sorted)
      && (forall d :: d in doomed ==> !IsLive(d, policy))
      && |doomed| <= |others| && doomed == others[|others| - |doomed|..]
  {
    var n := |sorted|;
    assert sorted[..n] == sorted;
    SelectSplits(sorted, n, policy);
    SelectedNotLive(sorted, n, policy);
    SelectSuffix(sorted, n, policy);
  }

  /** `all` is `a` and `b` shuffled into each other, each keeping its order. */
  ghost predicate Interleaves<T>(a: seq<T>, b: seq<T>, all: seq<T>) {
    if all == [] then a == [] && b == []
    else
      var front, x := all[..|all| - 1], all[|all| - 1];
      || (a != [] && a[|a| - 1] == x && Interleaves(a[..|a| - 1], b, front))
      || (b != [] && b[|b| - 1] == x && Interleaves(a, b[..|b| - 1], front))
  }

  lemma InterleavesStep<T>(a: seq<T>, b: seq<T>, all: seq<T>, x: T)
    requires Interleaves(a, b, all)
    ensures Interleaves(a + [x], b, all + [x]) && Interleaves(a, b + [x], all + [x])
  {
    assert (all + [x])[..|all|] == all && (a + [x])[..|a|] == a && (b + [x])[..|b|] == b;
  }

  lemma {:induction false} InterleavesPermutes<T>(a: seq<T>, b: seq<T>, all: seq<T>)
    requires Interleaves(a, b, all)
    ensures multiset(a) + multiset(b) == multiset(all)
  {
    if all != [] {
      var front, x := all[..|all| - 1], all[|all| - 1];
      assert all == front + [x];
      if a != [] && a[|a| - 1] == x && Interleaves(a[..|a| - 1], b, front) {
        InterleavesPermutes(a[..|a| - 1], b, front);
        assert a == a[..|a| - 1] + [x];
      } else {
        InterleavesPermutes(a, b[..|b| - 1], front);
        assert b == b[..|b| - 1] + [x];
      }
    }
  }

  lemma SelectStep(sorted: seq<RunDir>, n: nat, policy: Policy)
    requires 0 < n <= |sorted|
    ensures var doomed, kept := Select(sorted, n - 1, policy, true), Select(sorted, n - 1, policy, false);
      if Doomed(sorted, n - 1, policy) then
        Select(sorted, n, policy, true) == doomed + [sorted[n - 1]] && Select(sorted, n, policy, false) == kept
      else
        Select(sorted, n, policy, true) == doomed && Select(sorted, n, policy, false) == kept + [sorted[n - 1]]
  {
  }

  /** One position further, the run there goes to one of the two lists. */
  lemma SelectNext(sorted: seq<RunDir>, n: nat, policy: Policy)
    requires 0 < n <= |sorted|
    requires Interleaves(Select(sorted, n - 1, policy, true), Select(sorted, n - 1, policy, false), sorted[..n - 1])
    ensures Interleaves(Select(sorted, n, policy, true), Select(sorted, n, policy, false), sorted[..n])
  {
    var x, doomed, kept := sorted[n - 1], Select(sorted, n - 1, policy, true), Select(sorted, n - 1, policy, false);
    SelectStep(sorted, n, policy);
    InterleavesStep(doomed, kept, sorted[..n - 1], x);
    assert sorted[..n] == sorted[..n - 1] + [x];
  }

  lemma {:induction false} SelectSplits(sorted: seq<RunDir>, n: nat, policy: Policy)
    requires n <= |sorted|
    ensures Interleaves(Select(sorted, n, policy, true), Select(sorted, n, policy, false), sorted[..n])
  {
    if n > 0 {
      SelectSplits(sorted, n - 1, policy);
      SelectNext(sorted, n, policy);
    }
  }

  lemma {:induction false} SelectedNotLive(sorted: seq<RunDir>, n: nat, policy: Policy)
    requires n <= |sorted|
    ensures forall d :: d in Select(sorted, n, policy, true) ==> !IsLive(d, policy)
  {
    if n > 0 { SelectedNotLive(sorted, n - 1, policy); }
  }

  lemma {:induction false} SelectNone(sorted: seq<RunDir>, n: nat, policy: Policy)
    requires n <= |sorted|
    requires forall i :: 0 <= i < n ==> !Doomed(sorted, i, policy)
    ensures Select(sorted, n, policy, true) == []
  {
    if n > 0 { SelectNone(sorted, n - 1, policy); }
  }

  /** Both criteria only get stricter along the newest-first order, so the doomed runs are the oldest ones. */
  lemma {:induction false} SelectSuffix(sorted: seq<RunDir>, n: nat, policy: Policy)
    requires n <= |sorted| && Sorted(sorted)
    ensures var doomed, others := Select(sorted, n, policy, true), NotLive(sorted[..n], policy);
      |doomed| <= |others| && doomed == others[|others| - |doomed|..]
  {
    if n > 0 {
      SelectSuffix(sorted, n - 1, policy);
      assert sorted[..n][..n - 1] == sorted[..n - 1];
      if !Doomed(sorted, n - 1, policy) && !IsLive(sorted[n - 1], policy) {
        assert forall i :: 0 <= i < n - 1 ==> !Doomed(sorted, i, policy);
        SelectNone(sorted, n - 1, policy);
      }
    }
  }

  // ----- the documented policy -----

  predicate TooOld(dir: RunDir, policy: Policy) { policy.threshold.Some? && dir.mtime < policy.threshold.value }

  /**
   * The policy as documented: `others` are the runs that are not live, newest first, and only these
   * take up a position.
   */
  function Retired(others: seq<RunDir>, policy: Policy): seq<RunDir> {
    if others == [] then []
    else
      var i := |others| - 1;
      Retired(others[..i], policy)
        + if (policy.keepLast.Some? && i >= policy.keepLast.value) || TooOld(others[i], policy) then [others[i]] else []
  }

  function DocumentedDeletions(listing: seq<RunDir>, policy: Policy): seq<RunDir> {
    Retired(NotLive(NewestFirst(listing), policy), policy)
  }

  /** How many runs that are not live stand before position `i`. */
  function Place(sorted: seq<RunDir>, i: nat, policy: Policy): nat
    requires i <= |sorted|
  {
    |NotLive(sorted[..i], policy)|
  }

  predicate DoomedAsDocumented(sorted: seq<RunDir>, i: nat, policy: Policy)
    requires i < |sorted|
  {
    && !IsLive(sorted[i], policy)
    && ((policy.keepLast.Some? && Place(sorted, i, policy) >= policy.keepLast.value) || TooOld(sorted[i], policy))
  }

  /** Live runs before it push the run at position `i` past the cut-off, and nothing else condemns it. */
  predicate Displaced(sorted: seq<RunDir>, i: nat, policy: Policy)
    requires i < |sorted|
  {
    && !IsLive(sorted[i], policy) && !TooOld(sorted[i], policy)
    && policy.keepLast.Some? && Place(sorted, i, policy) < policy.keepLast.value <= i
  }

  lemma {:induction false} NotLiveLength(dirs: seq<RunDir>, policy: Policy)
    ensures |NotLive(dirs, policy)| <= |dirs|
  {
    if dirs != [] { NotLiveLength(dirs[..|dirs| - 1], policy); }
  }

  /** Position by position, the code decides as documented exactly where no run is displaced. */
  lemma DoomedAsDocumentedIff(sorted: seq<RunDir>, i: nat, policy: Policy)
    requires i < |sorted|
    ensures (Doomed(sorted, i, policy) <==> DoomedAsDocumented(sorted, i, policy)) <==> !Displaced(sorted, i, policy)
    ensures DoomedAsDocumented(sorted, i, policy) ==> Doomed(sorted, i, policy)
  {
    NotLiveLength(sorted[..i], policy);
  }

  lemma RetiredStep(sorted: seq<RunDir>, n: nat, policy: Policy)
    requires 0 < n <= |sorted|
    ensures var before := DocumentedUpTo(sorted, n - 1, policy);
      DocumentedUpTo(sorted, n, policy) ==
        if DoomedAsDocumented(sorted, n - 1, policy) then before + [sorted[n - 1]] else before
  {
    var before := NotLive(sorted[..n - 1], policy);
    assert sorted[..n][..n - 1] == sorted[..n - 1];
    if IsLive(sorted[n - 1], policy) {
      assert before + [] == before;
    } else {
      assert (before + [sorted[n - 1]])[..|before|] == before;
    }
  }

  function DisplacedBefore(sorted: seq<RunDir>, n: nat, policy: Policy): nat
    requires n <= |sorted|
  {
    if n == 0 then 0 else DisplacedBefore(sorted, n - 1, policy) + if Displaced(sorted, n - 1, policy) then 1 else 0
  }

  lemma {:induction false} NoneDisplaced(sorted: seq<RunDir>, n: nat, policy: Policy)
    requires n <= |sorted|
    ensures DisplacedBefore(sorted, n, policy) == 0 <==> forall i :: 0 <= i < n ==> !Displaced(sorted, i, policy)
  {
    if n > 0 { NoneDisplaced(sorted, n - 1, policy); }
  }

  /** `code` is `documented` with `more` runs put in between. */
  ghost predicate Exceeds(code: seq<RunDir>, documented: seq<RunDir>, more: nat) {
    |code| == |documented| + more && (more == 0 ==> code == documented)
  }

  lemma ExceedsNext(code: seq<RunDir>, documented: seq<RunDir>, more: nat, x: RunDir)
    requires Exceeds(code, documented, more)
    ensures Exceeds(code + [x], documented + [x], more) && Exceeds(code + [x], documented, more + 1)
  {
  }

  function DocumentedUpTo(sorted: seq<RunDir>, n: nat, policy: Policy): seq<RunDir>
    requires n <= |sorted|
  {
    Retired(NotLive(sorted[..n], policy), policy)
  }

  /** The code deletes, beyond what is documented, as many runs as are displaced. */
  lemma {:induction false} DeletesTheDisplaced(sorted: seq<RunDir>, n: nat, policy: Policy)
    requires n <= |sorted|
    ensures Exceeds(Select(sorted, n, policy, true), DocumentedUpTo(sorted, n, policy),
      DisplacedBefore(sorted, n, policy))
  {
    if n > 0 {
      var code, documented := Select(sorted, n - 1, policy, true), DocumentedUpTo(sorted, n - 1, policy);
      DeletesTheDisplaced(sorted, n - 1, policy);
      SelectStep(sorted, n, policy);
      RetiredStep(sorted, n, policy);
      DoomedAsDocumentedIff(sorted, n - 1, policy);
      ExceedsNext(code, documented, DisplacedBefore(sorted, n - 1, policy), sorted[n - 1]);
    }
  }

  /**
   * The plan is the documented one if and only if no run is displaced: that is, no run that is
   * neither live nor too old stands at a position past `keepLast` with fewer than `keepLast`
   * runs that are not live before it.
   */
  lemma PlanAsDocumentedIff(listing: seq<RunDir>, policy: Policy)
    ensures var sorted := NewestFirst(listing);
      Select(sorted, |sorted|, policy, true) == DocumentedDeletions(listing, policy) <==>
        forall i :: 0 <= i < |sorted| ==> !Displaced(sorted, i, policy)
  {
    var sorted := NewestFirst(listing);
    assert sorted[..|sorted|] == sorted;
    DeletesTheDisplaced(sorted, |sorted|, policy);
    NoneDisplaced(sorted, |sorted|, policy);
  }

  /** With one run to keep, a live run in front costs the newest of the others its place. */
  lemma LiveRunTakesAPlace(live: RunDir, other: RunDir)
    requires live.mtime > other.mtime && live.resolved != other.resolved
    ensures var policy, listing := Policy({live.resolved}, Some(1), None), [live, other];
      && NewestFirst(listing) == listing
      && Select(listing, 2, policy, true) == [other] && DocumentedDeletions(listing, policy) == []
  {
    var policy, listing := Policy({live.resolved}, Some(1), None), [live, other];
    assert listing[1..] == [other] && [other][1..] == [];
    assert NewestFirst([]) == [] && NewestFirst([other]) == [other];
    assert NewestFirst(listing) == Insert(live, [other]) == listing;
    assert Select(listing, 0, policy, true) == [] && Select(listing, 1, policy, true) == [];
    assert listing[..1] == [live] && [live][..0] == [] && NotLive(listing[..1], policy) == [];
    assert NotLive(listing, policy) == [other] && [other][..0] == [];
    assert Retired([], policy) == [] && Retired([other], policy) == [];
  }

  // ----- planning again -----

  lemma {:induction false} WhereInsert(x: RunDir, sorted: seq<RunDir>, keep: set<RunDir>)
    requires Sorted(sorted)
    ensures Where(Insert(x, sorted), keep) == if x in keep then Insert(x, Where(sorted, keep)) else Where(sorted, keep)
  {
    if sorted == [] || x.mtime >= sorted[0].mtime {
      assert ([x] + sorted)[1..] == sorted;
      WhereOlder(x, sorted, keep);
    } else {
      var rest := Insert(x, sorted[1..]);
      assert ([sorted[0]] + rest)[1..] == rest;
      WhereInsert(x, sorted[1..], keep);
      assert ([sorted[0]] + Where(sorted[1..], keep))[1..] == Where(sorted[1..], keep);
      if x in keep && sorted[0] !in keep { assert Where(Insert(x, sorted), keep) == Where(rest, keep); }
    }
  }

  lemma {:induction false} WhereOlder(x: RunDir, sorted: seq<RunDir>, keep: set<RunDir>)
    requires Sorted(sorted) && (sorted == [] || x.mtime >= sorted[0].mtime)
    ensures Insert(x, Where(sorted, keep)) == [x] + Where(sorted, keep)
  {
    if sorted != [] && sorted[0] !in keep { WhereOlder(x, sorted[1..], keep); }
  }

  /** Dropping directories before or after the sort comes to the same. */
  lemma {:induction false} WhereSorted(dirs: seq<RunDir>, keep: set<RunDir>)
    ensures NewestFirst(Where(dirs, keep)) == Where(NewestFirst(dirs), keep)
  {
    if dirs != [] {
      WhereSorted(dirs[1..], keep);
      NewestFirstSorted(dirs[1..]);
      WhereInsert(dirs[0], NewestFirst(dirs[1..]), keep);
      var rest := Where(dirs[1..], keep);
      assert ([dirs[0]] + rest)[1..] == rest;
    }
  }

  lemma {:induction false} InsertFirst(x: RunDir, dirs: seq<RunDir>)
    requires forall d :: d in dirs ==> d.mtime == x.mtime
    ensures Insert(x, dirs) == [x] + dirs
  {
  }

  lemma {:induction false} SameTimeSorted(dirs: seq<RunDir>, mtime: real)
    requires forall d :: d in dirs ==> d.mtime == mtime
    ensures NewestFirst(dirs) == dirs
  {
    if dirs != [] {
      SameTimeSorted(dirs[1..], mtime);
      InsertFirst(dirs[0], dirs[1..]);
    }
  }

  lemma {:induction false} WhereMembers(dirs: seq<RunDir>, keep: set<RunDir>)
    ensures forall d :: d in Where(dirs, keep) ==> d in keep
  {
    if dirs != [] { WhereMembers(dirs[1..], keep); }
  }

  /** Runs of one modification time stay in listing order. */
  lemma NewestFirstStable(dirs: seq<RunDir>, mtime: real)
    ensures var same := set d | d in dirs && d.mtime == mtime;
      Where(NewestFirst(dirs), same) == Where(dirs, same)
  {
    var same := set d | d in dirs && d.mtime == mtime;
    WhereSorted(dirs, same);
    WhereMembers(dirs, same);
    SameTimeSorted(Where(dirs, same), mtime);
  }

  lemma {:induction false} WhereAppend(dirs: seq<RunDir>, x: RunDir, keep: set<RunDir>)
    ensures Where(dirs + [x], keep) == Where(dirs, keep) + if x in keep then [x] else []
  {
    if dirs == [] {
      assert ([] + [x])[1..] == [];
    } else {
      assert (dirs + [x])[1..] == dirs[1..] + [x];
      WhereAppend(dirs[1..], x, keep);
    }
  }

  lemma {:induction false} WhereSelected(sorted: seq<RunDir>, n: nat, policy: Policy, keep: set<RunDir>)
    requires n <= |sorted|
    requires forall i :: 0 <= i < n ==> (sorted[i] in keep <==> !Doomed(sorted, i, policy))
    ensures Where(sorted[..n], keep) == Select(sorted, n, policy, false)
  {
    if n > 0 {
      WhereSelected(sorted, n - 1, policy, keep);
      assert sorted[..n] == sorted[..n - 1] + [sorted[n - 1]];
      WhereAppend(sorted[..n - 1], sorted[n - 1], keep);
    }
  }

  /** A survivor has moved up, if anything, and is as young as before: it is not doomed now either. */
  lemma {:induction false} SurvivorsSafe(sorted: seq<RunDir>, n: nat, policy: Policy)
    requires n <= |sorted|
    ensures var kept := Select(sorted, n, policy, false);
      |kept| <= n && forall j :: 0 <= j < |kept| ==> !Doomed(kept, j, policy)
  {
    if n > 0 {
      SurvivorsSafe(sorted, n - 1, policy);
      var before, kept := Select(sorted, n - 1, policy, false), Select(sorted, n, policy, false);
      forall j | 0 <= j < |kept| ensures !Doomed(kept, j, policy) {
        if j < |before| { assert kept[j] == before[j] && !Doomed(before, j, policy); }
      }
    }
  }

  lemma {:induction false} SelectMembers(sorted: seq<RunDir>, n: nat, policy: Policy, doomed: bool)
    requires n <= |sorted|
    ensures forall d :: d in Select(sorted, n, policy, doomed) <==>
      exists i :: 0 <= i < n && sorted[i] == d && Doomed(sorted, i, policy) == doomed
  {
    if n > 0 {
      SelectMembers(sorted, n - 1, policy, doomed);
      assert Doomed(sorted, n - 1, policy) == doomed ==> sorted[n - 1] in Select(sorted, n, policy, doomed);
    }
  }

  /** Planning is stable: over the survivors, with the same liveness and threshold, nothing is deleted. */
  lemma ReplanDeletesNothing(listing: seq<RunDir>, policy: Policy)
    requires forall i, j :: 0 <= i < j < |listing| ==> listing[i] != listing[j]
    ensures var sorted := NewestFirst(listing);
      var kept := Select(sorted, |sorted|, policy, false);
      var again := NewestFirst(Where(listing, set d | d in kept));
      again == kept && Select(again, |again|, policy, true) == []
  {
    var sorted := NewestFirst(listing);
    var n := |sorted|;
    var kept := Select(sorted, n, policy, false);
    var keep := set d | d in kept;
    NewestFirstSorted(listing);
    SelectMembers(sorted, n, policy, false);
    SameDistinct(listing, sorted);
    WhereSelected(sorted, n, policy, keep);
    assert sorted[..n] == sorted;
    WhereSorted(listing, keep);
    SurvivorsSafe(sorted, n, policy);
    SelectNone(kept, |kept|, policy);
  }

  lemma SameDistinct(a: seq<RunDir>, b: seq<RunDir>)
    requires multiset(a) == multiset(b) && forall i, j :: 0 <= i < j < |a| ==> a[i] != a[j]
    ensures forall i, j :: 0 <= i < j < |b| ==> b[i] != b[j]
  {
    forall i, j | 0 <= i < j < |b| ensures b[i] != b[j] {
      if b[i] == b[j] {
        assert b == b[..i] + [b[i]] + b[i + 1..j] + [b[j]] + b[j + 1..];
        assert multiset(b)[b[i]] >= 2;
        AtMostOnce(a, b[i]);
      }
    }
  }

  lemma {:induction false} AtMostOnce(a: seq<RunDir>, d: RunDir)
    requires forall i, j :: 0 <= i < j < |a| ==> a[i] != a[j]
    ensures multiset(a)[d] <= 1
  {
    if a != [] {
      AtMostOnce(a[1..], d);
      assert a == [a[0]] + a[1..];
      assert a[0] !in a[1..];
    }
  }

  // ----- runs registered after the manifest was read -----

  lemma NewestStandsFirst(listing: seq<RunDir>, d: RunDir)
    requires d in listing && forall e :: e in listing && e != d ==> e.mtime < d.mtime
    ensures |NewestFirst(listing)| > 0 && NewestFirst(listing)[0] == d
    ensures forall e :: e in NewestFirst(listing) ==> e in listing
  {
    var sorted := NewestFirst(listing);
    NewestFirstSorted(listing);
    assert d in multiset(listing) && d in multiset(sorted);
    forall e | e in sorted ensures e in listing {
      assert e in multiset(sorted) && e in multiset(listing);
    }
    var k :| 0 <= k < |sorted| && sorted[k] == d;
    assert sorted[0] in sorted;
    assert k > 0 ==> sorted[0].mtime >= sorted[k].mtime;
  }

  /**
   * A run that the manifest did not hold when it was read is protected by its age alone. The
   * newest directory listed is then deleted exactly when none is to be kept or it is too old.
   */
  lemma NewestUnregisteredDeletedIff(listing: seq<RunDir>, policy: Policy, d: RunDir)
    requires d in listing && !IsLive(d, policy)
    requires forall e :: e in listing && e != d ==> e.mtime < d.mtime
    requires forall i, j :: 0 <= i < j < |listing| ==> listing[i] != listing[j]
    ensures var sorted := NewestFirst(listing);
      d in Select(sorted, |sorted|, policy, true) <==>
        (policy.keepLast.Some? && policy.keepLast.value <= 0) || TooOld(d, policy)
  {
    var sorted := NewestFirst(listing);
    NewestStandsFirst(listing, d);
    NewestFirstSorted(listing);
    SameDistinct(listing, sorted);
    SelectMembers(sorted, |sorted|, policy, true);
    assert Doomed(sorted, 0, policy) <==> (policy.keepLast.Some? && policy.keepLast.value <= 0) || TooOld(d, policy);
  }

  // ----- over the protocol -----

  /** What the planner knows of this state: truthful probes, and every directory that counts as live. */
  ghost predicate Sees(s: ManifestProtocol.State, probes: nat -> Probe, resolve: string -> string, policy: Policy) {
    var runs := Runs(ReadDoc(s.file));
    forall i :: 0 <= i < |runs| ==>
      && ManifestProtocol.Truthful(s, Field(runs[i], "pid"), probes(i))
      && (CountsAsLive(runs[i], probes(i)) ==> resolve(Field(runs[i], "run_dir").s) in policy.live)
  }

  /** The run has this directory and PID, and a process holds the PID, or so it is said of one that is not positive. */
  ghost predicate InUse(s: ManifestProtocol.State, run: Json, probe: Probe, dir: string, pid: int) {
    && Field(run, "run_dir") == Str(dir) && dir != "" && EqualsInt(Field(run, "pid"), pid)
    && (if pid > 0 then ManifestProtocol.Occupied(s, run, pid, probe) else ManifestProtocol.Answered(run, probe))
  }

  ghost predicate UsedBy(s: ManifestProtocol.State, run: Json, probe: Probe, resolve: string -> string, d: string) {
    exists dir, pid :: InUse(s, run, probe, dir, pid) && resolve(dir) == d
  }

  ghost predicate AllTruthful(s: ManifestProtocol.State, runs: seq<Json>, probes: nat -> Probe) {
    forall i :: 0 <= i < |runs| ==> ManifestProtocol.Truthful(s, Field(runs[i], "pid"), probes(i))
  }

  lemma CountsIff(s: ManifestProtocol.State, run: Json, probe: Probe, resolve: string -> string, d: string)
    requires ManifestProtocol.Truthful(s, Field(run, "pid"), probe)
    ensures CountsAsLive(run, probe) && resolve(Field(run, "run_dir").s) == d <==> UsedBy(s, run, probe, resolve, d)
  {
    if IsInt(Field(run, "pid")) {
      var pid := IntOf(Field(run, "pid"));
      if pid > 0 {
        ManifestProtocol.VerdictIff(s, run, pid, probe);
      } else {
        ManifestProtocol.VerdictOtherwise(run, pid, probe);
      }
      if CountsAsLive(run, probe) { assert InUse(s, run, probe, Field(run, "run_dir").s, pid); }
    }
  }

  /** With truthful probes, the live directories are exactly those of the runs whose PID is in use. */
  lemma LiveDirsIff(s: ManifestProtocol.State, runs: seq<Json>, probes: nat -> Probe, resolve: string -> string,
      live: set<string>, d: string)
    requires AllTruthful(s, runs, probes) && LiveDirs(runs, probes, resolve, live)
    ensures d in live <==> exists i :: 0 <= i < |runs| && UsedBy(s, runs[i], probes(i), resolve, d)
  {
    forall i | 0 <= i < |runs|
      ensures CountsAsLive(runs[i], probes(i)) && resolve(Field(runs[i], "run_dir").s) == d
        <==> UsedBy(s, runs[i], probes(i), resolve, d)
    {
      CountsIff(s, runs[i], probes(i), resolve, d);
    }
  }

  /** No live process holds the PID of any run with this directory. */
  ghost predicate Abandoned(s: ManifestProtocol.State, runs: seq<Json>, resolve: string -> string, d: string) {
    forall i, dir :: 0 <= i < |runs| && Field(runs[i], "run_dir") == Str(dir) && resolve(dir) == d ==>
      forall pid :: EqualsInt(Field(runs[i], "pid"), pid) ==>
        pid > 0 && forall q :: ManifestProtocol.Is(s, q) ==> s.procs[q].pid != pid
  }

  /** So the directory of a crashed run is deleted exactly when it stands past the cut-off or is too old. */
  lemma AbandonedRunDeletedIff(s: ManifestProtocol.State, runs: seq<Json>, probes: nat -> Probe,
      resolve: string -> string, policy: Policy, listing: seq<RunDir>, i: nat)
    requires AllTruthful(s, runs, probes) && LiveDirs(runs, probes, resolve, policy.live)
    requires forall j, k :: 0 <= j < k < |listing| ==> listing[j] != listing[k]
    requires i < |NewestFirst(listing)| && Abandoned(s, runs, resolve, NewestFirst(listing)[i].resolved)
    ensures var sorted := NewestFirst(listing);
      sorted[i] in Select(sorted, |sorted|, policy, true) <==>
        || (policy.keepLast.Some? && i >= policy.keepLast.value)
        || (policy.threshold.Some? && sorted[i].mtime < policy.threshold.value)
  {
    var sorted := NewestFirst(listing);
    LiveDirsIff(s, runs, probes, resolve, policy.live, sorted[i].resolved);
    NewestFirstSorted(listing);
    SameDistinct(listing, sorted);
    SelectMembers(sorted, |sorted|, policy, true);
  }

  /** The directory is not among those to delete. */
  ghost predicate Spares(listing: seq<RunDir>, policy: Policy, resolved: string) {
    var sorted := NewestFirst(listing);
    forall d :: d in Select(sorted, |sorted|, policy, true) ==> d.resolved != resolved
  }

  /**
   * In every reachable state of the manifest protocol, the directory of a run whose process is
   * alive and registered is among the live ones, so no policy built on them deletes it.
   */
  lemma LiveRunNeverDeleted(file: Option<Json>, steps: seq<ManifestProtocol.Step>, p: nat, id: nat, dir: string,
      probes: nat -> Probe, resolve: string -> string, policy: Policy, listing: seq<RunDir>)
    requires ManifestProtocol.Allowed(ManifestProtocol.Init(file), steps)
    requires var s := ManifestProtocol.After(ManifestProtocol.Init(file), steps);
      && ManifestProtocol.Owns(s.procs, p, id) && id < |s.recs|
      && Field(s.recs[id], "run_dir") == Str(dir) && dir != ""
      && Sees(s, probes, resolve, policy)
    ensures Spares(listing, policy, resolve(dir))
  {
    var s := ManifestProtocol.After(ManifestProtocol.Init(file), steps);
    ManifestProtocol.InitHolds(file);
    ManifestProtocol.RunKeeps(ManifestProtocol.Init(file), steps, file);
    var i :| 0 <= i < |s.ids| && s.ids[i] == id;
    assert Runs(s.doc)[i] == s.recs[id];
    ManifestProtocol.OwnerSurvives(s, p, s.recs[id], probes(i));
    assert CountsAsLive(Runs(s.doc)[i], probes(i));
    var sorted := NewestFirst(listing);
    SelectedNotLive(sorted, |sorted|, policy);
  }

  /**
   * Nor is it deleted after any further steps: whatever run is alive and registered by then was
   * so when the manifest was read, unless it was registered since.
   */
  lemma LiveLaterNeverDeleted(file: Option<Json>, steps: seq<ManifestProtocol.Step>, later: seq<ManifestProtocol.Step>,
      p: nat, id: nat, dir: string, probes: nat -> Probe, resolve: string -> string, policy: Policy,
      listing: seq<RunDir>)
    requires ManifestProtocol.Allowed(ManifestProtocol.Init(file), steps)
    requires var s := ManifestProtocol.After(ManifestProtocol.Init(file), steps);
      && ManifestProtocol.Allowed(s, later) && ManifestProtocol.Owns(ManifestProtocol.After(s, later).procs, p, id)
      && id < |s.recs| && Field(s.recs[id], "run_dir") == Str(dir) && dir != ""
      && Sees(s, probes, resolve, policy)
    ensures Spares(listing, policy, resolve(dir))
  {
    var s := ManifestProtocol.After(ManifestProtocol.Init(file), steps);
    ManifestProtocol.OwnedBefore(s, later, p, id);
    LiveRunNeverDeleted(file, steps, p, id, dir, probes, resolve, policy, listing);
  }
}
