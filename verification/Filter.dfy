/** Which groups and scenarios a list of path filters selects. */
module Filter {
  import opened Prelude

  /** A resolved path by its components. */
  type Path = seq<string>

  /** `name` is None when the filter names a directory. */
  datatype PathFilter = PathFilter(path: Path, name: Option<string>)

  /** `_is_descendant`, which holds of a path and itself. */
  predicate Under(child: Path, parent: Path) { parent <= child }

  predicate Hits(f: PathFilter, group: Path) { group == f.path || Under(group, f.path) || Under(f.path, group) }

  /** Selects every scenario of the group. */
  predicate Whole(f: PathFilter, group: Path) { Hits(f, group) && (f.name.None? || f.path != group) }

  predicate Names(f: PathFilter, group: Path) { f.path == group && f.name.Some? && f.name.value != "" }

  /** No allowed names means that all are allowed. */
  datatype Selection = Selection(matched: bool, allowed: set<string>)

  function Select(filters: set<PathFilter>, group: Path): Selection {
    if exists f :: f in filters && Whole(f, group) then Selection(true, {})
    else Selection(exists f :: f in filters && Hits(f, group), set f | f in filters && Names(f, group) :: f.name.value)
  }

  method MatchesGroup(filters: Option<seq<PathFilter>>, group: Path) returns (s: Selection)
    ensures s == if filters.None? then Selection(true, {}) else Select((set f | f in filters.value), group)
  {
    if filters.None? { return Selection(true, {}); }
    s := MatchFilters(filters.value, group);
  }

  /** What the loop has gathered from the filters `seen`, none of which selects the whole group. */
  ghost predicate Gathered(seen: seq<PathFilter>, group: Path, matched: bool, allowed: set<string>) {
    && (forall f :: f in seen ==> !Whole(f, group))
    && (matched <==> exists f :: f in seen && Hits(f, group))
    && (forall n :: n in allowed <==> exists f :: f in seen && Names(f, group) && f.name.value == n)
  }

  lemma GatherNext(seen: seq<PathFilter>, group: Path, matched: bool, allowed: set<string>, f: PathFilter)
    requires Gathered(seen, group, matched, allowed) && !Whole(f, group)
    ensures Gathered(seen + [f], group, matched || Hits(f, group),
      allowed + if Names(f, group) then {f.name.value} else {})
  {
    var all := seen + [f];
    assert forall x :: x in all <==> x in seen || x == f;
    var after := allowed + if Names(f, group) then {f.name.value} else {};
    forall n ensures n in after <==> exists x :: x in all && Names(x, group) && x.name.value == n {
      if n in allowed {
        var x :| x in seen && Names(x, group) && x.name.value == n;
        assert x in all;
      }
    }
    if matched {
      var x :| x in seen && Hits(x, group);
      assert x in all;
    }
  }

  method MatchFilters(filters: seq<PathFilter>, group: Path) returns (s: Selection)
    ensures s == Select((set f | f in filters), group)
  {
    var matched, allowed: set<string> := false, {};
    for i := 0 to |filters|
      invariant Gathered(filters[..i], group, matched, allowed)
    {
      var f := filters[i];
      if Hits(f, group) {
        if f.name.Some? && f.name.value != "" && f.path == group {
          assert Names(f, group);
        } else if f.name.None? || f.path != group {
          assert f in filters && Whole(f, group);
          return Selection(true, {});
        }
      }
      GatherNext(filters[..i], group, matched, allowed, f);
      assert filters[..i + 1] == filters[..i] + [f];
      matched := matched || Hits(f, group);
      allowed := allowed + if Names(f, group) then {f.name.value} else {};
    }
    assert filters[..|filters|] == filters;
    SelectGathered(filters, group, matched, allowed);
    s := Selection(matched, allowed);
  }

  lemma SelectGathered(filters: seq<PathFilter>, group: Path, matched: bool, allowed: set<string>)
    requires Gathered(filters, group, matched, allowed)
    ensures Select((set f | f in filters), group) == Selection(matched, allowed)
  {
    var fs := set f | f in filters;
    assert allowed == set f | f in fs && Names(f, group) :: f.name.value;
  }

  predicate Selected(s: Selection, name: string) { s.matched && (s.allowed == {} || name in s.allowed) }

  predicate Chooses(f: PathFilter, group: Path, name: string) {
    Whole(f, group) || (Names(f, group) && f.name.value == name)
  }

  predicate IsPrefix(a: Path, b: Path) { |a| <= |b| && b[..|a|] == a }

  /**
   * A filter chooses by name in its own directory, or all of it when it has no name; and all of every
   * directory above or below its own.
   */
  lemma ChoosesIff(f: PathFilter, group: Path, name: string)
    ensures Chooses(f, group, name) <==>
      if f.path == group then f.name == None || (f.name == Some(name) && name != "")
      else IsPrefix(f.path, group) || IsPrefix(group, f.path)
    ensures Hits(f, group) <==> IsPrefix(f.path, group) || IsPrefix(group, f.path)
  {
  }

  /** Some filter reaches the group, and those that do give an empty scenario name in it. */
  predicate OnlyEmptyNames(filters: set<PathFilter>, group: Path) {
    && (exists f :: f in filters && Hits(f, group))
    && (forall f :: f in filters && Hits(f, group) ==> !Whole(f, group) && !Names(f, group))
  }

  /**
   * A scenario is selected when a filter chooses it, and when the filters that reach its group give
   * only empty names.
   */
  lemma SelectedIff(filters: set<PathFilter>, group: Path, name: string)
    ensures Selected(Select(filters, group), name) <==>
      (exists f :: f in filters && Chooses(f, group, name)) || OnlyEmptyNames(filters, group)
  {
    var s := Select(filters, group);
    if f :| f in filters && Whole(f, group) {
      assert Chooses(f, group, name);
    } else if f :| f in filters && Names(f, group) {
      assert f.name.value in s.allowed && Hits(f, group);
      if name in s.allowed {
        var g :| g in filters && Names(g, group) && g.name.value == name;
        assert Chooses(g, group, name);
      }
      forall g | g in filters && Chooses(g, group, name) ensures name in s.allowed { assert Names(g, group); }
    } else {
      assert s.allowed == {};
    }
  }

  /** Unless a name is empty, giving one more filter never deselects a scenario. */
  lemma MoreFiltersSelectMore(filters: set<PathFilter>, more: set<PathFilter>, group: Path, name: string)
    requires filters <= more && forall f :: f in filters ==> f.name != Some("")
    ensures Selected(Select(filters, group), name) ==> Selected(Select(more, group), name)
  {
    SelectedIff(filters, group, name);
    SelectedIff(more, group, name);
    forall f | f in filters && Hits(f, group) ensures Whole(f, group) || Names(f, group) {}
  }
}
