/** Removing denied flags from the flags a scenario asks for. */
module Flags {
  import opened Prelude

  predicate Bare(flag: string) { '=' !in flag }

  function Name(flag: string): string { flag[..IndexOf(flag, '=')] }

  function ValueOf(flag: string): string
    requires !Bare(flag)
  {
    flag[IndexOf(flag, '=') + 1..]
  }

  /** Joining a bare name and a value, and splitting at the first `=`, are inverse. */
  lemma SplitJoined(name: string, value: string)
    requires Bare(name)
    ensures var flag := name + "=" + value; !Bare(flag) && Name(flag) == name && ValueOf(flag) == value
  {
    var flag := name + "=" + value;
    assert flag[|name|] == '=' && flag[..|name|] == name;
    IndexOfExact(flag, '=', |name|);
  }

  lemma JoinedSplit(flag: string)
    requires !Bare(flag)
    ensures Bare(Name(flag)) && Name(flag) + "=" + ValueOf(flag) == flag
  {
  }

  lemma BareIsNoPair(flag: string)
    requires Bare(flag)
    ensures Name(flag) == flag && forall name, value :: name + "=" + value != flag
  {
    assert flag[..|flag|] == flag;
    forall name, value ensures name + "=" + value != flag {
      assert (name + "=" + value)[|name|] == '=';
    }
  }

  // ----- what is denied, position by position -----

  /** The flag's name is denied outright, with any value or none. */
  predicate NameDenied(flags: seq<string>, denied: set<string>, i: nat)
    requires i < |flags|
  {
    Name(flags[i]) in denied
  }

  /** `--flag=value` is denied with that value. */
  predicate EqualsDenied(flags: seq<string>, denied: set<string>, i: nat)
    requires i < |flags|
  {
    !Bare(flags[i]) && flags[i] in denied
  }

  /** A bare flag and the token after it are a denied pair. */
  predicate PairDenied(flags: seq<string>, denied: set<string>, i: nat)
    requires i < |flags|
  {
    && Bare(flags[i]) && i + 1 < |flags| && !NameDenied(flags, denied, i)
    && flags[i] + "=" + flags[i + 1] in denied
  }

  /** Position `i` is the value of a denied pair that starts before it. */
  predicate Consumed(flags: seq<string>, denied: set<string>, i: nat)
    requires i <= |flags|
  {
    i > 0 && !Consumed(flags, denied, i - 1) && PairDenied(flags, denied, i - 1)
  }

  predicate Dropped(flags: seq<string>, denied: set<string>, i: nat)
    requires i < |flags|
  {
    || Consumed(flags, denied, i) || NameDenied(flags, denied, i)
    || EqualsDenied(flags, denied, i) || PairDenied(flags, denied, i)
  }

  /** The flags from position `i` on that are not dropped. */
  function Kept(flags: seq<string>, denied: set<string>, i: nat): seq<string>
    requires i <= |flags|
    decreases |flags| - i
  {
    if i == |flags| then []
    else (if Dropped(flags, denied, i) then [] else [flags[i]]) + Kept(flags, denied, i + 1)
  }

  // ----- the filter -----

  type Values = map<string, set<string>>

  /** The table of values denied by name says what the entries with an `=` say. */
  ghost predicate Tabulates(table: Values, entries: set<string>) {
    forall name, value :: (name in table && value in table[name]) <==> (Bare(name) && name + "=" + value in entries)
  }

  method TabulateValues(denied: set<string>) returns (table: Values)
    ensures Tabulates(table, denied)
  {
    table := map[];
    var todo := denied;
    while todo != {}
      invariant todo <= denied && Tabulates(table, denied - todo)
      decreases |todo|
    {
      var entry :| entry in todo;
      ghost var done := denied - todo;
      if !Bare(entry) {
        var name, value := Name(entry), ValueOf(entry);
        TabulateOne(table, done, entry);
        table := table[name := (if name in table then table[name] else {}) + {value}];
      } else {
        BareIsNoPair(entry);
      }
      todo := todo - {entry};
      assert denied - todo == done + {entry};
    }
    assert denied - {} == denied;
  }

  lemma TabulateOne(table: Values, done: set<string>, entry: string)
    requires Tabulates(table, done) && !Bare(entry)
    ensures var name, value := Name(entry), ValueOf(entry);
      Tabulates(table[name := (if name in table then table[name] else {}) + {value}], done + {entry})
  {
    var name, value := Name(entry), ValueOf(entry);
    var after := table[name := (if name in table then table[name] else {}) + {value}];
    JoinedSplit(entry);
    forall n, v ensures (n in after && v in after[n]) <==> (Bare(n) && n + "=" + v in done + {entry}) {
      if Bare(n) && n + "=" + v == entry { SplitJoined(n, v); }
    }
  }

  lemma NotDenied(flags: seq<string>, denied: set<string>, i: nat, table: Values)
    requires i < |flags| && Tabulates(table, denied) && !NameDenied(flags, denied, i)
    requires var key := Name(flags[i]); key in table ==>
      if !Bare(flags[i]) then ValueOf(flags[i]) !in table[key]
      else i + 1 < |flags| ==> flags[i + 1] !in table[key]
    ensures !EqualsDenied(flags, denied, i) && !PairDenied(flags, denied, i)
  {
    if Bare(flags[i]) {
      BareIsNoPair(flags[i]);
    } else {
      JoinedSplit(flags[i]);
    }
  }

  /** One position further, when it is not the value of a denied pair. */
  lemma KeptStep(flags: seq<string>, denied: set<string>, i: nat)
    requires i < |flags| && !Consumed(flags, denied, i)
    ensures var drop := NameDenied(flags, denied, i) || EqualsDenied(flags, denied, i) || PairDenied(flags, denied, i);
      Kept(flags, denied, i) == (if drop then [] else [flags[i]]) + Kept(flags, denied, i + 1)
    ensures Consumed(flags, denied, i + 1) <==> PairDenied(flags, denied, i)
  {
  }

  /** Two positions further, over a denied pair. */
  lemma KeptPair(flags: seq<string>, denied: set<string>, i: nat)
    requires i < |flags| && !Consumed(flags, denied, i) && PairDenied(flags, denied, i)
    ensures Kept(flags, denied, i) == Kept(flags, denied, i + 2) && !Consumed(flags, denied, i + 2)
  {
    KeptStep(flags, denied, i);
    assert Dropped(flags, denied, i + 1);
    assert Kept(flags, denied, i + 1) == [] + Kept(flags, denied, i + 2);
  }

  /** Whether the flag at `i` is to be skipped, and over how many tokens. */
  method Skips(flags: seq<string>, denied: set<string>, flagOnly: set<string>, valueOnly: Values, i: nat)
      returns (n: nat)
    requires i < |flags| && Tabulates(valueOnly, denied) && flagOnly == set entry | entry in denied && Bare(entry)
    ensures n == if NameDenied(flags, denied, i) || EqualsDenied(flags, denied, i) then 1
      else if PairDenied(flags, denied, i) then 2 else 0
  {
    var flag := flags[i];
    var key, eq := Name(flag), !Bare(flag);
    assert Bare(key);
    if key in flagOnly { return 1; }
    if key in valueOnly {
      if eq {
        JoinedSplit(flag);
        if ValueOf(flag) in valueOnly[key] { return 1; }
      } else if i + 1 < |flags| && flags[i + 1] in valueOnly[key] {
        BareIsNoPair(flag);
        assert key + "=" + flags[i + 1] in denied;
        return 2;
      }
    }
    NotDenied(flags, denied, i, valueOnly);
    n := 0;
  }

  method CheckDeniedFlags(flags: seq<string>, denied: set<string>) returns (clean: seq<string>)
    ensures clean == Kept(flags, denied, 0)
  {
    var flagOnly := set entry | entry in denied && Bare(entry);
    var valueOnly := TabulateValues(denied);
    clean := [];
    var i := 0;
    while i < |flags|
      invariant 0 <= i <= |flags| && !Consumed(flags, denied, i)
      invariant clean + Kept(flags, denied, i) == Kept(flags, denied, 0)
      decreases |flags| - i
    {
      var n := Skips(flags, denied, flagOnly, valueOnly, i);
      if n == 2 {
        KeptPair(flags, denied, i);
        i := i + 2;
      } else {
        KeptStep(flags, denied, i);
        ghost var rest := Kept(flags, denied, i + 1);
        assert clean + ([flags[i]] + rest) == clean + [flags[i]] + rest;
        assert [] + rest == rest;
        PairExcludes(flags, denied, i);
        if n == 0 { clean := clean + [flags[i]]; }
        i := i + 1;
      }
    }
  }

  lemma PairExcludes(flags: seq<string>, denied: set<string>, i: nat)
    requires i < |flags|
    ensures NameDenied(flags, denied, i) || EqualsDenied(flags, denied, i) ==> !PairDenied(flags, denied, i)
  {
  }

  // ----- what the filter keeps -----

  lemma {:induction false} KeptSubsequence(flags: seq<string>, denied: set<string>, i: nat)
    requires i <= |flags|
    ensures Subsequence(Kept(flags, denied, i), flags[i..])
    decreases |flags| - i
  {
    if i < |flags| {
      KeptSubsequence(flags, denied, i + 1);
      assert flags[i..] == [flags[i]] + flags[i + 1..];
      if Dropped(flags, denied, i) {
        assert Kept(flags, denied, i) == Kept(flags, denied, i + 1);
        SubsequenceSkip(Kept(flags, denied, i + 1), flags[i], flags[i + 1..]);
      } else {
        SubsequenceKeep(Kept(flags, denied, i + 1), flags[i], flags[i + 1..]);
      }
    }
  }

  /** Nothing that goes through has a denied name or is a denied `--flag=value`. */
  lemma {:induction false} KeptClean(flags: seq<string>, denied: set<string>, i: nat)
    requires i <= |flags|
    ensures forall f :: f in Kept(flags, denied, i) ==> Name(f) !in denied && (Bare(f) || f !in denied)
    decreases |flags| - i
  {
    if i < |flags| { KeptClean(flags, denied, i + 1); }
  }

  /** A list in which nothing is denied goes through unchanged. */
  lemma {:induction false} NothingDenied(flags: seq<string>, denied: set<string>, i: nat)
    requires i <= |flags|
    requires forall j :: 0 <= j < |flags| ==>
      !NameDenied(flags, denied, j) && !EqualsDenied(flags, denied, j) && !PairDenied(flags, denied, j)
    ensures Kept(flags, denied, i) == flags[i..]
    decreases |flags| - i
  {
    if i < |flags| {
      NothingDenied(flags, denied, i + 1);
      assert flags[i..] == [flags[i]] + flags[i + 1..];
    }
  }

  // ----- the documented two-token form -----

  /** A bare flag whose name is denied, at a position that is not itself a value. */
  predicate BlockedBare(flags: seq<string>, denied: set<string>, i: nat)
    requires i < |flags|
  {
    Bare(flags[i]) && NameDenied(flags, denied, i) && !Consumed(flags, denied, i)
  }

  /** Denied for what it is, whatever stands before it. */
  predicate DeniedItself(flags: seq<string>, denied: set<string>, i: nat)
    requires i < |flags|
  {
    NameDenied(flags, denied, i) || EqualsDenied(flags, denied, i) || PairDenied(flags, denied, i)
  }

  /** The token after a blocked bare flag, which the documentation counts to the flag, is judged on its own. */
  lemma NextTokenOnItsOwn(flags: seq<string>, denied: set<string>, i: nat)
    requires i + 1 < |flags| && BlockedBare(flags, denied, i)
    ensures Dropped(flags, denied, i)
    ensures Dropped(flags, denied, i + 1) <==> DeniedItself(flags, denied, i + 1)
  {
    assert !Consumed(flags, denied, i + 1);
  }

  /** Whether the agent reads a token as the value of the bare flag before it. */
  type Grammar = (string, string) -> bool

  /** The second token of the documented form `--flag value`. */
  predicate BlockedValue(flags: seq<string>, denied: set<string>, takes: Grammar, i: nat)
    requires i < |flags|
  {
    i > 0 && BlockedBare(flags, denied, i - 1) && takes(flags[i - 1], flags[i])
  }

  /** The flags from position `i` on when blocked values go with their flags, as documented. */
  function KeptAsDocumented(flags: seq<string>, denied: set<string>, takes: Grammar, i: nat): seq<string>
    requires i <= |flags|
    decreases |flags| - i
  {
    if i == |flags| then []
    else
      (if Dropped(flags, denied, i) || BlockedValue(flags, denied, takes, i) then [] else [flags[i]])
        + KeptAsDocumented(flags, denied, takes, i + 1)
  }

  /** How many blocked values come through from position `i` on. */
  function Escaping(flags: seq<string>, denied: set<string>, takes: Grammar, i: nat): nat
    requires i <= |flags|
    decreases |flags| - i
  {
    if i == |flags| then 0
    else
      (if BlockedValue(flags, denied, takes, i) && !DeniedItself(flags, denied, i) then 1 else 0)
        + Escaping(flags, denied, takes, i + 1)
  }

  lemma {:induction false} NoneEscapes(flags: seq<string>, denied: set<string>, takes: Grammar, i: nat)
    requires i <= |flags|
    ensures Escaping(flags, denied, takes, i) == 0 <==>
      forall j :: i <= j < |flags| && BlockedValue(flags, denied, takes, j) ==> DeniedItself(flags, denied, j)
    decreases |flags| - i
  {
    if i < |flags| { NoneEscapes(flags, denied, takes, i + 1); }
  }

  lemma {:induction false} KeepsTheEscaping(flags: seq<string>, denied: set<string>, takes: Grammar, i: nat)
    requires i <= |flags|
    ensures |Kept(flags, denied, i)| == |KeptAsDocumented(flags, denied, takes, i)| + Escaping(flags, denied, takes, i)
    ensures Escaping(flags, denied, takes, i) == 0 ==>
      Kept(flags, denied, i) == KeptAsDocumented(flags, denied, takes, i)
    decreases |flags| - i
  {
    if i < |flags| {
      KeepsTheEscaping(flags, denied, takes, i + 1);
      if BlockedValue(flags, denied, takes, i) { NextTokenOnItsOwn(flags, denied, i - 1); }
    }
  }

  /**
   * The filter drops the value of every blocked two-token form, as documented, if and only if
   * each token that the agent reads as the value of a blocked bare flag is denied itself.
   */
  lemma AsDocumentedIff(flags: seq<string>, denied: set<string>, takes: Grammar)
    ensures Kept(flags, denied, 0) == KeptAsDocumented(flags, denied, takes, 0) <==>
      forall i :: 0 <= i < |flags| && BlockedValue(flags, denied, takes, i) ==> DeniedItself(flags, denied, i)
  {
    KeepsTheEscaping(flags, denied, takes, 0);
    NoneEscapes(flags, denied, takes, 0);
  }

  /** In particular it does for every list when no flag denied by name takes a value. */
  lemma SwitchesAsDocumented(flags: seq<string>, denied: set<string>, takes: Grammar)
    requires forall flag, value :: flag in denied ==> !takes(flag, value)
    ensures Kept(flags, denied, 0) == KeptAsDocumented(flags, denied, takes, 0)
  {
    forall i | 0 < i < |flags| && Bare(flags[i - 1]) ensures !BlockedValue(flags, denied, takes, i) {
      BareIsNoPair(flags[i - 1]);
    }
    AsDocumentedIff(flags, denied, takes);
  }

  /** The value of a flag denied by name goes through alone. */
  lemma BlockedValueGoesThrough(flag: string, value: string, takes: Grammar)
    requires Bare(flag) && Name(value) != flag && takes(flag, value)
    ensures Kept([flag, value], {flag}, 0) == [value] && KeptAsDocumented([flag, value], {flag}, takes, 0) == []
  {
    var flags, denied := [flag, value], {flag};
    BareIsNoPair(flag);
    assert BlockedBare(flags, denied, 0) && BlockedValue(flags, denied, takes, 1);
    NextTokenOnItsOwn(flags, denied, 0);
    if !Bare(value) { assert value != flag; }
    assert Kept(flags, denied, 2) == [] && Kept(flags, denied, 1) == [value];
    assert KeptAsDocumented(flags, denied, takes, 2) == [] && KeptAsDocumented(flags, denied, takes, 1) == [];
  }

  // ----- pairs in the result -----

  /** The first position from `i` on that is kept, or the end. */
  function NextKept(flags: seq<string>, denied: set<string>, i: nat): (j: nat)
    requires i <= |flags|
    ensures i <= j <= |flags| && (j < |flags| ==> !Dropped(flags, denied, j))
    ensures forall k :: i <= k < j ==> Dropped(flags, denied, k)
    decreases |flags| - i
  {
    if i == |flags| || !Dropped(flags, denied, i) then i else NextKept(flags, denied, i + 1)
  }

  lemma {:induction false} KeptFrom(flags: seq<string>, denied: set<string>, i: nat)
    requires i <= |flags|
    ensures var j := NextKept(flags, denied, i);
      Kept(flags, denied, i) == if j == |flags| then [] else [flags[j]] + Kept(flags, denied, j + 1)
    decreases |flags| - i
  {
    if i < |flags| && Dropped(flags, denied, i) {
      KeptFrom(flags, denied, i + 1);
      assert [] + Kept(flags, denied, i + 1) == Kept(flags, denied, i + 1);
    }
  }

  /** Dropping what stands between brings a kept flag next to a kept token that its pair entry denies. */
  predicate Joins(flags: seq<string>, denied: set<string>, i: nat)
    requires i < |flags|
  {
    var j := NextKept(flags, denied, i + 1);
    && !Dropped(flags, denied, i) && Bare(flags[i]) && j < |flags|
    && flags[i] + "=" + flags[j] in denied
  }

  ghost predicate HasPair(flags: seq<string>, denied: set<string>) {
    exists k :: 0 <= k < |flags| && PairDenied(flags, denied, k)
  }

  lemma HasPairCons(f: string, rest: seq<string>, denied: set<string>)
    requires Name(f) !in denied
    ensures HasPair([f] + rest, denied) <==>
      HasPair(rest, denied) || (Bare(f) && rest != [] && f + "=" + rest[0] in denied)
  {
    var all := [f] + rest;
    forall k | 0 <= k < |rest| ensures PairDenied(rest, denied, k) <==> PairDenied(all, denied, k + 1) {
      assert all[k + 1] == rest[k] && (k + 1 < |rest| ==> all[k + 2] == rest[k + 1]);
    }
    assert PairDenied(all, denied, 0) <==> Bare(f) && rest != [] && f + "=" + rest[0] in denied;
    if HasPair(all, denied) {
      var k :| 0 <= k < |all| && PairDenied(all, denied, k);
      if k > 0 { assert PairDenied(rest, denied, k - 1); }
    }
  }

  /**
   * A denied pair stands in the result if and only if two kept tokens of the input were joined into
   * it, across at least one dropped token.
   */
  lemma {:induction false} PairInResultIff(flags: seq<string>, denied: set<string>, i: nat)
    requires i <= |flags|
    ensures HasPair(Kept(flags, denied, i), denied) <==> exists j :: i <= j < |flags| && Joins(flags, denied, j)
    ensures forall j :: i <= j < |flags| && Joins(flags, denied, j) ==>
      j + 1 < NextKept(flags, denied, j + 1) && Dropped(flags, denied, j + 1)
    decreases |flags| - i
  {
    forall j | i <= j < |flags| && Joins(flags, denied, j)
      ensures j + 1 < NextKept(flags, denied, j + 1) && Dropped(flags, denied, j + 1)
    {
      JoinedAcrossDropped(flags, denied, j);
    }
    if i < |flags| {
      var rest := Kept(flags, denied, i + 1);
      PairInResultIff(flags, denied, i + 1);
      if Dropped(flags, denied, i) {
        assert [] + rest == rest;
        assert !Joins(flags, denied, i);
      } else {
        HasPairCons(flags[i], rest, denied);
        KeptFrom(flags, denied, i + 1);
        assert Joins(flags, denied, i) <==> Bare(flags[i]) && rest != [] && flags[i] + "=" + rest[0] in denied;
      }
    }
  }

  /** It then had a dropped token in its middle: what is adjacent in the input is never joined. */
  lemma JoinedAcrossDropped(flags: seq<string>, denied: set<string>, i: nat)
    requires i < |flags| && Joins(flags, denied, i)
    ensures i + 1 < NextKept(flags, denied, i + 1) && Dropped(flags, denied, i + 1)
  {
    assert !PairDenied(flags, denied, i);
  }

  /** A flag and a value that stand on either side of a denied name are joined. */
  lemma DeniedNameBetween(flag: string, other: string, value: string)
    requires Bare(flag) && Bare(other) && Bare(value) && other != flag && other != value
    ensures var flags, denied := [flag, other, value], {flag + "=" + value, other};
      Kept(flags, denied, 0) == [flag, value] && HasPair(Kept(flags, denied, 0), denied)
  {
    var pair := flag + "=" + value;
    var flags, denied := [flag, other, value], {pair, other};
    BareIsNoPair(flag);
    BareIsNoPair(other);
    BareIsNoPair(value);
    SplitJoined(flag, value);
    assert flag + "=" + other != pair by {
      if flag + "=" + other == pair {
        SplitJoined(flag, other);
        assert false;
      }
    }
    assert other != pair && flag != pair && value != pair;
    assert !Dropped(flags, denied, 0) && Dropped(flags, denied, 1) && !Dropped(flags, denied, 2);
    assert Kept(flags, denied, 3) == [] && Kept(flags, denied, 2) == [value] && Kept(flags, denied, 1) == [value];
    assert PairDenied([flag, value], denied, 0);
  }

  lemma {:induction false} KeptShorter(flags: seq<string>, denied: set<string>, i: nat, k: nat)
    requires i <= k < |flags| && Dropped(flags, denied, k)
    ensures |Kept(flags, denied, i)| < |flags| - i
    decreases |flags| - i
  {
    KeptAtMost(flags, denied, i + 1);
    if i < k { KeptShorter(flags, denied, i + 1, k); }
  }

  lemma {:induction false} KeptAtMost(flags: seq<string>, denied: set<string>, i: nat)
    requires i <= |flags|
    ensures |Kept(flags, denied, i)| <= |flags| - i
    decreases |flags| - i
  {
    if i < |flags| { KeptAtMost(flags, denied, i + 1); }
  }

  /** Filtering the result again changes nothing if and only if no denied pair has arisen in it. */
  lemma RefilterIff(flags: seq<string>, denied: set<string>)
    ensures var out := Kept(flags, denied, 0); Kept(out, denied, 0) == out <==> !HasPair(out, denied)
  {
    var out := Kept(flags, denied, 0);
    KeptClean(flags, denied, 0);
    if HasPair(out, denied) {
      var k :| 0 <= k < |out| && PairDenied(out, denied, k);
      KeptShorter(out, denied, 0, k);
    } else {
      forall j | 0 <= j < |out|
        ensures !NameDenied(out, denied, j) && !EqualsDenied(out, denied, j) && !PairDenied(out, denied, j)
      {
        assert out[j] in out;
      }
      NothingDenied(out, denied, 0);
      assert out[0..] == out;
    }
  }
}
