/** Insertion-ordered dictionaries keyed by text. */
module Dict {
  import opened Prelude

  datatype Pair<V> = Pair(key: string, value: V)
  type Dict<V> = seq<Pair<V>>

  function Keys<V>(d: Dict<V>): set<string> { set i | 0 <= i < |d| :: d[i].key }

  function Get<V>(d: Dict<V>, key: string): Option<V> {
    if d == [] then None else if d[0].key == key then Some(d[0].value) else Get(d[1..], key)
  }

  /** A key already present keeps its place. */
  function Put<V>(d: Dict<V>, key: string, value: V): Dict<V> {
    if d == [] then [Pair(key, value)]
    else if d[0].key == key then [Pair(key, value)] + d[1..]
    else [d[0]] + Put(d[1..], key, value)
  }

  predicate Distinct<V>(d: Dict<V>) { forall i, j :: 0 <= i < j < |d| ==> d[i].key != d[j].key }

  lemma {:induction false} GetPut<V>(d: Dict<V>, key: string, value: V, other: string)
    ensures Get(Put(d, key, value), other) == if other == key then Some(value) else Get(d, other)
  {
    if d != [] && d[0].key != key {
      GetPut(d[1..], key, value, other);
      assert Put(d, key, value)[1..] == Put(d[1..], key, value);
    } else if d != [] {
      assert Put(d, key, value)[1..] == d[1..];
    }
  }

  lemma {:induction false} PutKeys<V>(d: Dict<V>, key: string, value: V)
    ensures Keys(Put(d, key, value)) == Keys(d) + {key}
  {
    var e := Put(d, key, value);
    if d == [] {
      assert e[0].key in Keys(e);
    } else {
      assert d == [d[0]] + d[1..] && e == [e[0]] + e[1..];
      KeysCons(d[0], d[1..]);
      KeysCons(e[0], e[1..]);
      if d[0].key != key {
        PutKeys(d[1..], key, value);
        assert e[1..] == Put(d[1..], key, value);
      } else {
        assert e[1..] == d[1..];
      }
    }
  }

  lemma KeysCons<V>(p: Pair<V>, d: Dict<V>)
    ensures Keys([p] + d) == {p.key} + Keys(d)
  {
    var e := [p] + d;
    assert forall i :: 0 <= i < |d| ==> e[i + 1] == d[i];
    forall k | k in {p.key} + Keys(d) ensures k in Keys(e) {
      if k != p.key {
        var i :| 0 <= i < |d| && d[i].key == k;
        assert e[i + 1].key == k;
      } else { assert e[0].key == k; }
    }
  }

  lemma {:induction false} GetKeys<V>(d: Dict<V>, key: string)
    ensures Get(d, key).Some? <==> key in Keys(d)
  {
    if d != [] {
      assert d == [d[0]] + d[1..];
      KeysCons(d[0], d[1..]);
      GetKeys(d[1..], key);
    }
  }

  lemma {:induction false} PutDistinct<V>(d: Dict<V>, key: string, value: V)
    requires Distinct(d)
    ensures Distinct(Put(d, key, value))
  {
    if d != [] && d[0].key != key {
      PutDistinct(d[1..], key, value);
      PutKeys(d[1..], key, value);
      var rest := Put(d[1..], key, value);
      forall j | 0 <= j < |rest| ensures rest[j].key != d[0].key {
        assert rest[j].key in Keys(rest);
        if rest[j].key != key {
          var i :| 0 <= i < |d[1..]| && d[1..][i].key == rest[j].key;
          assert d[i + 1].key == rest[j].key;
        }
      }
    }
  }

  /** Every entry is the one put in or was there before. */
  lemma {:induction false} PutEntries<V>(d: Dict<V>, key: string, value: V, i: nat)
    requires i < |Put(d, key, value)|
    ensures Put(d, key, value)[i] == Pair(key, value) || exists j :: 0 <= j < |d| && d[j] == Put(d, key, value)[i]
  {
    if d != [] && d[0].key != key && i > 0 {
      PutEntries(d[1..], key, value, i - 1);
      if Put(d, key, value)[i] != Pair(key, value) {
        var j :| 0 <= j < |d[1..]| && d[1..][j] == Put(d[1..], key, value)[i - 1];
        assert d[j + 1] == Put(d, key, value)[i];
      }
    } else if d != [] && i > 0 {
      assert d[i] == Put(d, key, value)[i];
    } else if d != [] && d[0].key != key {
      assert d[0] == Put(d, key, value)[0];
    }
  }

  /** A key already present keeps its place, and a new one comes last. */
  lemma {:induction false} PutPlaces<V>(d: Dict<V>, key: string, value: V)
    ensures key in Keys(d) ==>
      |Put(d, key, value)| == |d| && forall i :: 0 <= i < |d| ==> Put(d, key, value)[i].key == d[i].key
    ensures key !in Keys(d) ==> Put(d, key, value) == d + [Pair(key, value)]
  {
    if d != [] {
      assert d == [d[0]] + d[1..];
      KeysCons(d[0], d[1..]);
      if d[0].key != key { PutPlaces(d[1..], key, value); }
    }
  }
}
