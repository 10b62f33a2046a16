/** Python's order on strings, and `sorted` of a set of them. */
module Ordering {

  predicate Le(a: string, b: string) {
    a == "" || (b != "" && (a[0] < b[0] || (a[0] == b[0] && Le(a[1..], b[1..]))))
  }

  lemma {:induction false} LeTotal(a: string, b: string)
    ensures Le(a, b) || Le(b, a)
    ensures Le(a, b) && Le(b, a) ==> a == b
  {
    if a != "" && b != "" {
      LeTotal(a[1..], b[1..]);
      assert a == [a[0]] + a[1..] && b == [b[0]] + b[1..];
    }
  }

  /** Lexicographic: the first difference decides, and a prefix comes first. */
  ghost predicate DiffersAt(a: string, b: string, k: nat) { k < |a| && k < |b| && a[..k] == b[..k] && a[k] < b[k] }

  lemma {:induction false} LeExact(a: string, b: string)
    ensures Le(a, b) <==> a <= b || exists k: nat :: DiffersAt(a, b, k)
  {
    if a != "" && b != "" {
      LeExact(a[1..], b[1..]);
      assert a == [a[0]] + a[1..] && b == [b[0]] + b[1..];
      if a[0] == b[0] {
        if k: nat :| DiffersAt(a[1..], b[1..], k) {
          assert a[..k + 1] == [a[0]] + a[1..][..k] && b[..k + 1] == [b[0]] + b[1..][..k];
          assert DiffersAt(a, b, k + 1);
        }
        if k: nat :| DiffersAt(a, b, k) {
          assert k > 0 && a[1..][..k - 1] == a[..k][1..] && b[1..][..k - 1] == b[..k][1..];
          assert DiffersAt(a[1..], b[1..], k - 1);
        }
      } else {
        if a[0] < b[0] { assert DiffersAt(a, b, 0); }
        if k: nat :| DiffersAt(a, b, k) { assert k > 0 ==> a[..k][0] == b[..k][0]; }
      }
    }
  }

  lemma {:induction false} LeTransitive(a: string, b: string, c: string)
    requires Le(a, b) && Le(b, c)
    ensures Le(a, c)
  {
    if a != "" && a[0] == b[0] && b[0] == c[0] { LeTransitive(a[1..], b[1..], c[1..]); }
  }

  lemma {:induction false} LeastExists(s: set<string>)
    requires s != {}
    ensures exists x :: x in s && forall y :: y in s ==> Le(x, y)
  {
    var a :| a in s;
    LeTotal(a, a);
    if s != {a} {
      LeastExists(s - {a});
      var x :| x in s - {a} && forall y :: y in s - {a} ==> Le(x, y);
      LeTotal(a, x);
      if Le(a, x) {
        forall y | y in s ensures Le(a, y) { if y != a { LeTransitive(a, x, y); } }
      } else {
        assert forall y :: y in s ==> Le(x, y);
      }
    }
  }

  function Least(s: set<string>): (x: string)
    requires s != {}
    ensures x in s && forall y :: y in s ==> Le(x, y)
  {
    LeastExists(s);
    forall x, y | x in s && y in s && (forall z :: z in s ==> Le(x, z)) && (forall z :: z in s ==> Le(y, z))
      ensures x == y
    {
      LeTotal(x, y);
    }
    var x :| x in s && forall y :: y in s ==> Le(x, y);
    x
  }

  /** `sorted(s)`. */
  function Sorted(s: set<string>): (r: seq<string>)
    ensures |r| == |s| && forall x :: x in r <==> x in s
  {
    if s == {} then [] else [Least(s)] + Sorted(s - {Least(s)})
  }

  lemma {:induction false} SortedAscends(s: set<string>)
    ensures forall i, j :: 0 <= i < j < |s| ==> Sorted(s)[i] != Sorted(s)[j] && Le(Sorted(s)[i], Sorted(s)[j])
  {
    if s != {} {
      var rest := Sorted(s - {Least(s)});
      SortedAscends(s - {Least(s)});
      forall j | 0 <= j < |rest| ensures rest[j] != Least(s) && Le(Least(s), rest[j]) { assert rest[j] in rest; }
    }
  }
}
