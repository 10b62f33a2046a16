/** Vocabulary shared by the other modules. */
module Prelude {

  datatype Option<+T> = None | Some(value: T)

  function CountIf<T>(xs: seq<T>, p: T -> bool): (n: nat)
    ensures n <= |xs|
  {
    if xs == [] then 0 else CountIf(xs[..|xs| - 1], p) + if p(xs[|xs| - 1]) then 1 else 0
  }

  lemma CountIfAppend<T>(xs: seq<T>, x: T, p: T -> bool)
    ensures CountIf(xs + [x], p) == CountIf(xs, p) + if p(x) then 1 else 0
  {
    assert (xs + [x])[..|xs|] == xs;
  }

  /** Whatever satisfies `p` satisfies `q`. */
  lemma {:induction false} CountIfMonotone<T>(xs: seq<T>, p: T -> bool, q: T -> bool)
    requires forall x :: x in xs && p(x) ==> q(x)
    ensures CountIf(xs, p) <= CountIf(xs, q)
  {
    if xs != [] {
      assert xs[|xs| - 1] in xs;
      CountIfMonotone(xs[..|xs| - 1], p, q);
    }
  }

  /** `sub` is obtained from `all` by dropping elements and keeping the order of the rest. */
  ghost predicate Subsequence<T>(sub: seq<T>, all: seq<T>)
    decreases |all|
  {
    || sub == []
    || (all != [] && if sub[0] == all[0] then Subsequence(sub[1..], all[1..]) else Subsequence(sub, all[1..]))
  }

  lemma {:induction false} SubsequenceDropHead<T>(sub: seq<T>, all: seq<T>)
    requires sub != [] && Subsequence(sub, all)
    ensures Subsequence(sub[1..], all)
    decreases |all|
  {
    var tail := sub[1..];
    if sub[0] != all[0] {
      SubsequenceDropHead(sub, all[1..]);
    }
    if tail != [] && tail[0] == all[0] {
      SubsequenceDropHead(tail, all[1..]);
    }
  }

  lemma SubsequenceSkip<T>(sub: seq<T>, x: T, all: seq<T>)
    requires Subsequence(sub, all)
    ensures Subsequence(sub, [x] + all)
  {
    assert ([x] + all)[1..] == all;
    if sub != [] && sub[0] == x {
      SubsequenceDropHead(sub, all);
    }
  }

  lemma SubsequenceKeep<T>(sub: seq<T>, x: T, all: seq<T>)
    requires Subsequence(sub, all)
    ensures Subsequence([x] + sub, [x] + all)
  {
    assert ([x] + all)[1..] == all && ([x] + sub)[1..] == sub;
  }

  lemma {:induction false} SubsequenceSkipPrefix<T>(sub: seq<T>, prefix: seq<T>, all: seq<T>)
    requires Subsequence(sub, all)
    ensures Subsequence(sub, prefix + all)
  {
    if prefix == [] {
      assert prefix + all == all;
    } else {
      SubsequenceSkipPrefix(sub, prefix[1..], all);
      SubsequenceSkip(sub, prefix[0], prefix[1..] + all);
      assert prefix + all == [prefix[0]] + (prefix[1..] + all);
    }
  }

  lemma {:induction false} SubsequenceTransitive<T>(a: seq<T>, b: seq<T>, c: seq<T>)
    requires Subsequence(a, b) && Subsequence(b, c)
    ensures Subsequence(a, c)
    decreases |c|
  {
    if a != [] && b != [] {
      if b[0] == c[0] {
        if a[0] == b[0] {
          SubsequenceTransitive(a[1..], b[1..], c[1..]);
        } else {
          SubsequenceTransitive(a, b[1..], c[1..]);
          SubsequenceSkip(a, c[0], c[1..]);
          assert c == [c[0]] + c[1..];
        }
      } else {
        SubsequenceTransitive(a, b, c[1..]);
        SubsequenceSkip(a, c[0], c[1..]);
        assert c == [c[0]] + c[1..];
      }
    }
  }

  lemma Regroup<T>(a: seq<T>, b: seq<T>, c: seq<T>)
    ensures a + (b + c) == a + b + c
  {
  }

  /** Position of the last element that satisfies `p`. */
  ghost predicate LastWhere<T>(xs: seq<T>, p: T -> bool, i: nat) {
    i < |xs| && p(xs[i]) && forall j :: i < j < |xs| ==> !p(xs[j])
  }

  ghost predicate Nowhere<T>(xs: seq<T>, p: T -> bool) { forall i :: 0 <= i < |xs| ==> !p(xs[i]) }

  lemma LastWhereNext<T>(xs: seq<T>, x: T, p: T -> bool, i: nat)
    ensures p(x) ==> LastWhere(xs + [x], p, |xs|)
    ensures !p(x) && LastWhere(xs, p, i) ==> LastWhere(xs + [x], p, i)
    ensures Nowhere(xs + [x], p) <==> Nowhere(xs, p) && !p(x)
  {
    if Nowhere(xs + [x], p) {
      forall j | 0 <= j < |xs| ensures !p(xs[j]) { assert (xs + [x])[j] == xs[j]; }
      assert (xs + [x])[|xs|] == x;
    }
  }

  // ----- text -----

  /** `separator.join(parts)`. */
  function Join(separator: string, parts: seq<string>): string {
    if parts == [] then "" else if |parts| == 1 then parts[0] else parts[0] + separator + Join(separator, parts[1..])
  }

  lemma {:induction false} JoinAppend(separator: string, parts: seq<string>, part: string)
    ensures Join(separator, parts + [part]) == if parts == [] then part else Join(separator, parts) + separator + part
  {
    if parts == [] {
      assert parts + [part] == [part];
    } else {
      var rest := parts[1..];
      assert (parts + [part])[1..] == rest + [part];
      JoinAppend(separator, rest, part);
      if rest != [] {
        Regroup(parts[0] + separator, Join(separator, rest), separator + part);
        Regroup(Join(separator, rest), separator, part);
        Regroup(parts[0] + separator + Join(separator, rest), separator, part);
      }
    }
  }

  /** Length of the longest prefix all of whose characters satisfy `p`. */
  function CountWhile(s: string, p: char -> bool): (n: nat)
    ensures n <= |s| && (forall i :: 0 <= i < n ==> p(s[i])) && (n < |s| ==> !p(s[n]))
  {
    if s != "" && p(s[0]) then 1 + CountWhile(s[1..], p) else 0
  }

  /** Position of the first `c`, or |s|. */
  function IndexOf(s: string, c: char): (k: nat)
    ensures k <= |s| && c !in s[..k] && (k < |s| ==> s[k] == c)
    ensures k == |s| <==> c !in s
  {
    if s == "" || s[0] == c then 0 else
    assert s[..1 + IndexOf(s[1..], c)] == [s[0]] + s[1..][..IndexOf(s[1..], c)];
    1 + IndexOf(s[1..], c)
  }

  lemma {:induction false} IndexOfExact(s: string, c: char, k: nat)
    requires k < |s| && s[k] == c && c !in s[..k]
    ensures IndexOf(s, c) == k
  {
    if k > 0 {
      assert s[..k][0] == s[0];
      assert s[..k][1..] == s[1..][..k - 1];
      IndexOfExact(s[1..], c, k - 1);
    }
  }

  lemma {:induction false} IndexOfNotBefore(s: string, c: char, k: nat)
    requires k <= |s| && forall i :: 0 <= i < k ==> s[i] != c
    ensures k <= IndexOf(s, c)
  {
    if k > 0 { IndexOfNotBefore(s[1..], c, k - 1); }
  }

  lemma {:induction false} CountWhileExact(s: string, p: char -> bool, n: nat)
    requires n <= |s| && (forall i :: 0 <= i < n ==> p(s[i])) && (n < |s| ==> !p(s[n]))
    ensures CountWhile(s, p) == n
  {
    if n > 0 { CountWhileExact(s[1..], p, n - 1); }
  }
}
