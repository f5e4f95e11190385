/** The array methods of JavaScript the model needs, as functions over sequences. */
module Seqs {
  import opened Wrappers

  /** `s.filter(p)` */
  function Filter<T>(s: seq<T>, p: T -> bool): (r: seq<T>)
    ensures |r| <= |s|
    ensures forall i :: 0 <= i < |r| ==> r[i] in s && p(r[i])
    ensures forall i :: 0 <= i < |s| && p(s[i]) ==> s[i] in r
    decreases |s|
  {
    if |s| == 0 then [] else (if p(s[0]) then [s[0]] else []) + Filter(s[1..], p)
  }

  /** `s.length` of `s.filter(p)` */
  function Count<T>(s: seq<T>, p: T -> bool): nat {
    |Filter(s, p)|
  }

  /** `s.map(f)` */
  function Map<T, U>(s: seq<T>, f: T -> U): (r: seq<U>)
    ensures |r| == |s|
    ensures forall i :: 0 <= i < |s| ==> r[i] == f(s[i])
  {
    seq(|s|, i requires 0 <= i < |s| => f(s[i]))
  }

  /** `s.findIndex(p)`, with `None` for JavaScript's -1. */
  function FindIndex<T>(s: seq<T>, p: T -> bool): (r: Option<nat>)
    ensures r.Some? ==> r.value < |s| && p(s[r.value])
    ensures r.Some? ==> forall j :: 0 <= j < r.value ==> !p(s[j])
    ensures r.None? <==> forall j :: 0 <= j < |s| ==> !p(s[j])
  {
    FindIndexFrom(s, p, 0)
  }

  function FindIndexFrom<T>(s: seq<T>, p: T -> bool, i: nat): (r: Option<nat>)
    requires i <= |s|
    ensures r.Some? ==> i <= r.value < |s| && p(s[r.value])
    ensures r.Some? ==> forall j :: i <= j < r.value ==> !p(s[j])
    ensures r.None? <==> forall j :: i <= j < |s| ==> !p(s[j])
    decreases |s| - i
  {
    if i == |s| then None
    else if p(s[i]) then Some(i)
    else FindIndexFrom(s, p, i + 1)
  }

  /** Putting the first element back in front of a prefix of the rest gives a prefix of the whole. */
  lemma ConsPrefix<T>(s: seq<T>, p: seq<T>)
    requires |s| > 0 && |p| < |s| && p == s[1..][..|p|]
    ensures [s[0]] + p == s[..|p| + 1]
  {
  }

  /** A prefix of `s`, followed by a prefix of `t` only once all of `s` is taken, is a prefix of `s + t`. */
  lemma JoinedPrefix<T>(s: seq<T>, t: seq<T>, a: seq<T>, b: seq<T>)
    requires |a| <= |s| && a == s[..|a|]
    requires |b| <= |t| && b == t[..|b|]
    requires |a| < |s| ==> b == []
    ensures a + b == (s + t)[..|a + b|]
  {
    if |a| == |s| {
      assert (s + t)[..|a + b|] == s + t[..|b|];
    }
  }

  /** Two positions that are each the first to satisfy `p` are the same position. */
  lemma FirstMatchUnique<T>(s: seq<T>, p: T -> bool, i: nat, k: nat)
    requires i < |s| && k < |s| && p(s[i]) && p(s[k])
    requires forall j :: 0 <= j < i ==> !p(s[j])
    requires forall j :: 0 <= j < k ==> !p(s[j])
    ensures i == k
  {
  }

  /** `s.find(p)`, with `None` for `undefined`. */
  function Find<T>(s: seq<T>, p: T -> bool): (r: Option<T>)
    ensures r.Some? ==> r.value in s && p(r.value)
    ensures r.None? <==> forall j :: 0 <= j < |s| ==> !p(s[j])
  {
    match FindIndex(s, p)
    case Some(i) => Some(s[i])
    case None => None
  }

  lemma {:induction false} FilterKeepsAll<T>(s: seq<T>, p: T -> bool)
    requires forall j :: 0 <= j < |s| ==> p(s[j])
    ensures Filter(s, p) == s
    decreases |s|
  {
    if |s| > 0 {
      FilterKeepsAll(s[1..], p);
    }
  }

  /** Filtering by `p` and then by `q` is filtering once by their conjunction `pq`. */
  lemma {:induction false} FilterFusion<T>(s: seq<T>, p: T -> bool, q: T -> bool, pq: T -> bool)
    requires forall j :: 0 <= j < |s| ==> pq(s[j]) == (p(s[j]) && q(s[j]))
    ensures Filter(Filter(s, p), q) == Filter(s, pq)
    decreases |s|
  {
    if |s| > 0 {
      FilterFusion(s[1..], p, q, pq);
      var head := if p(s[0]) then [s[0]] else [];
      FilterAppend(head, Filter(s[1..], p), q);
      if p(s[0]) {
        assert Filter(head, q) == if q(s[0]) then [s[0]] else [] by {
          assert head[1..] == [];
        }
      }
    }
  }

  lemma {:induction false} FilterAppend<T>(a: seq<T>, b: seq<T>, p: T -> bool)
    ensures Filter(a + b, p) == Filter(a, p) + Filter(b, p)
    decreases |a|
  {
    if |a| > 0 {
      FilterAppend(a[1..], b, p);
      assert (a + b)[1..] == a[1..] + b;
    } else {
      assert a + b == b;
    }
  }
}
