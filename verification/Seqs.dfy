/** Small vocabulary shared by the other modules: an optional value and a few sequence functions. */
module Seqs {

  datatype Option<+T> = None | Some(value: T)

  ghost predicate Distinct<T>(s: seq<T>) {
    forall p, q :: 0 <= p < q < |s| ==> s[p] != s[q]
  }

  ghost predicate Below(s: seq<nat>, n: nat) {
    forall p :: 0 <= p < |s| ==> s[p] < n
  }

  ghost predicate Ascending(s: seq<nat>) {
    forall p, q :: 0 <= p < q < |s| ==> s[p] < s[q]
  }

  function Iota(n: nat): (s: seq<nat>)
    ensures |s| == n && forall p :: 0 <= p < n ==> s[p] == p
  {
    seq(n, p => p)
  }

  lemma DistinctConcat<T>(a: seq<T>, b: seq<T>)
    requires Distinct(a) && Distinct(b) && forall x :: x in a ==> x !in b
    ensures Distinct(a + b)
  {
    forall p, q | 0 <= p < q < |a + b|
      ensures (a + b)[p] != (a + b)[q]
    {
      if p < |a| <= q {
        assert a[p] in a && b[q - |a|] in b;
      }
    }
  }

  lemma DistinctSplit<T>(s: seq<T>, m: nat, p: nat)
    requires Distinct(s) && m <= p < |s|
    ensures s[p] !in s[..m]
  {
  }

  lemma MoveHead<T>(a: seq<T>, b: seq<T>)
    requires b != []
    ensures a + [b[0]] + b[1..] == a + b
  {
  }

  lemma AppendAssoc<T>(a: seq<T>, b: seq<T>, c: seq<T>)
    ensures a + (b + c) == a + b + c
  {
  }

  function Flatten<T>(ss: seq<seq<T>>): seq<T> {
    if ss == [] then [] else ss[0] + Flatten(ss[1..])
  }

  lemma {:induction false} FlattenSnoc<T>(ss: seq<seq<T>>, s: seq<T>)
    ensures Flatten(ss + [s]) == Flatten(ss) + s
  {
    if ss == [] {
      assert [s][1..] == [] && s + [] == s;
    } else {
      FlattenSnoc(ss[1..], s);
      assert (ss + [s])[1..] == ss[1..] + [s];
      AppendAssoc(ss[0], Flatten(ss[1..]), s);
    }
  }

  /** The numbers below n. */
  function Range(n: nat): (r: set<nat>)
    ensures |r| == n
    ensures forall k: nat :: k in r <==> k < n
  {
    if n == 0 then {} else Range(n - 1) + {n - 1}
  }

  /** Pairwise different numbers below n are at most n many. */
  lemma {:induction false} DistinctBound(s: seq<nat>, n: nat)
    requires Distinct(s) && Below(s, n)
    ensures |s| <= n
  {
    var elements := set k | k in s;
    SetOfDistinct(s);
    assert Range(n) == elements + (Range(n) - elements);
  }

  /** Pairwise different numbers that are exactly the numbers below n are n many. */
  lemma DistinctCount(s: seq<nat>, n: nat)
    requires Distinct(s) && forall k: nat :: k in s <==> k < n
    ensures |s| == n
  {
    var elements := set k | k in s;
    SetOfDistinct(s);
    assert forall p :: 0 <= p < |s| ==> s[p] in s;
    DistinctBound(s, n);
    assert Range(n) - elements == {};
    assert Range(n) <= elements;
    assert elements == Range(n) + (elements - Range(n));
  }

  /** If there are exactly n of them, every number below n occurs. */
  lemma {:induction false} DistinctCovers(s: seq<nat>, n: nat, k: nat)
    requires Distinct(s) && Below(s, n) && |s| == n && k < n
    ensures k in s
  {
    if k !in s {
      assert Distinct(s + [k]);
      DistinctBound(s + [k], n);
    }
  }

  lemma {:induction false} SetOfDistinct<T>(s: seq<T>)
    requires Distinct(s)
    ensures |set x | x in s| == |s|
  {
    if s == [] {
      assert (set x | x in s) == {};
    } else {
      var rest := s[1..];
      SetOfDistinct(rest);
      assert s[0] !in rest;
      assert (set x | x in s) == {s[0]} + (set x | x in rest);
    }
  }

  lemma SameElementsSameLength<T>(a: seq<T>, b: seq<T>)
    requires Distinct(a) && Distinct(b) && forall x :: x in a <==> x in b
    ensures |a| == |b|
  {
    SetOfDistinct(a);
    SetOfDistinct(b);
    assert (set x | x in a) == (set x | x in b);
  }
}
