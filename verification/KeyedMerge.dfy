/**
  "Push it unless an entry with the same key is already there": the loop that every list of the pod
  spec is merged with. `MergeByKey` is that loop as a function; its laws are what the plugin merger
  relies on.
 */
module KeyedMerge {

  predicate HasKey<T, K(==)>(xs: seq<T>, k: K, key: T -> K) {
    exists i | 0 <= i < |xs| :: key(xs[i]) == k
  }

  function MergeByKey<T, K(==)>(base: seq<T>, adds: seq<T>, key: T -> K): seq<T>
    decreases |adds|
  {
    if adds == [] then base
    else
      var last := |adds| - 1;
      var merged := MergeByKey(base, adds[..last], key);
      if HasKey(merged, key(adds[last]), key) then merged else merged + [adds[last]]
  }

  ghost predicate UniqueKeys<T(!new), K>(xs: seq<T>, key: T -> K) {
    forall p, q :: 0 <= p < q < |xs| ==> key(xs[p]) != key(xs[q])
  }

  /** The loop itself. `added` is what was pushed. */
  method PushMissing<T, K(==)>(base: seq<T>, adds: seq<T>, key: T -> K) returns (merged: seq<T>, added: seq<T>)
    ensures merged == base + added
    ensures merged == MergeByKey(base, adds, key)
  {
    merged, added := base, [];
    for i := 0 to |adds|
      invariant merged == base + added
      invariant merged == MergeByKey(base, adds[..i], key)
    {
      assert adds[..i + 1][..i] == adds[..i];
      if !HasKey(merged, key(adds[i]), key) {
        merged := merged + [adds[i]];
        added := added + [adds[i]];
      }
    }
    assert adds[..|adds|] == adds;
  }

  /** Nothing already in the list moves, changes or disappears. */
  lemma {:induction false} MergeKeepsPrefix<T, K>(base: seq<T>, adds: seq<T>, key: T -> K)
    ensures base <= MergeByKey(base, adds, key)
    decreases |adds|
  {
    if adds == [] {
    } else {
      MergeKeepsPrefix(base, adds[..|adds| - 1], key);
    }
  }

  lemma {:induction false} MergeKeepsUnique<T(!new), K>(base: seq<T>, adds: seq<T>, key: T -> K)
    requires UniqueKeys(base, key)
    ensures UniqueKeys(MergeByKey(base, adds, key), key)
    decreases |adds|
  {
    if adds == [] {
    } else {
      MergeKeepsUnique(base, adds[..|adds| - 1], key);
    }
  }

  /** The keys afterwards are those of the list and those of the additions. */
  lemma {:induction false} MergeKeys<T, K>(base: seq<T>, adds: seq<T>, key: T -> K, k: K)
    ensures HasKey(MergeByKey(base, adds, key), k, key) <==> HasKey(base, k, key) || HasKey(adds, k, key)
    decreases |adds|
  {
    if adds == [] {
    } else {
      var last := |adds| - 1;
      var merged := MergeByKey(base, adds[..last], key);
      MergeKeys(base, adds[..last], key, k);
      HasKeyAppend(adds[..last], adds[last], key, k);
      HasKeyAppend(merged, adds[last], key, k);
      assert adds == adds[..last] + [adds[last]];
    }
  }

  lemma HasKeyAppend<T, K>(xs: seq<T>, x: T, key: T -> K, k: K)
    ensures HasKey(xs + [x], k, key) <==> HasKey(xs, k, key) || key(x) == k
  {
    assert (xs + [x])[|xs|] == x;
    if HasKey(xs, k, key) {
      var i :| 0 <= i < |xs| && key(xs[i]) == k;
      assert (xs + [x])[i] == xs[i];
    }
  }

  /** The entry found under a key: the first one. */
  function Find<T, K(==)>(xs: seq<T>, k: K, key: T -> K): (r: T)
    requires HasKey(xs, k, key)
    ensures r in xs && key(r) == k
  {
    if key(xs[0]) == k then xs[0]
    else
      assert HasKey(xs[1..], k, key) by {
        var i :| 0 <= i < |xs| && key(xs[i]) == k;
        assert xs[1..][i - 1] == xs[i];
      }
      Find(xs[1..], k, key)
  }

  lemma {:induction false} FindAppend<T, K>(xs: seq<T>, x: T, key: T -> K, k: K)
    ensures HasKey(xs, k, key) ==> HasKey(xs + [x], k, key) && Find(xs + [x], k, key) == Find(xs, k, key)
    ensures !HasKey(xs, k, key) && key(x) == k ==> HasKey(xs + [x], k, key) && Find(xs + [x], k, key) == x
  {
    HasKeyAppend(xs, x, key, k);
    if xs == [] {
    } else {
      FindAppend(xs[1..], x, key, k);
      assert (xs + [x])[1..] == xs[1..] + [x];
      assert xs == [xs[0]] + xs[1..];
      if HasKey(xs, k, key) && key(xs[0]) != k {
        var i :| 0 <= i < |xs| && key(xs[i]) == k;
        assert xs[1..][i - 1] == xs[i];
      }
      assert forall i :: 0 <= i < |xs[1..]| ==> xs[1..][i] == xs[i + 1];
    }
  }

  /** The first writer wins: under every key stands what a search of the concatenation finds first. */
  lemma {:induction false} FirstWriterWins<T, K>(base: seq<T>, adds: seq<T>, key: T -> K, k: K)
    requires HasKey(base + adds, k, key)
    ensures HasKey(MergeByKey(base, adds, key), k, key)
    ensures Find(MergeByKey(base, adds, key), k, key) == Find(base + adds, k, key)
    decreases |adds|
  {
    if adds == [] {
      assert base + adds == base;
    } else {
      var last := |adds| - 1;
      var before, merged := base + adds[..last], MergeByKey(base, adds[..last], key);
      assert base + adds == before + [adds[last]];
      HasKeyAppend(before, adds[last], key, k);
      FindAppend(before, adds[last], key, k);
      FindAppend(merged, adds[last], key, k);
      SameKeys(base, adds[..last], key, k);
      if HasKey(before, k, key) {
        FirstWriterWins(base, adds[..last], key, k);
      }
    }
  }

  lemma SameKeys<T, K>(base: seq<T>, adds: seq<T>, key: T -> K, k: K)
    ensures HasKey(MergeByKey(base, adds, key), k, key) <==> HasKey(base + adds, k, key)
  {
    MergeKeys(base, adds, key, k);
    assert forall i :: 0 <= i < |base| ==> (base + adds)[i] == base[i];
    assert forall i :: 0 <= i < |adds| ==> (base + adds)[|base| + i] == adds[i];
  }

  /** Merging twice is merging the concatenation once. */
  lemma {:induction false} MergeConcat<T, K>(base: seq<T>, a: seq<T>, b: seq<T>, key: T -> K)
    ensures MergeByKey(MergeByKey(base, a, key), b, key) == MergeByKey(base, a + b, key)
    decreases |b|
  {
    if b == [] {
      assert a + b == a;
    } else {
      var last := |b| - 1;
      MergeConcat(base, a, b[..last], key);
      assert (a + b)[..|a + b| - 1] == a + b[..last];
    }
  }

  /** Additions whose keys are all there change nothing. */
  lemma {:induction false} MergeAbsorbs<T, K>(base: seq<T>, adds: seq<T>, key: T -> K)
    requires forall i :: 0 <= i < |adds| ==> HasKey(base, key(adds[i]), key)
    ensures MergeByKey(base, adds, key) == base
    decreases |adds|
  {
    if adds == [] {
    } else {
      MergeAbsorbs(base, adds[..|adds| - 1], key);
    }
  }
}
