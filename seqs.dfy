/**
 Order-preserving selections over sequences of rows: filtering (pandas
 boolean indexing and dropna) and removal of exact duplicates keeping the
 first occurrence (pandas drop_duplicates with its default keep='first').
 Both are characterised by the indices of the input they keep.
 */
module Seqs {

  /** No two positions hold equal values. */
  ghost predicate NoDup<T>(s: seq<T>) {
    forall i, j :: 0 <= i < j < |s| ==> s[i] != s[j]
  }

  /** Strictly increasing indices below n: a selection that keeps the original order. */
  ghost predicate Selection(idx: seq<nat>, n: nat) {
    (forall k :: 0 <= k < |idx| ==> idx[k] < n) &&
    (forall k, l :: 0 <= k < l < |idx| ==> idx[k] < idx[l])
  }

  /** r is s read at the indices idx, in order. */
  ghost predicate PicksAt<T>(r: seq<T>, s: seq<T>, idx: seq<nat>) {
    |r| == |idx| && forall k :: 0 <= k < |idx| ==> idx[k] < |s| && r[k] == s[idx[k]]
  }

  // ---------------------------------------------------------------------
  // Filtering
  // ---------------------------------------------------------------------

  /** The elements of s satisfying p, in their original order. */
  function Filter<T>(s: seq<T>, p: T -> bool): (r: seq<T>)
    ensures |r| <= |s|
    ensures forall k :: 0 <= k < |r| ==> r[k] in s && p(r[k])
    ensures forall i :: 0 <= i < |s| && p(s[i]) ==> s[i] in r
  {
    if s == [] then []
    else Filter(s[..|s| - 1], p) + (if p(s[|s| - 1]) then [s[|s| - 1]] else [])
  }

  /** The positions of s whose element satisfies p, in increasing order. */
  ghost function FilterIndices<T>(s: seq<T>, p: T -> bool): (idx: seq<nat>)
    ensures Selection(idx, |s|)
    ensures forall i :: 0 <= i < |s| ==> (i in idx <==> p(s[i]))
  {
    if s == [] then []
    else FilterIndices(s[..|s| - 1], p) + (if p(s[|s| - 1]) then [|s| - 1] else [])
  }

  /** Filter keeps exactly the positions that satisfy p, in order. */
  lemma {:induction false} FilterPicks<T>(s: seq<T>, p: T -> bool)
    ensures PicksAt(Filter(s, p), s, FilterIndices(s, p))
  {
    if s != [] {
      var init := s[..|s| - 1];
      FilterPicks(init, p);
    }
  }

  /** A row occurs in the filtered sequence as often as in s when it satisfies p, else never. */
  lemma {:induction false} FilterMultiset<T>(s: seq<T>, p: T -> bool, x: T)
    ensures multiset(Filter(s, p))[x] == if p(x) then multiset(s)[x] else 0
  {
    if s != [] {
      var init := s[..|s| - 1];
      FilterMultiset(init, p, x);
      assert s == init + [s[|s| - 1]];
    }
  }

  lemma {:induction false} FilterSubMultiset<T>(s: seq<T>, p: T -> bool)
    ensures multiset(Filter(s, p)) <= multiset(s)
  {
    forall x ensures multiset(Filter(s, p))[x] <= multiset(s)[x] {
      FilterMultiset(s, p, x);
    }
  }

  /** Filtering a duplicate-free sequence leaves it duplicate-free. */
  lemma {:induction false} FilterNoDup<T>(s: seq<T>, p: T -> bool)
    requires NoDup(s)
    ensures NoDup(Filter(s, p))
  {
    var r, idx := Filter(s, p), FilterIndices(s, p);
    FilterPicks(s, p);
    forall i, j | 0 <= i < j < |r| ensures r[i] != r[j] {
      assert idx[i] < idx[j];
    }
  }

  // ---------------------------------------------------------------------
  // Duplicate removal, keeping first occurrences
  // ---------------------------------------------------------------------

  /** s without repeated values; a value is kept where it first occurs. */
  function Dedup<T(==)>(s: seq<T>): (r: seq<T>)
    ensures NoDup(r)
    ensures forall k :: 0 <= k < |r| ==> r[k] in s
    ensures forall i :: 0 <= i < |s| ==> s[i] in r
    ensures |r| <= |s|
  {
    if s == [] then []
    else
      var prefix := Dedup(s[..|s| - 1]);
      if s[|s| - 1] in prefix then prefix else prefix + [s[|s| - 1]]
  }

  /** The positions of s holding the first occurrence of their value. */
  ghost function FirstIndices<T>(s: seq<T>): (idx: seq<nat>)
    ensures Selection(idx, |s|)
    ensures forall i :: 0 <= i < |s| ==> (i in idx <==> s[i] !in s[..i])
  {
    if s == [] then []
    else
      var init := s[..|s| - 1];
      assert forall i :: 0 <= i < |init| ==> init[..i] == s[..i];
      FirstIndices(init) + (if s[|s| - 1] in init then [] else [|s| - 1])
  }

  /** Dedup keeps exactly the first occurrences, in their original order. */
  lemma {:induction false} DedupPicksFirst<T>(s: seq<T>)
    ensures PicksAt(Dedup(s), s, FirstIndices(s))
  {
    if s != [] {
      var init, x := s[..|s| - 1], s[|s| - 1];
      DedupPicksFirst(init);
      var r, idx := Dedup(init), FirstIndices(init);
      assert forall k :: 0 <= k < |idx| ==> idx[k] < |init| && s[idx[k]] == r[k];
      if x in init {
        assert Dedup(s) == r && FirstIndices(s) == idx;
      } else {
        assert x !in r;
        var r2, idx2 := r + [x], idx + [|s| - 1];
        assert Dedup(s) == r2 && FirstIndices(s) == idx2;
        forall k | 0 <= k < |idx2| ensures idx2[k] < |s| && r2[k] == s[idx2[k]] {
          if k < |idx| {
            assert idx2[k] == idx[k] && r2[k] == r[k];
          }
        }
      }
    }
  }

  /** A sequence without duplicates is its own deduplication. */
  lemma {:induction false} DedupOfDistinct<T>(s: seq<T>)
    requires NoDup(s)
    ensures Dedup(s) == s
  {
    if s != [] {
      var init := s[..|s| - 1];
      DedupOfDistinct(init);
      assert s[|s| - 1] !in init;
    }
  }

  /** Removing duplicates twice changes nothing more. */
  lemma DedupIdempotent<T>(s: seq<T>)
    ensures Dedup(Dedup(s)) == Dedup(s)
  {
    DedupOfDistinct(Dedup(s));
  }

  /** The first n elements (pandas head(n)). */
  function Take<T>(s: seq<T>, n: nat): (r: seq<T>)
    ensures |r| == if n < |s| then n else |s|
    ensures multiset(r) <= multiset(s)
    ensures forall k :: 0 <= k < |r| ==> r[k] == s[k]
  {
    var m := if n < |s| then n else |s|;
    assert s == s[..m] + s[m..];
    s[..m]
  }
}
