/** Sequence facts shared by the grouping code of the pipeline: distinctness,
    first-occurrence deduplication (what a Python dict's or a JavaScript
    Set's insertion order yields), occurrence counts and sums. */
module Seqs {

  predicate NoDup<T(==)>(s: seq<T>) {
    forall i, j :: 0 <= i < j < |s| ==> s[i] != s[j]
  }

  /** The distinct elements of `s`, each at the position of its first occurrence. */
  function Dedup<T(==,!new)>(s: seq<T>): (r: seq<T>)
    ensures NoDup(r)
    ensures forall x :: x in r <==> x in s
    ensures |r| <= |s|
  {
    if s == [] then []
    else
      var d := Dedup(s[..|s| - 1]);
      if s[|s| - 1] in d then d else d + [s[|s| - 1]]
  }

  /** Deduplicating a sequence that starts with a duplicate-free prefix keeps that prefix. */
  lemma {:induction false} DedupKeepsDistinctPrefix<T(!new)>(a: seq<T>, b: seq<T>)
    requires NoDup(a)
    ensures |a| <= |Dedup(a + b)| && Dedup(a + b)[..|a|] == a
    decreases |b|
  {
    if b == [] {
      assert a + b == a;
      DedupOfDistinct(a);
    } else {
      assert (a + b)[..|a + b| - 1] == a + b[..|b| - 1];
      DedupKeepsDistinctPrefix(a, b[..|b| - 1]);
    }
  }

  lemma {:induction false} DedupOfDistinct<T(!new)>(a: seq<T>)
    requires NoDup(a)
    ensures Dedup(a) == a
    decreases |a|
  {
    if a != [] {
      var p := a[..|a| - 1];
      DedupOfDistinct(p);
      assert a[|a| - 1] !in p;
      assert p + [a[|a| - 1]] == a;
    }
  }

  lemma Snoc<T>(s: seq<T>)
    requires s != []
    ensures s[..|s| - 1] + [s[|s| - 1]] == s
  {
  }

  /** Splitting the last element off the second part of a concatenation. */
  lemma AppendSnoc<T>(a: seq<T>, b: seq<T>)
    requires b != []
    ensures a + b == (a + b[..|b| - 1]) + [b[|b| - 1]]
    ensures b == b[..|b| - 1] + [b[|b| - 1]]
  {
  }

  /** Appending an element adds it at the end unless it was already seen. */
  lemma DedupSnoc<T(!new)>(s: seq<T>, x: T)
    ensures Dedup(s + [x]) == if x in s then Dedup(s) else Dedup(s) + [x]
  {
    assert (s + [x])[..|s + [x]| - 1] == s;
  }

  /** Deduplicating the head first does not change a deduplication. */
  lemma {:induction false} DedupOfDedupPrefix<T(!new)>(a: seq<T>, b: seq<T>)
    ensures Dedup(Dedup(a) + b) == Dedup(a + b)
    decreases |b|
  {
    if b == [] {
      assert Dedup(a) + b == Dedup(a) && a + b == a;
      DedupOfDistinct(Dedup(a));
    } else {
      var p, x := b[..|b| - 1], b[|b| - 1];
      DedupOfDedupPrefix(a, p);
      assert Dedup(a) + b == (Dedup(a) + p) + [x];
      assert a + b == (a + p) + [x];
      DedupSnoc(Dedup(a) + p, x);
      DedupSnoc(a + p, x);
    }
  }

  /** Deduplicating the tail first does not change a deduplication. */
  lemma DedupSwap<T(!new)>(a: seq<T>, b: seq<T>)
    ensures Dedup(Dedup(a) + Dedup(b)) == Dedup(a + b)
  {
    DedupOfDedupPrefix(a, Dedup(b));
    DedupOfDedupSuffix(a, b);
  }

  lemma {:induction false} DedupOfDedupSuffix<T(!new)>(a: seq<T>, b: seq<T>)
    ensures Dedup(a + Dedup(b)) == Dedup(a + b)
    decreases |b|
  {
    if b == [] {
      assert Dedup(b) == [];
      assert a + b == a;
    } else {
      var p, x := b[..|b| - 1], b[|b| - 1];
      assert b == p + [x];
      DedupOfDedupSuffix(a, p);
      DedupSuffixStep(a, p, x);
    }
  }

  lemma DedupSuffixStep<T(!new)>(a: seq<T>, p: seq<T>, x: T)
    requires Dedup(a + Dedup(p)) == Dedup(a + p)
    ensures Dedup(a + Dedup(p + [x])) == Dedup(a + (p + [x]))
  {
    assert a + (p + [x]) == (a + p) + [x];
    DedupSnoc(p, x);
    DedupSnoc(a + p, x);
    if x !in p {
      assert a + (Dedup(p) + [x]) == (a + Dedup(p)) + [x];
      DedupSnoc(a + Dedup(p), x);
      assert x in a + Dedup(p) <==> x in a + p;
    } else {
      assert x in a + p;
    }
  }

  /** How many times `x` occurs in `s`. */
  function Occ<T(==)>(x: T, s: seq<T>): (n: nat)
    ensures n <= |s|
    ensures n == 0 <==> x !in s
  {
    if s == [] then 0
    else Occ(x, s[..|s| - 1]) + (if s[|s| - 1] == x then 1 else 0)
  }

  lemma {:induction false} OccNoDup<T>(x: T, s: seq<T>)
    requires NoDup(s) && x in s
    ensures Occ(x, s) == 1
    decreases |s|
  {
    var p := s[..|s| - 1];
    if s[|s| - 1] == x {
      assert x !in p;
    } else {
      OccNoDup(x, p);
    }
  }

  /** The occurrences in `s` of every element of `keys`, added up. */
  function OccSum<T(==)>(keys: seq<T>, s: seq<T>): nat {
    if keys == [] then 0 else OccSum(keys[..|keys| - 1], s) + Occ(keys[|keys| - 1], s)
  }

  lemma {:induction false} OccSumAppend<T>(keys: seq<T>, s: seq<T>, x: T)
    ensures OccSum(keys, s + [x]) == OccSum(keys, s) + Occ(x, keys)
    decreases |keys|
  {
    if keys != [] {
      assert (s + [x])[..|s + [x]| - 1] == s;
      OccSumAppend(keys[..|keys| - 1], s, x);
    }
  }

  lemma {:induction false} OccSumEmpty<T>(keys: seq<T>)
    ensures OccSum(keys, []) == 0
    decreases |keys|
  {
    if keys != [] {
      OccSumEmpty(keys[..|keys| - 1]);
    }
  }

  /** Counting every element of `s` once per distinct key that covers it counts `s`. */
  lemma {:induction false} OccSumCovers<T>(keys: seq<T>, s: seq<T>)
    requires NoDup(keys)
    requires forall x :: x in s ==> x in keys
    ensures OccSum(keys, s) == |s|
    decreases |s|
  {
    if s == [] {
      OccSumEmpty(keys);
    } else {
      var p, x := s[..|s| - 1], s[|s| - 1];
      assert s == p + [x];
      OccSumCovers(keys, p);
      OccSumAppend(keys, p, x);
      OccNoDup(x, keys);
    }
  }

  function Sum(s: seq<nat>): nat {
    if s == [] then 0 else Sum(s[..|s| - 1]) + s[|s| - 1]
  }

  lemma {:induction false} SumConcat(a: seq<nat>, b: seq<nat>)
    ensures Sum(a + b) == Sum(a) + Sum(b)
    decreases |b|
  {
    if b == [] {
      assert a + b == a;
    } else {
      assert (a + b)[..|a + b| - 1] == a + b[..|b| - 1];
      SumConcat(a, b[..|b| - 1]);
    }
  }
  /** The elements of `s` that `keep` accepts, in order. */
  function Filter<T>(s: seq<T>, keep: T -> bool): seq<T> {
    if s == [] then []
    else Filter(s[..|s| - 1], keep) + if keep(s[|s| - 1]) then [s[|s| - 1]] else []
  }

  lemma FilterSnoc<T>(s: seq<T>, x: T, keep: T -> bool)
    ensures Filter(s + [x], keep) == Filter(s, keep) + if keep(x) then [x] else []
  {
    assert (s + [x])[..|s|] == s;
  }

  /** Filtering a concatenation is concatenating the filtered parts. */
  lemma {:induction false} FilterAppend<T>(a: seq<T>, b: seq<T>, keep: T -> bool)
    ensures Filter(a + b, keep) == Filter(a, keep) + Filter(b, keep)
    decreases |b|
  {
    if b == [] {
      assert a + b == a;
    } else {
      var n := |b| - 1;
      FilterAppend(a, b[..n], keep);
      AppendSnoc(a, b);
      FilterSnoc(a + b[..n], b[n], keep);
      FilterSnoc(b[..n], b[n], keep);
    }
  }

  /** A kept value occurs as often as in the input; a rejected one not at all. */
  lemma {:induction false} FilterOcc<T>(s: seq<T>, keep: T -> bool, x: T)
    ensures Occ(x, Filter(s, keep)) == if keep(x) then Occ(x, s) else 0
    decreases |s|
  {
    if s != [] {
      var p, y := s[..|s| - 1], s[|s| - 1];
      FilterOcc(p, keep, x);
      var fp := Filter(p, keep);
      assert Occ(x, s) == Occ(x, p) + if y == x then 1 else 0;
      if keep(y) {
        var f := fp + [y];
        assert Filter(s, keep) == f;
        assert f[..|fp|] == fp;
        assert Occ(x, f) == Occ(x, fp) + if y == x then 1 else 0;
      } else {
        assert Filter(s, keep) == fp;
      }
    }
  }
}
