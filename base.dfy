/** Small building blocks shared by every module: the optional value used for
    JavaScript's `undefined`/`null`, and the list operations the source uses
    through `Array.prototype.filter` and `reduce`. */
module Base {

  datatype Option<+T> = None | Some(value: T)

  /** `s.filter(p)`: the elements of `s` that satisfy `p`, in their original order.
      Defined from the last element so that a loop over a prefix can follow it. */
  function Filter<T(==)>(s: seq<T>, p: T -> bool): (r: seq<T>)
    ensures |r| <= |s|
    ensures forall i | 0 <= i < |r| :: p(r[i]) && r[i] in s
    ensures forall i | 0 <= i < |s| && p(s[i]) :: s[i] in r
  {
    if |s| == 0 then []
    else
      assert s == s[..|s| - 1] + [s[|s| - 1]];
      Filter(s[..|s| - 1], p) + (if p(s[|s| - 1]) then [s[|s| - 1]] else [])
  }

  /** Filtering distributes over concatenation. */
  lemma {:induction false} FilterAppend<T>(a: seq<T>, b: seq<T>, p: T -> bool)
    ensures Filter(a + b, p) == Filter(a, p) + Filter(b, p)
    decreases |b|
  {
    if |b| == 0 {
      assert a + b == a;
    } else {
      var b' := b[..|b| - 1];
      assert (a + b)[..|a + b| - 1] == a + b';
      FilterAppend(a, b', p);
    }
  }

  /** Filtering a list extended by one element. */
  lemma FilterSnoc<T>(s: seq<T>, x: T, p: T -> bool)
    ensures Filter(s + [x], p) == Filter(s, p) + (if p(x) then [x] else [])
  {
    assert (s + [x])[..|s|] == s;
  }

  /** Filtering a list by a test all of its elements pass keeps it whole. */
  lemma {:induction false} FilterAll<T>(s: seq<T>, p: T -> bool)
    requires forall i | 0 <= i < |s| :: p(s[i])
    ensures Filter(s, p) == s
  {
    if |s| > 0 {
      var init := s[..|s| - 1];
      FilterAll(init, p);
      assert Filter(s, p) == Filter(init, p) + [s[|s| - 1]];
      assert init + [s[|s| - 1]] == s;
    }
  }

  /** Filtering a list by a test none of its elements pass leaves nothing. */
  lemma {:induction false} FilterNone<T>(s: seq<T>, p: T -> bool)
    requires forall i | 0 <= i < |s| :: !p(s[i])
    ensures Filter(s, p) == []
  {
    if |s| > 0 {
      FilterNone(s[..|s| - 1], p);
    }
  }

  /** `s.reduce((sum, x) => sum + f(x), 0)` over exact rationals. */
  function SumBy<T>(s: seq<T>, f: T -> real): real
  {
    if |s| == 0 then 0.0 else SumBy(s[..|s| - 1], f) + f(s[|s| - 1])
  }

  lemma SumBySnoc<T>(s: seq<T>, x: T, f: T -> real)
    ensures SumBy(s + [x], f) == SumBy(s, f) + f(x)
  {
    assert (s + [x])[..|s|] == s;
  }

  /** Membership in a filtered list, both ways. */
  lemma FilterMember<T>(s: seq<T>, p: T -> bool, x: T)
    ensures x in Filter(s, p) <==> x in s && p(x)
  {
    if x in s && p(x) {
      var i :| 0 <= i < |s| && s[i] == x;
    }
    if x in Filter(s, p) {
      var r := Filter(s, p);
      var i :| 0 <= i < |r| && r[i] == x;
    }
  }

  /** A sum of non-negative terms is non-negative. */
  lemma {:induction false} SumByNonNegative<T>(s: seq<T>, f: T -> real)
    requires forall i | 0 <= i < |s| :: f(s[i]) >= 0.0
    ensures SumBy(s, f) >= 0.0
  {
    if |s| > 0 {
      SumByNonNegative(s[..|s| - 1], f);
    }
  }

  /** The elements of `s` in order of first appearance, each once: the
      iteration order of a JavaScript `Set` or `Map` filled from `s`, which
      keeps the first position of every element. */
  function Dedup<T(==,!new)>(s: seq<T>): (r: seq<T>)
    ensures forall i, j | 0 <= i < j < |r| :: r[i] != r[j]
    ensures forall x :: x in r <==> x in s
    ensures s != [] ==> r != [] && r[0] == s[0]
  {
    if |s| == 0 then []
    else
      var d := Dedup(s[..|s| - 1]);
      assert forall x :: x in s <==> x in s[..|s| - 1] || x == s[|s| - 1];
      if s[|s| - 1] in d then d else d + [s[|s| - 1]]
  }

  /** `Set.add`: a new element goes to the end, a known one stays put. */
  lemma DedupSnoc<T(!new)>(s: seq<T>, x: T)
    ensures Dedup(s + [x]) == if x in Dedup(s) then Dedup(s) else Dedup(s) + [x]
  {
    assert (s + [x])[..|s|] == s;
  }

  /** The test `keyOf(x) === k` of a grouping by key. */
  function KeyIs<T(!new), K(==)>(keyOf: T -> K, k: K): (test: T -> bool)
    ensures forall x :: test(x) == (keyOf(x) == k)
  {
    x => keyOf(x) == k
  }

  /** How many elements of `s` have key `k`. */
  function CountKey<T(==,!new), K(==)>(s: seq<T>, keyOf: T -> K, k: K): nat
  {
    |Filter(s, KeyIs(keyOf, k))|
  }

  /** The counts of the keys in `keys`, added up. */
  function SumCounts<T(==,!new), K(==)>(keys: seq<K>, s: seq<T>, keyOf: T -> K): nat
  {
    if |keys| == 0 then 0
    else SumCounts(keys[..|keys| - 1], s, keyOf) + CountKey(s, keyOf, keys[|keys| - 1])
  }

  /** How often `k` occurs in `keys`. */
  function Occurrences<K(==)>(keys: seq<K>, k: K): nat
  {
    if |keys| == 0 then 0
    else Occurrences(keys[..|keys| - 1], k) + (if keys[|keys| - 1] == k then 1 else 0)
  }

  /** Adding one element to `s` adds one to the count of its key, once per
      occurrence of that key in `keys`. */
  lemma {:induction false} SumCountsSnoc<T(!new), K>(keys: seq<K>, s: seq<T>, x: T, keyOf: T -> K)
    ensures SumCounts(keys, s + [x], keyOf) == SumCounts(keys, s, keyOf) + Occurrences(keys, keyOf(x))
  {
    if |keys| > 0 {
      SumCountsSnoc(keys[..|keys| - 1], s, x, keyOf);
      assert (s + [x])[..|s|] == s;
    }
  }

  lemma {:induction false} OccurrencesDistinct<K>(keys: seq<K>, k: K)
    requires forall i, j | 0 <= i < j < |keys| :: keys[i] != keys[j]
    ensures Occurrences(keys, k) == if k in keys then 1 else 0
  {
    if |keys| > 0 {
      var init := keys[..|keys| - 1];
      OccurrencesDistinct(init, k);
      assert forall x :: x in keys <==> x in init || x == keys[|keys| - 1];
      if keys[|keys| - 1] == k {
        assert forall i | 0 <= i < |init| :: init[i] == keys[i] != keys[|keys| - 1];
      }
    }
  }

  /** Grouping by key is a partition: when `keys` lists every key of `s`
      once, the group sizes add up to `|s|`. */
  lemma {:induction false} PartitionCounts<T(!new), K>(keys: seq<K>, s: seq<T>, keyOf: T -> K)
    requires forall i, j | 0 <= i < j < |keys| :: keys[i] != keys[j]
    requires forall i | 0 <= i < |s| :: keyOf(s[i]) in keys
    ensures SumCounts(keys, s, keyOf) == |s|
    decreases |s|
  {
    if |s| == 0 {
      SumCountsEmpty(keys, s, keyOf);
    } else {
      var init := s[..|s| - 1];
      var x := s[|s| - 1];
      assert init + [x] == s;
      PartitionCounts(keys, init, keyOf);
      SumCountsSnoc(keys, init, x, keyOf);
      OccurrencesDistinct(keys, keyOf(x));
    }
  }

  lemma {:induction false} SumCountsEmpty<T(!new), K>(keys: seq<K>, s: seq<T>, keyOf: T -> K)
    requires s == []
    ensures SumCounts(keys, s, keyOf) == 0
  {
    if |keys| > 0 {
      SumCountsEmpty(keys[..|keys| - 1], s, keyOf);
    }
  }
}
