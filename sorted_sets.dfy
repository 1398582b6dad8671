/**
  The two Python library calls the miner leans on when it canonicalises
  pairs and orders groups: `sorted` applied to a set of labels, and
  `itertools.combinations(xs, 2)`. Labels are integers here; their order
  stands for Python's `<` on the labels.
 */
module SortedSets {

  /** Strictly increasing: sorted and free of duplicates. */
  ghost predicate StrictlyIncreasing(s: seq<int>)
  {
    forall i, j | 0 <= i < j < |s| :: s[i] < s[j]
  }

  /** The least element of a non-empty finite set. */
  function Min(s: set<int>): (m: int)
    requires s != {}
    ensures m in s && forall y | y in s :: m <= y
  {
    MinExists(s);
    var m :| m in s && forall y | y in s :: m <= y;
    m
  }

  /** An element of a non-empty set. */
  lemma ElementOf<T>(s: set<T>) returns (x: T)
    requires s != {}
    ensures x in s
  {
    if forall y :: y !in s {
      assert false;
    }
    x :| x in s;
  }

  lemma {:induction false} MinExists(s: set<int>)
    requires s != {}
    ensures exists m :: m in s && forall y | y in s :: m <= y
    decreases |s|
  {
    var x := ElementOf(s);
    if s != {x} {
      MinExists(s - {x});
      var m :| m in s - {x} && forall y | y in s - {x} :: m <= y;
      var least := if x < m then x else m;
      forall y | y in s
        ensures least <= y
      {
        if y != x {
          assert y in s - {x};
        }
      }
      assert least in s;
    } else {
      assert forall y | y in s :: x <= y;
    }
  }

  /** `sorted(s)`: the elements of a set in ascending order. */
  function Sorted(s: set<int>): (r: seq<int>)
    ensures |r| == |s|
    ensures forall x :: x in r <==> x in s
    ensures StrictlyIncreasing(r)
    decreases |s|
  {
    if s == {} then []
    else
      var m := Min(s);
      var rest := Sorted(s - {m});
      IncreasingCons(m, rest);
      [m] + rest
  }

  /** A label below every entry of a strictly increasing sequence can head it. */
  lemma IncreasingCons(m: int, rest: seq<int>)
    requires StrictlyIncreasing(rest)
    requires forall x | x in rest :: m < x
    ensures StrictlyIncreasing([m] + rest)
  {
    var out := [m] + rest;
    forall i, j | 0 <= i < j < |out|
      ensures out[i] < out[j]
    {
      assert out[j] == rest[j - 1] && rest[j - 1] in rest;
      if i > 0 {
        assert out[i] == rest[i - 1];
      }
    }
  }

  /**
    `combinations(s, 2)`: every pair of positions i < j, in the order
    itertools produces them (by first position, then by second).
   */
  function Combinations2(s: seq<int>): (c: seq<(int, int)>)
    ensures |c| == |s| * (|s| - 1) / 2
  {
    if |s| == 0 then []
    else
      var rest := Combinations2(s[1..]);
      assert |rest| == (|s| - 1) * (|s| - 2) / 2;
      HeadPairs(s) + rest
  }

  /** The pairs `a < b` of elements of a set. */
  ghost function CanonicalPairs(b: set<int>): set<(int, int)>
  {
    set x, y | x in b && y in b && x < y :: (x, y)
  }

  /** No element occurs twice. */
  ghost predicate Distinct<T>(s: seq<T>)
  {
    forall i, j | 0 <= i < j < |s| :: s[i] != s[j]
  }

  /** The first two entries of a sequence occur in it and, without repeats, differ. */
  lemma FirstTwo<T>(s: seq<T>)
    ensures |s| > 1 ==> s[0] in s && s[1] in s && (Distinct(s) ==> s[0] != s[1])
  {
  }

  /** A sequence without repeats whose every entry is `x`, and that holds `x`, is `[x]`. */
  lemma DistinctSingleton<T>(s: seq<T>, x: T)
    requires Distinct(s) && x in s
    requires forall y | y in s :: y == x
    ensures s == [x]
  {
    FirstTwo(s);
    if |s| > 1 {
      assert false;
    }
    assert s[0] in s;
  }

  /** The pairs `combinations` puts before the tail's: the head with each later element. */
  function HeadPairs(s: seq<int>): (h: seq<(int, int)>)
    requires |s| > 0
    ensures |h| == |s| - 1
    ensures forall k | 0 <= k < |h| :: h[k] == (s[0], s[k + 1])
  {
    seq(|s| - 1, k requires 0 <= k < |s| - 1 => (s[0], s[k + 1]))
  }

  lemma CombinationsUnfold(s: seq<int>)
    requires |s| > 0
    ensures Combinations2(s) == HeadPairs(s) + Combinations2(s[1..])
  {
  }

  /** In a sequence without repeats, an element does not occur before its own position. */
  lemma DistinctNotBefore<T>(s: seq<T>, t: nat)
    requires Distinct(s) && t < |s|
    ensures s[t] !in s[..t]
  {
    forall i | 0 <= i < t
      ensures s[..t][i] != s[t]
    {
      assert s[..t][i] == s[i];
    }
  }

  /**
    Applied to a strictly increasing sequence, `combinations(s, 2)` yields
    exactly the pairs `a < b` of its elements.
   */
  lemma {:induction false} CombinationsOfIncreasing(s: seq<int>)
    requires StrictlyIncreasing(s)
    ensures forall p :: p in Combinations2(s) <==> p.0 in s && p.1 in s && p.0 < p.1
  {
    if |s| > 0 {
      var tail := s[1..];
      assert StrictlyIncreasing(tail);
      CombinationsOfIncreasing(tail);
      var head := HeadPairs(s);
      CombinationsUnfold(s);
      forall p: (int, int) | p.0 in s && p.1 in s && p.0 < p.1
        ensures p in Combinations2(s)
      {
        if p.0 == s[0] {
          var j :| 0 <= j < |s| && s[j] == p.1;
          assert head[j - 1] == p;
        } else {
          assert p.0 in tail && p.1 in tail;
        }
      }
      forall p | p in head
        ensures p.0 in s && p.1 in s && p.0 < p.1
      {
        var k :| 0 <= k < |head| && head[k] == p;
        assert s[k + 1] in s;
      }
    }
  }

  /** Joining two sequences without repeats and without a common element gives no repeats. */
  lemma ConcatDistinct<T>(xs: seq<T>, ys: seq<T>)
    requires Distinct(xs) && Distinct(ys)
    requires forall x | x in xs :: x !in ys
    ensures Distinct(xs + ys)
  {
    var c := xs + ys;
    forall i, j | 0 <= i < j < |c|
      ensures c[i] != c[j]
    {
      if j < |xs| {
        assert c[i] == xs[i] && c[j] == xs[j];
      } else if i >= |xs| {
        assert c[i] == ys[i - |xs|] && c[j] == ys[j - |xs|];
      } else {
        assert c[i] == xs[i] && c[j] == ys[j - |xs|];
        assert xs[i] in xs;
      }
    }
  }

  /** `combinations(s, 2)` of a strictly increasing sequence lists no pair twice. */
  lemma {:induction false} CombinationsDistinct(s: seq<int>)
    requires StrictlyIncreasing(s)
    ensures Distinct(Combinations2(s))
  {
    if |s| > 0 {
      var tail := s[1..];
      assert StrictlyIncreasing(tail);
      CombinationsDistinct(tail);
      CombinationsOfIncreasing(tail);
      var head := HeadPairs(s);
      forall i, j | 0 <= i < j < |head|
        ensures head[i] != head[j]
      {
        assert head[i].1 == s[i + 1] < s[j + 1] == head[j].1;
      }
      forall p | p in head
        ensures p !in Combinations2(tail)
      {
        assert p.0 == s[0] && s[0] !in tail;
      }
      ConcatDistinct(head, Combinations2(tail));
      CombinationsUnfold(s);
    }
  }

  /** The pairs of a sorted set, as `combinations(sorted(b), 2)` lists them. */
  lemma PairsOfSortedSet(b: set<int>)
    ensures forall p :: p in Combinations2(Sorted(b)) <==> p in CanonicalPairs(b)
    ensures Distinct(Combinations2(Sorted(b)))
  {
    CombinationsOfIncreasing(Sorted(b));
    CombinationsDistinct(Sorted(b));
    forall p | p in Combinations2(Sorted(b))
      ensures p in CanonicalPairs(b)
    {
      assert p == (p.0, p.1);
    }
  }
}
