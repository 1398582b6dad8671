/**
  The support calculator: the relative frequency of an itemset among the
  baskets, i.e. the share of baskets that are supersets of the itemset.
  Baskets and itemsets are sets of integer item labels; ratios are exact reals.
 */
module Support {

  /**
    How many baskets contain every item of `itemset`: the generator sum
    `sum(1 for basket in baskets if itemset.issubset(basket))`, counted
    from the last basket back so that a prefix of the baskets is counted by
    the same function.
   */
  function Count(baskets: seq<set<int>>, itemset: set<int>): (n: nat)
    ensures n <= |baskets|
  {
    if baskets == [] then 0
    else
      var last := |baskets| - 1;
      Count(baskets[..last], itemset) + (if itemset <= baskets[last] then 1 else 0)
  }

  /** `calculate_support`: zero on no baskets, otherwise the share of baskets containing the itemset. */
  function CalculateSupport(baskets: seq<set<int>>, itemset: set<int>): (r: real)
    ensures baskets == [] ==> r == 0.0
    ensures 0.0 <= r <= 1.0
  {
    if baskets == [] then 0.0
    else Count(baskets, itemset) as real / |baskets| as real
  }

  /** The indices of the baskets that contain the itemset. */
  ghost function ContainingIndices(baskets: seq<set<int>>, itemset: set<int>): set<nat>
  {
    set i: nat | i < |baskets| && itemset <= baskets[i]
  }

  /** Extending the baskets by one basket counts it, or not, on top of the rest. */
  lemma CountStep(baskets: seq<set<int>>, k: nat, itemset: set<int>)
    requires k < |baskets|
    ensures Count(baskets[..k + 1], itemset) == Count(baskets[..k], itemset) + (if itemset <= baskets[k] then 1 else 0)
  {
    assert baskets[..k + 1][..k] == baskets[..k];
  }

  /** The count is the number of baskets that are supersets of the itemset. */
  lemma {:induction false} CountIsNumberOfContainingBaskets(baskets: seq<set<int>>, itemset: set<int>)
    ensures Count(baskets, itemset) == |ContainingIndices(baskets, itemset)|
  {
    if baskets != [] {
      var last := |baskets| - 1;
      var front := baskets[..last];
      CountIsNumberOfContainingBaskets(front, itemset);
      var before := ContainingIndices(front, itemset);
      var after := ContainingIndices(baskets, itemset);
      if itemset <= baskets[last] {
        assert after == before + {last};
      } else {
        assert after == before;
      }
    }
  }

  /** Counts of a concatenation add up: counting splits over any partition of the baskets. */
  lemma {:induction false} CountConcat(xs: seq<set<int>>, ys: seq<set<int>>, itemset: set<int>)
    ensures Count(xs + ys, itemset) == Count(xs, itemset) + Count(ys, itemset)
    decreases |ys|
  {
    if ys != [] {
      var last := |ys| - 1;
      assert (xs + ys)[..|xs + ys| - 1] == xs + ys[..last];
      CountConcat(xs, ys[..last], itemset);
    } else {
      assert xs + ys == xs;
    }
  }

  /** The order of the baskets does not matter: swapping two blocks keeps the count. */
  lemma CountSwapBlocks(xs: seq<set<int>>, ys: seq<set<int>>, itemset: set<int>)
    ensures Count(xs + ys, itemset) == Count(ys + xs, itemset)
  {
    CountConcat(xs, ys, itemset);
    CountConcat(ys, xs, itemset);
  }

  /** A larger itemset is contained in no more baskets than a smaller one. */
  lemma {:induction false} CountAntitone(baskets: seq<set<int>>, small: set<int>, large: set<int>)
    requires small <= large
    ensures Count(baskets, large) <= Count(baskets, small)
  {
    if baskets != [] {
      CountAntitone(baskets[..|baskets| - 1], small, large);
    }
  }

  /** Support is monotone: growing the itemset never raises its support. */
  lemma SupportAntitone(baskets: seq<set<int>>, small: set<int>, large: set<int>)
    requires small <= large
    ensures CalculateSupport(baskets, large) <= CalculateSupport(baskets, small)
  {
    CountAntitone(baskets, small, large);
    if baskets != [] {
      RatioMonotone(Count(baskets, large) as real, Count(baskets, small) as real, |baskets| as real);
    }
  }

  /** Support is positive exactly when some basket contains the itemset. */
  lemma SupportPositiveIff(baskets: seq<set<int>>, itemset: set<int>)
    ensures CalculateSupport(baskets, itemset) > 0.0 <==> Count(baskets, itemset) > 0
  {
  }

  /** Dividing by the same positive number keeps the order. */
  lemma RatioMonotone(a: real, b: real, n: real)
    requires 0.0 < n && a <= b
    ensures a / n <= b / n
  {
    assert b / n - a / n == (b - a) / n;
  }

  /** Every basket contains the itemset exactly when all of them are counted. */
  lemma {:induction false} CountAllIff(baskets: seq<set<int>>, itemset: set<int>)
    ensures Count(baskets, itemset) == |baskets| <==> forall i | 0 <= i < |baskets| :: itemset <= baskets[i]
  {
    if baskets != [] {
      var last := |baskets| - 1;
      var front := baskets[..last];
      CountAllIff(front, itemset);
      if forall i | 0 <= i < |baskets| :: itemset <= baskets[i] {
        assert forall i | 0 <= i < |front| :: itemset <= front[i];
      }
      if Count(baskets, itemset) == |baskets| {
        assert itemset <= baskets[last];
        assert forall i | 0 <= i < |front| :: itemset <= front[i];
      }
    }
  }

  /** No basket contains the itemset exactly when none of them is counted. */
  lemma {:induction false} CountZeroIff(baskets: seq<set<int>>, itemset: set<int>)
    ensures Count(baskets, itemset) == 0 <==> forall i | 0 <= i < |baskets| :: !(itemset <= baskets[i])
  {
    if baskets != [] {
      var last := |baskets| - 1;
      var front := baskets[..last];
      CountZeroIff(front, itemset);
      if Count(baskets, itemset) == 0 {
        assert forall i | 0 <= i < |front| :: !(itemset <= front[i]);
      }
      if forall i | 0 <= i < |baskets| :: !(itemset <= baskets[i]) {
        assert forall i | 0 <= i < |front| :: !(itemset <= front[i]);
      }
    }
  }

  /** Support is one exactly when there are baskets and every one of them contains the itemset. */
  lemma SupportOneIff(baskets: seq<set<int>>, itemset: set<int>)
    ensures CalculateSupport(baskets, itemset) == 1.0 <==> baskets != [] && forall i | 0 <= i < |baskets| :: itemset <= baskets[i]
  {
    CountAllIff(baskets, itemset);
    if baskets != [] {
      var n := |baskets| as real;
      var c := Count(baskets, itemset) as real;
      assert c / n * n == c;
    }
  }

  /** Support is zero exactly when no basket contains the itemset (trivially so on no baskets). */
  lemma SupportZeroIff(baskets: seq<set<int>>, itemset: set<int>)
    ensures CalculateSupport(baskets, itemset) == 0.0 <==> forall i | 0 <= i < |baskets| :: !(itemset <= baskets[i])
  {
    CountZeroIff(baskets, itemset);
  }

  /** The empty itemset is contained in every basket, so its support is one whenever there are baskets. */
  lemma SupportOfEmptyItemset(baskets: seq<set<int>>)
    requires baskets != []
    ensures CalculateSupport(baskets, {}) == 1.0
  {
    SupportOneIff(baskets, {});
  }
}
