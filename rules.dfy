/**
  The rule generator: one pass over the baskets fills a per-item and a
  per-pair counter, pairs whose support reaches the threshold become rules
  carrying support, confidence and lift, and the rules are ranked by lift.
  Counts are exact, ratios exact reals.
 */
module Rules {
  import opened SortedSets
  import opened Support

  /** One row of the rule table: the rule `itemA -> itemB` and its metrics. */
  datatype Rule = Rule(itemA: int, itemB: int, support: real, confidence: real, lift: real)

  /** `d.get(k, 0)` on a counter dictionary. */
  function Get<K>(counts: map<K, nat>, key: K): (n: nat)
    ensures key in counts ==> n == counts[key]
    ensures key !in counts ==> n == 0
  {
    if key in counts then counts[key] else 0
  }

  /** `counts` holds, for every item, the number of baskets containing it, and no zero entries. */
  ghost predicate IsItemTally(counts: map<int, nat>, baskets: seq<set<int>>)
  {
    forall x ::
      && Get(counts, x) == Count(baskets, {x})
      && (x in counts ==> counts[x] > 0)
  }

  /**
    `counts` is keyed by canonical pairs `a < b` only, and holds for each the
    number of baskets containing both items, with no zero entries.
   */
  ghost predicate IsPairTally(counts: map<(int, int), nat>, baskets: seq<set<int>>)
  {
    forall p: (int, int) ::
      && (p in counts ==> p.0 < p.1 && counts[p] > 0)
      && (p.0 < p.1 ==> Get(counts, p) == Count(baskets, {p.0, p.1}))
  }

  /** The item tally of `counted`, plus one for every item of `extra`. */
  ghost predicate ItemsCountedPlus(counts: map<int, nat>, counted: seq<set<int>>, extra: set<int>)
  {
    forall x ::
      && Get(counts, x) == Count(counted, {x}) + (if x in extra then 1 else 0)
      && (x in counts ==> counts[x] > 0)
  }

  /** The pair tally of `counted`, plus one for every pair listed in `extra`. */
  ghost predicate PairsCountedPlus(counts: map<(int, int), nat>, counted: seq<set<int>>, extra: seq<(int, int)>)
  {
    forall p: (int, int) ::
      && (p in counts ==> p.0 < p.1 && counts[p] > 0)
      && (p.0 < p.1 ==> Get(counts, p) == Count(counted, {p.0, p.1}) + (if p in extra then 1 else 0))
  }

  /** The pair `a < b` occurs in some basket and its support reaches the threshold. */
  ghost predicate Passes(baskets: seq<set<int>>, a: int, b: int, minSupport: real)
  {
    a < b && Count(baskets, {a, b}) > 0 && CalculateSupport(baskets, {a, b}) >= minSupport
  }

  /**
    The rule the miner reports for a co-occurring pair, with each metric
    stated through the support calculator: support of both items,
    confidence as that over the support of `a`, lift as confidence over the
    support of `b`.
   */
  function RuleFor(baskets: seq<set<int>>, a: int, b: int): (r: Rule)
    requires Count(baskets, {a, b}) > 0
    ensures r.itemA == a && r.itemB == b
    ensures 0.0 < r.support <= 1.0
    ensures 0.0 < r.confidence <= 1.0
    ensures 0.0 < r.lift
  {
    var supportAB := CalculateSupport(baskets, {a, b});
    var supportA := CalculateSupport(baskets, {a});
    var supportB := CalculateSupport(baskets, {b});
    SupportAntitone(baskets, {a}, {a, b});
    SupportAntitone(baskets, {b}, {a, b});
    SupportPositiveIff(baskets, {a, b});
    MetricBounds(supportAB, supportA, supportB);
    Rule(a, b, supportAB, supportAB / supportA, supportAB / supportA / supportB)
  }

  /** With `0 < s(AB) <= s(A), s(B) <= 1`, confidence lies in (0, 1] and lift is positive. */
  lemma MetricBounds(supportAB: real, supportA: real, supportB: real)
    requires 0.0 < supportAB <= supportA <= 1.0
    requires supportAB <= supportB <= 1.0
    ensures 0.0 < supportAB / supportA <= 1.0
    ensures 0.0 < supportAB / supportA / supportB
  {
  }

  /** Lift is one exactly when the pair co-occurs as often as independence predicts. */
  lemma LiftOneIffIndependent(baskets: seq<set<int>>, a: int, b: int)
    requires Count(baskets, {a, b}) > 0
    ensures RuleFor(baskets, a, b).lift == 1.0 <==>
      CalculateSupport(baskets, {a, b}) == CalculateSupport(baskets, {a}) * CalculateSupport(baskets, {b})
  {
    var supportAB := CalculateSupport(baskets, {a, b});
    var supportA := CalculateSupport(baskets, {a});
    var supportB := CalculateSupport(baskets, {b});
    SupportAntitone(baskets, {a}, {a, b});
    SupportAntitone(baskets, {b}, {a, b});
    SupportPositiveIff(baskets, {a, b});
    assert RuleFor(baskets, a, b).lift == supportAB / supportA / supportB;
    LiftOneIffProduct(supportAB, supportA, supportB);
  }

  lemma LiftOneIffProduct(supportAB: real, supportA: real, supportB: real)
    requires 0.0 < supportA && 0.0 < supportB
    ensures supportAB / supportA / supportB == 1.0 <==> supportAB == supportA * supportB
  {
    var lift := supportAB / supportA / supportB;
    assert lift * supportB * supportA == supportAB;
  }

  /**
    The counting pass: for each basket, every item's counter and every
    canonical pair's counter goes up by one.
   */
  method CountOccurrences(baskets: seq<set<int>>) returns (itemCounts: map<int, nat>, pairCounts: map<(int, int), nat>)
    ensures IsItemTally(itemCounts, baskets)
    ensures IsPairTally(pairCounts, baskets)
  {
    itemCounts, pairCounts := map[], map[];
    for k := 0 to |baskets|
      invariant IsItemTally(itemCounts, baskets[..k])
      invariant IsPairTally(pairCounts, baskets[..k])
    {
      itemCounts := CountBasketItems(itemCounts, baskets[k], baskets[..k]);
      var combos;
      pairCounts, combos := CountBasketPairs(pairCounts, baskets[k], baskets[..k]);
      ItemTallyStep(itemCounts, baskets, k);
      PairTallyStep(pairCounts, baskets, k, combos);
    }
    assert baskets[..|baskets|] == baskets;
  }

  /**
    `for item in basket: item_counts[item] = item_counts.get(item, 0) + 1`,
    visiting the items of the set in no particular order.
   */
  method CountBasketItems(itemCounts: map<int, nat>, basket: set<int>, ghost counted: seq<set<int>>)
    returns (updated: map<int, nat>)
    requires IsItemTally(itemCounts, counted)
    ensures ItemsCountedPlus(updated, counted, basket)
  {
    updated := itemCounts;
    var rest := basket;
    while rest != {}
      invariant rest <= basket
      invariant ItemsCountedPlus(updated, counted, basket - rest)
      decreases rest
    {
      ghost var someItem := ElementOf(rest);
      var item :| item in rest;
      CountItem(updated, counted, basket - rest, item);
      updated := updated[item := Get(updated, item) + 1];
      assert basket - (rest - {item}) == (basket - rest) + {item};
      rest := rest - {item};
    }
    assert basket - rest == basket;
  }

  /**
    `for pair in combinations(sorted(basket), 2): pair_counts[pair] =
    pair_counts.get(pair, 0) + 1`; `combos` is the list of pairs visited,
    which holds each canonical pair of the basket once.
   */
  method CountBasketPairs(pairCounts: map<(int, int), nat>, basket: set<int>, ghost counted: seq<set<int>>)
    returns (updated: map<(int, int), nat>, combos: seq<(int, int)>)
    requires IsPairTally(pairCounts, counted)
    ensures forall p :: p in combos <==> p in CanonicalPairs(basket)
    ensures PairsCountedPlus(updated, counted, combos)
  {
    updated := pairCounts;
    combos := Combinations2(Sorted(basket));
    PairsOfSortedSet(basket);
    assert combos[..0] == [];
    for t := 0 to |combos|
      invariant PairsCountedPlus(updated, counted, combos[..t])
    {
      var pair := combos[t];
      assert pair in CanonicalPairs(basket);
      CountPair(updated, counted, combos, t);
      updated := updated[pair := Get(updated, pair) + 1];
    }
    assert combos[..|combos|] == combos;
  }

  /** A counted pair's items are counted too, each at least as often as the pair. */
  lemma PairItemsCounted(itemCounts: map<int, nat>, pairCounts: map<(int, int), nat>, baskets: seq<set<int>>, pair: (int, int))
    requires IsItemTally(itemCounts, baskets) && IsPairTally(pairCounts, baskets)
    requires pair in pairCounts
    ensures pair.0 < pair.1 && pairCounts[pair] == Count(baskets, {pair.0, pair.1}) > 0
    ensures pair.0 in itemCounts && itemCounts[pair.0] == Count(baskets, {pair.0})
    ensures pair.1 in itemCounts && itemCounts[pair.1] == Count(baskets, {pair.1})
    ensures pairCounts[pair] <= itemCounts[pair.0] && pairCounts[pair] <= itemCounts[pair.1]
  {
    var (a, b) := pair;
    assert Get(pairCounts, pair) == Count(baskets, {a, b});
    CountAntitone(baskets, {a}, {a, b});
    CountAntitone(baskets, {b}, {a, b});
    assert Get(itemCounts, a) == Count(baskets, {a});
    assert Get(itemCounts, b) == Count(baskets, {b});
  }

  /** A pair that passes the threshold has been counted. */
  lemma PassingPairCounted(pairCounts: map<(int, int), nat>, baskets: seq<set<int>>, a: int, b: int, minSupport: real)
    requires IsPairTally(pairCounts, baskets)
    requires Passes(baskets, a, b, minSupport)
    ensures (a, b) in pairCounts
  {
  }

  /** The metrics the loop derives from the counters are those of `RuleFor`. */
  lemma RuleFromCounts(baskets: seq<set<int>>, a: int, b: int, countAB: nat, countA: nat, countB: nat)
    requires |baskets| > 0
    requires countAB == Count(baskets, {a, b}) > 0
    requires countA == Count(baskets, {a}) && countB == Count(baskets, {b})
    ensures countA > 0 && countB > 0
    ensures RuleFor(baskets, a, b) ==
      var n := |baskets| as real;
      var supportAB := countAB as real / n;
      var confidence := supportAB / (countA as real / n);
      Rule(a, b, supportAB, confidence, confidence / (countB as real / n))
  {
    CountAntitone(baskets, {a}, {a, b});
    CountAntitone(baskets, {b}, {a, b});
  }

  /**
    Every rule of the table passes the threshold and carries the metrics of
    its pair; every passing pair has its rule; no rule appears twice.
   */
  ghost predicate IsRuleTable(baskets: seq<set<int>>, minSupport: real, rules: seq<Rule>)
  {
    && Distinct(rules)
    && (forall r | r in rules :: Passes(baskets, r.itemA, r.itemB, minSupport) && r == RuleFor(baskets, r.itemA, r.itemB))
    && (forall a, b | Passes(baskets, a, b, minSupport) :: RuleFor(baskets, a, b) in rules)
  }

  /**
    The metrics pass over `pair_counts.items()`: a pair whose support
    reaches the threshold becomes a rule `item_A -> item_B` in canonical
    order, with confidence and lift derived from the item counters. Pairs
    are visited in no particular order.
   */
  method CollectRules(totalTrans: nat, itemCounts: map<int, nat>, pairCounts: map<(int, int), nat>, minSupport: real,
                      ghost baskets: seq<set<int>>)
    returns (rows: seq<Rule>)
    requires totalTrans == |baskets| > 0
    requires IsItemTally(itemCounts, baskets) && IsPairTally(pairCounts, baskets)
    ensures IsRuleTable(baskets, minSupport, rows)
  {
    rows := [];
    var pending := pairCounts.Keys;
    while pending != {}
      invariant pending <= pairCounts.Keys
      invariant Distinct(rows)
      invariant forall r | r in rows ::
        && (r.itemA, r.itemB) !in pending
        && Passes(baskets, r.itemA, r.itemB, minSupport)
        && r == RuleFor(baskets, r.itemA, r.itemB)
      invariant forall p | p in pairCounts && p !in pending && Passes(baskets, p.0, p.1, minSupport) ::
        RuleFor(baskets, p.0, p.1) in rows
      decreases pending
    {
      ghost var somePair := ElementOf(pending);
      var pair :| pair in pending;
      PairItemsCounted(itemCounts, pairCounts, baskets, pair);
      var (itemA, itemB) := pair;
      var count := pairCounts[pair];
      var supportAB := count as real / totalTrans as real;
      if supportAB >= minSupport {
        RuleFromCounts(baskets, itemA, itemB, count, itemCounts[itemA], itemCounts[itemB]);
        var supportA := itemCounts[itemA] as real / totalTrans as real;
        var supportB := itemCounts[itemB] as real / totalTrans as real;
        var confidence := supportAB / supportA;
        var lift := confidence / supportB;
        var rule := Rule(itemA, itemB, supportAB, confidence, lift);
        assert rule == RuleFor(baskets, itemA, itemB);
        assert Passes(baskets, itemA, itemB, minSupport);
        rows := rows + [rule];
      } else {
        assert !Passes(baskets, itemA, itemB, minSupport);
      }
      pending := pending - {pair};
    }
    forall a, b | Passes(baskets, a, b, minSupport)
      ensures RuleFor(baskets, a, b) in rows
    {
      PassingPairCounted(pairCounts, baskets, a, b, minSupport);
    }
  }

  /** Non-increasing in lift from first to last. */
  ghost predicate SortedByLift(rules: seq<Rule>)
  {
    forall i, j | 0 <= i < j < |rules| :: rules[i].lift >= rules[j].lift
  }

  /** Inserts one rule into a table ranked by lift. */
  function InsertByLift(rule: Rule, ranked: seq<Rule>): (out: seq<Rule>)
    requires SortedByLift(ranked)
    ensures SortedByLift(out)
    ensures multiset(out) == multiset(ranked) + multiset{rule}
    ensures forall x :: x in out <==> x in ranked || x == rule
  {
    if ranked == [] then [rule]
    else
      HeadHasTopLift(ranked);
      if rule.lift >= ranked[0].lift then
        SortedCons(rule, ranked);
        [rule] + ranked
      else
        var rest := InsertByLift(rule, ranked[1..]);
        assert ranked == [ranked[0]] + ranked[1..];
        SortedCons(ranked[0], rest);
        [ranked[0]] + rest
  }

  /** The first rule of a ranked table has the highest lift. */
  lemma HeadHasTopLift(ranked: seq<Rule>)
    requires SortedByLift(ranked) && ranked != []
    ensures forall x | x in ranked :: x.lift <= ranked[0].lift
  {
    forall x | x in ranked
      ensures x.lift <= ranked[0].lift
    {
      var k :| 0 <= k < |ranked| && ranked[k] == x;
    }
  }

  /** A rule whose lift is at least every lift of a ranked table heads it. */
  lemma SortedCons(head: Rule, ranked: seq<Rule>)
    requires SortedByLift(ranked)
    requires forall x | x in ranked :: x.lift <= head.lift
    ensures SortedByLift([head] + ranked)
  {
    var out := [head] + ranked;
    forall i, j | 0 <= i < j < |out|
      ensures out[i].lift >= out[j].lift
    {
      assert out[j] == ranked[j - 1];
      if i > 0 {
        assert out[i] == ranked[i - 1];
      }
    }
  }

  /** Inserting a new rule into a table without repeats leaves none. */
  lemma {:induction false} InsertKeepsDistinct(rule: Rule, ranked: seq<Rule>)
    requires SortedByLift(ranked) && Distinct(ranked) && rule !in ranked
    ensures Distinct(InsertByLift(rule, ranked))
  {
    if ranked != [] && rule.lift < ranked[0].lift {
      var tail := ranked[1..];
      assert ranked == [ranked[0]] + tail;
      InsertKeepsDistinct(rule, tail);
      var out := InsertByLift(rule, ranked);
      assert out == [ranked[0]] + InsertByLift(rule, tail);
      assert ranked[0] !in InsertByLift(rule, tail);
    }
  }

  /**
    `sort_values(by="lift", ascending=False)`: the same rules, ranked by
    lift, highest first; the order among equal lifts is not specified.
   */
  function SortByLift(rules: seq<Rule>): (out: seq<Rule>)
    ensures SortedByLift(out)
    ensures multiset(out) == multiset(rules)
    ensures Distinct(rules) ==> Distinct(out)
  {
    if rules == [] then []
    else
      var rest := SortByLift(rules[1..]);
      assert rules == [rules[0]] + rules[1..];
      assert Distinct(rules) ==> Distinct(InsertByLift(rules[0], rest)) by {
        if Distinct(rules) {
          assert rules[0] !in rules[1..];
          assert rules[0] !in multiset(rest);
          InsertKeepsDistinct(rules[0], rest);
        }
      }
      InsertByLift(rules[0], rest)
  }

  /** The same rules, in any order, still form the rule table. */
  lemma RuleTablePermutation(baskets: seq<set<int>>, minSupport: real, rules: seq<Rule>, ranked: seq<Rule>)
    requires IsRuleTable(baskets, minSupport, rules)
    requires multiset(ranked) == multiset(rules) && Distinct(ranked)
    ensures IsRuleTable(baskets, minSupport, ranked)
  {
    forall r | r in ranked
      ensures r in rules
    {
      assert r in multiset(ranked);
    }
    forall r | r in rules
      ensures r in ranked
    {
      assert r in multiset(rules);
    }
  }

  /**
    `generate_rules`, with an empty table when no pair passes the threshold:
    no baskets give no rules; otherwise the rule table of the passing pairs,
    ranked by lift.
   */
  method GenerateRules(baskets: seq<set<int>>, minSupport: real := 0.05) returns (rules: seq<Rule>)
    ensures baskets == [] ==> rules == []
    ensures IsRuleTable(baskets, minSupport, rules)
    ensures SortedByLift(rules)
  {
    var totalTrans := |baskets|;
    if totalTrans == 0 {
      return [];
    }
    var itemCounts, pairCounts := CountOccurrences(baskets);
    var rows := CollectRules(totalTrans, itemCounts, pairCounts, minSupport, baskets);
    rules := SortByLift(rows);
    RuleTablePermutation(baskets, minSupport, rows, rules);
  }

  /** The table `generate_rules` hands back, or the exception it raises. */
  datatype Frame = Frame(rows: seq<Rule>) | KeyError(column: string)

  /** No pair of items passes the threshold. */
  ghost predicate NoPairPasses(baskets: seq<set<int>>, minSupport: real)
  {
    forall a, b :: !Passes(baskets, a, b, minSupport)
  }

  /**
    `pd.DataFrame(rows).sort_values(by="lift", ascending=False)`: a frame
    built from no rows has no "lift" column, so the sort raises KeyError.
   */
  function SortValuesByLift(rows: seq<Rule>): (f: Frame)
    ensures f.KeyError? <==> rows == []
    ensures f.Frame? ==> SortedByLift(f.rows) && multiset(f.rows) == multiset(rows)
  {
    if rows == [] then KeyError("lift") else Frame(SortByLift(rows))
  }

  /**
    `generate_rules` as the source has it: on no baskets an empty frame, but
    on baskets where no pair reaches the threshold the final sort raises
    KeyError("lift").
   */
  method GenerateRulesAsWritten(baskets: seq<set<int>>, minSupport: real := 0.05) returns (result: Frame)
    ensures baskets == [] ==> result == Frame([])
    ensures result.KeyError? <==> baskets != [] && NoPairPasses(baskets, minSupport)
    ensures result.KeyError? ==> result.column == "lift"
    ensures result.Frame? ==> IsRuleTable(baskets, minSupport, result.rows) && SortedByLift(result.rows)
  {
    var totalTrans := |baskets|;
    if totalTrans == 0 {
      return Frame([]);
    }
    var itemCounts, pairCounts := CountOccurrences(baskets);
    var rows := CollectRules(totalTrans, itemCounts, pairCounts, minSupport, baskets);
    result := SortValuesByLift(rows);
    if result.Frame? {
      RuleTablePermutation(baskets, minSupport, rows, result.rows);
      var r := rows[0];
      assert r in rows;
      assert !NoPairPasses(baskets, minSupport);
    }
  }

  /**
    One basket with a single item: no pair exists, so the source's
    `generate_rules([frozenset({1})])` reaches the sort with no rows and
    raises KeyError, where an empty table was meant.
   */
  lemma SingleItemBasketHasNoPassingPair(minSupport: real)
    ensures NoPairPasses([{1}], minSupport)
  {
    var baskets := [{1}];
    forall a, b | a < b
      ensures Count(baskets, {a, b}) == 0
    {
      assert baskets[..0] == [];
      assert !({a, b} <= {1});
    }
  }

  /** After one more basket's items are counted, the item tally covers one more basket. */
  lemma ItemTallyStep(counts: map<int, nat>, baskets: seq<set<int>>, k: nat)
    requires k < |baskets|
    requires ItemsCountedPlus(counts, baskets[..k], baskets[k])
    ensures IsItemTally(counts, baskets[..k + 1])
  {
    forall x
      ensures Get(counts, x) == Count(baskets[..k + 1], {x})
    {
      CountStep(baskets, k, {x});
    }
  }

  /** After one more basket's pairs are counted, the pair tally covers one more basket. */
  lemma PairTallyStep(counts: map<(int, int), nat>, baskets: seq<set<int>>, k: nat, combos: seq<(int, int)>)
    requires k < |baskets|
    requires forall p :: p in combos <==> p in CanonicalPairs(baskets[k])
    requires PairsCountedPlus(counts, baskets[..k], combos)
    ensures IsPairTally(counts, baskets[..k + 1])
  {
    forall p: (int, int) | p.0 < p.1
      ensures Get(counts, p) == Count(baskets[..k + 1], {p.0, p.1})
    {
      CountStep(baskets, k, {p.0, p.1});
      if p.0 in baskets[k] && p.1 in baskets[k] {
        assert p in CanonicalPairs(baskets[k]);
      }
    }
  }

  /** Counting one more item of the current basket. */
  lemma CountItem(counts: map<int, nat>, counted: seq<set<int>>, extra: set<int>, item: int)
    requires ItemsCountedPlus(counts, counted, extra)
    requires item !in extra
    ensures ItemsCountedPlus(counts[item := Get(counts, item) + 1], counted, extra + {item})
  {
  }

  /** Counting the next pair of the current basket's list. */
  lemma CountPair(counts: map<(int, int), nat>, counted: seq<set<int>>, combos: seq<(int, int)>, t: nat)
    requires t < |combos| && Distinct(combos)
    requires PairsCountedPlus(counts, counted, combos[..t])
    requires combos[t].0 < combos[t].1
    ensures PairsCountedPlus(counts[combos[t] := Get(counts, combos[t]) + 1], counted, combos[..t + 1])
  {
    DistinctNotBefore(combos, t);
    assert combos[..t + 1] == combos[..t] + [combos[t]];
  }
}
