/**
  Worked examples: the repository's basket test and small illustrative data
  sets for support and rules. Item labels are numbered.
 */
module Scenarios {
  import opened SortedSets
  import opened Baskets
  import opened Support
  import opened Rules

  const Milk := 1
  const Bread := 2
  const Apple := 3

  /** The grocery log of the repository's basket test. */
  function GroceryLog(): seq<Record>
  {
    [Record(1, Milk), Record(1, Bread), Record(2, Milk), Record(3, Apple), Record(3, Bread)]
  }

  /** Three baskets are counted basket by basket. */
  lemma CountOfThree(baskets: seq<set<int>>, itemset: set<int>)
    requires |baskets| == 3
    ensures Count(baskets, itemset) ==
      (if itemset <= baskets[0] then 1 else 0) + (if itemset <= baskets[1] then 1 else 0) + (if itemset <= baskets[2] then 1 else 0)
  {
    assert baskets[..0] == [];
    CountStep(baskets, 0, itemset);
    CountStep(baskets, 1, itemset);
    CountStep(baskets, 2, itemset);
    assert baskets[..3] == baskets;
  }

  lemma GroceryIds()
    ensures Ids(GroceryLog()) == {1, 2, 3}
    ensures Sorted(Ids(GroceryLog())) == [1, 2, 3]
  {
    var records := GroceryLog();
    assert records[0].transactionId == 1 && records[2].transactionId == 2 && records[3].transactionId == 3;
    assert Ids(records) == {1, 2, 3};
    var ids := Sorted({1, 2, 3});
    assert ids[0] in {1, 2, 3} && ids[1] in {1, 2, 3} && ids[2] in {1, 2, 3};
    assert ids[0] < ids[1] < ids[2];
  }

  lemma GroceryGroups()
    ensures ItemsOf(GroceryLog(), 1) == {Milk, Bread}
    ensures ItemsOf(GroceryLog(), 2) == {Milk}
    ensures ItemsOf(GroceryLog(), 3) == {Apple, Bread}
  {
  }

  /** A log with transaction ids 1, 2 and 3 gives their three groups, in that order. */
  lemma ThreeBaskets(records: seq<Record>)
    requires Sorted(Ids(records)) == [1, 2, 3]
    ensures GetBaskets(records) == [ItemsOf(records, 1), ItemsOf(records, 2), ItemsOf(records, 3)]
  {
  }

  /** Transactions 1, 1, 2, 3, 3 holding milk, bread, milk, apple, bread give three baskets. */
  lemma GroceryBaskets()
    ensures GetBaskets(GroceryLog()) == [{Milk, Bread}, {Milk}, {Apple, Bread}]
  {
    var records := GroceryLog();
    GroceryIds();
    GroceryGroups();
    ThreeBaskets(records);
  }

  /** Support queries over `{milk, bread}, {milk}, {bread, apple}`. */
  lemma GrocerySupport()
    ensures CalculateSupport([{Milk, Bread}, {Milk}, {Bread, Apple}], {Milk}) == 2.0 / 3.0
    ensures CalculateSupport([{Milk, Bread}, {Milk}, {Bread, Apple}], {Milk, Bread}) == 1.0 / 3.0
    ensures CalculateSupport([{Milk, Bread}, {Milk}, {Bread, Apple}], {4}) == 0.0
  {
    var baskets: seq<set<int>> := [{Milk, Bread}, {Milk}, {Bread, Apple}];
    CountOfThree(baskets, {Milk});
    CountOfThree(baskets, {Milk, Bread});
    CountOfThree(baskets, {4});
  }

  /**
    Baskets `{A, B}, {A, B}, {C}` with threshold 0.1 yield exactly one rule,
    `A -> B` with support 2/3, confidence 1 and lift 1.5.
   */
  lemma PairedBasketsRuleTable(rules: seq<Rule>)
    requires IsRuleTable([{0, 1}, {0, 1}, {2}], 0.1, rules)
    ensures rules == [Rule(0, 1, 2.0 / 3.0, 1.0, 1.5)]
  {
    var baskets: seq<set<int>> := [{0, 1}, {0, 1}, {2}];
    CountOfThree(baskets, {0, 1});
    CountOfThree(baskets, {0});
    CountOfThree(baskets, {1});
    var rule := RuleFor(baskets, 0, 1);
    assert rule == Rule(0, 1, 2.0 / 3.0, 1.0, 1.5);
    assert Passes(baskets, 0, 1, 0.1);
    assert rule in rules;
    forall r | r in rules
      ensures r == rule
    {
      var a, b := r.itemA, r.itemB;
      CountOfThree(baskets, {a, b});
    }
    DistinctSingleton(rules, rule);
  }
}
