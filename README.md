# Association miner: verified model of the rule-mining core

This project models the market-basket core of the association miner in
`project.py`:

- `get_baskets` groups a log of (transaction id, item) records into one set of
  items per distinct transaction id.
- `calculate_support` gives the share of baskets that contain a query itemset.
- `generate_rules` counts every item and every canonical pair `a < b` in one
  pass over the baskets. It keeps the pairs whose support reaches the
  threshold, derives support, confidence and lift for each, and ranks the rules
  by lift, highest first.

Item labels and transaction ids are integers, and their order stands for
Python's `<` on the labels. Baskets are `seq<set<int>>`. Counts are natural
numbers and ratios are exact `real`s.

Modules:

- `SortedSets` models `sorted` on a set of labels and
  `itertools.combinations(xs, 2)`.
- `Baskets` models `get_baskets`.
- `Support` models `calculate_support` and the basket count it divides.
- `Rules` models `generate_rules`:
  - the counting pass, as a method with loop invariants over the two counter
    maps;
  - the metrics pass, as a method over the pair counter's keys;
  - the ranking by lift, as an insertion sort proved to yield a sorted
    permutation.

  A rule table is specified by `IsRuleTable`:
  - every passing pair has exactly one rule;
  - every rule belongs to a passing pair;
  - every rule carries the metrics `RuleFor` states through `CalculateSupport`.
- `Scenarios` holds worked examples: the repository's basket test, three
  support queries, and a three-basket rule table.

The model follows the code where it differs from the behaviour `main`
evidently expects (an empty table, project.py:69-70). On non-empty baskets
where no pair reaches the threshold, the code raises instead of returning an
empty table. That path is modelled as written and recorded
under Findings.

## Model

| member | source | states |
|---|---|---|
| Baskets.GroupBy | project.py:105 | The groupby map has exactly the log's transaction ids as keys. Each id maps to the set of items recorded under it. |
| Baskets.GetBaskets | project.py:103-106 | One basket per distinct transaction id, in ascending id order. The basket at position i is the item set of the i-th id, with duplicates collapsed. |
| Baskets.BasketPerId | project.py:103-106 | Every transaction id's item set occurs among the baskets, and no basket is empty. |
| Baskets.BasketsDependOnlyOnRecordSet | project.py:105-106 | Two logs with the same records, in any order and with any repetition, give the same baskets. |
| Support.Count | project.py:151 | The count of baskets containing the itemset never exceeds the number of baskets. |
| Support.CountStep | project.py:151 | Counting one more basket adds one exactly when that basket is a superset of the itemset. |
| Support.CountIsNumberOfContainingBaskets | project.py:151 | The count equals the number of basket positions whose basket is a superset of the itemset. |
| Support.CountConcat | project.py:151 | Counts over a concatenation of basket lists add up. |
| Support.CountSwapBlocks | project.py:151 | Swapping two blocks of baskets leaves the count unchanged. |
| Support.CountAntitone | project.py:151 | A larger itemset is contained in no more baskets than a smaller one. |
| Support.CountAllIff | project.py:151 | The count equals the number of baskets iff every basket contains the itemset. |
| Support.CountZeroIff | project.py:151 | The count is zero iff no basket contains the itemset. |
| Support.CalculateSupport | project.py:147-152 | Support is 0 on an empty basket list, without raising, and always lies in [0, 1]. |
| Support.SupportAntitone | project.py:149-152 | Support is monotone: if S ⊆ T then support(T) ≤ support(S). |
| Support.SupportPositiveIff | project.py:149-152 | Support is positive iff some basket contains the itemset. |
| Support.SupportOneIff | project.py:149-152 | Support is 1 iff there are baskets and every one contains the itemset. |
| Support.SupportZeroIff | project.py:149-152 | Support is 0 iff no basket contains the itemset (vacuously so on no baskets). |
| Support.SupportOfEmptyItemset | project.py:149-152 | On a non-empty basket list the empty itemset has support 1. |
| SortedSets.Min | project.py:121 | The result is an element of the set and at most every element. |
| SortedSets.Sorted | project.py:121 | `sorted(set)` has the set's elements, each once, in strictly increasing order. |
| SortedSets.Combinations2 | project.py:121 | `combinations(xs, 2)` yields \|xs\|·(\|xs\|−1)/2 pairs. |
| SortedSets.CombinationsOfIncreasing | project.py:121 | On a strictly increasing list, `combinations(xs, 2)` yields exactly the pairs a < b of its elements. |
| SortedSets.CombinationsDistinct | project.py:121 | On a strictly increasing list, `combinations(xs, 2)` repeats no pair. |
| SortedSets.PairsOfSortedSet | project.py:121 | `combinations(sorted(basket), 2)` lists each canonical pair a < b of the basket exactly once, and nothing else. |
| Rules.CountOccurrences | project.py:114-122 | After the counting loop, `item_counts` gives every item the number of baskets containing it and holds no zero entry. `pair_counts` is keyed only by pairs a < b and gives each the number of baskets containing both items. |
| Rules.CountBasketItems | project.py:119-120 | The inner item loop raises each of the basket's items by exactly one, in any visiting order, and changes nothing else. |
| Rules.CountBasketPairs | project.py:121-122 | The inner pair loop visits exactly the basket's canonical pairs and raises each by exactly one. No other key changes. |
| Rules.ItemTallyStep | project.py:118-120 | After one more basket's items are counted, the item counter is the tally of one more basket. |
| Rules.PairTallyStep | project.py:118-122 | After one more basket's pairs are counted, the pair counter is the tally of one more basket. |
| Rules.PairItemsCounted | project.py:126-130 | A counted pair has a < b and a positive count. Both its items are counted, each at least as often as the pair, so `item_counts[item_A]` and `item_counts[item_B]` exist and are positive. |
| Rules.PassingPairCounted | project.py:126-128 | Every pair that passes the threshold is a key of the pair counter. |
| Rules.RuleFor | project.py:127-132 | A co-occurring pair's rule has support in (0, 1], confidence in (0, 1] and positive lift. |
| Rules.MetricBounds | project.py:129-132 | With 0 < s(AB) ≤ s(A), s(B) ≤ 1, confidence lies in (0, 1] and lift is positive. |
| Rules.RuleFromCounts | project.py:127-132 | The metrics computed from the counters equal those defined through `calculate_support`, and the divisors are nonzero. |
| Rules.LiftOneIffIndependent | project.py:131-132 | Lift is 1 iff s(AB) = s(A)·s(B), i.e. the pair co-occurs exactly as often as independence predicts. |
| Rules.CollectRules | project.py:124-142 | The metrics loop yields a rule table for the threshold: one rule per passing pair in canonical order, none for any other pair, no duplicates, each with its exact metrics. |
| Rules.InsertByLift | project.py:144 | Inserting into a lift-ranked table keeps it ranked and adds exactly that rule. |
| Rules.InsertKeepsDistinct | project.py:144 | Inserting a rule that is absent keeps the table free of repeats. |
| Rules.SortByLift | project.py:144 | Sorting by lift descending gives a permutation of the rules, ranked by non-increasing lift, without repeats when there were none. |
| Rules.RuleTablePermutation | project.py:144 | Reordering a rule table without repeats leaves a rule table. |
| Rules.GenerateRules | project.py:109-144 | Corrected `generate_rules`, with the threshold defaulting to 0.05: no baskets give no rules. Otherwise it returns the rule table for the threshold, ranked by non-increasing lift (an empty table when no pair passes). |
| Rules.SortValuesByLift | project.py:144 | Sorting a frame built from the rows raises KeyError exactly when there are no rows. Otherwise it yields the rows ranked by lift. |
| Rules.GenerateRulesAsWritten | project.py:109-144 | `generate_rules` as written returns an empty frame on no baskets. On non-empty baskets it raises KeyError("lift") iff no pair passes the threshold. Otherwise it returns the ranked rule table. |
| Rules.SingleItemBasketHasNoPassingPair | project.py:121-144 | The single basket {1} has no pair passing any threshold, so the as-written generator raises on it. |
| Scenarios.CountOfThree | project.py:151 | Over three baskets the count is the sum of the three containment tests. |
| Scenarios.GroceryIds | test_projects.py:7-8 | The test log has ids {1, 2, 3}, sorted as [1, 2, 3]. |
| Scenarios.GroceryGroups | test_projects.py:7-9 | The test log's groups are {milk, bread}, {milk} and {apple, bread}. |
| Scenarios.ThreeBaskets | project.py:103-106 | A log whose ids sort to [1, 2, 3] gives the three groups in that order. |
| Scenarios.GroceryBaskets | test_projects.py:5-16 | The test log gives exactly the baskets [{milk, bread}, {milk}, {apple, bread}], so there are three and both asserted baskets are present. |
| Scenarios.GrocerySupport | project.py:147-152 | Over {milk, bread}, {milk}, {bread, apple}: support of {milk} is 2/3, of {milk, bread} is 1/3, of an absent item is 0. |
| Scenarios.PairedBasketsRuleTable | project.py:109-144 | For baskets {A, B}, {A, B}, {C} at threshold 0.1, the only rule table is [A→B with support 2/3, confidence 1, lift 3/2]. |

## Left out

- `main`, `print_banner`, `print_strategic_insights` and `create_visualizations` are not modelled. They are console input, printing, CSV export and plotting.
- `load_data` is not modelled. It does a filesystem check, `read_csv` and `dropna`; its outcome appears only as the assumption that every record carries both an id and an item.
- Python float rounding is not modelled. Support, confidence and lift are exact rationals, so results that differ only by float rounding are not captured.
- String item labels are modelled as integers. The model keeps only their total order, which is all `sorted` and the canonical pair order use.
- The `pandas` sort algorithm and its tie order are not modelled. The ranking is specified as a lift-non-increasing permutation; the insertion sort is one such ranking.
- Dictionary and set iteration order is not modelled. The loops over a basket's items and over `pair_counts` pick elements in an unspecified order, so the order of rows before ranking is not fixed.
- Rules.GenerateRules: does not clamp or reject a `min_support` outside [0, 1], because the source does neither. A threshold ≤ 0 keeps every co-occurring pair; one above 1 keeps none.
- Baskets.GetBaskets: fixes the basket order to ascending transaction id, the order in which `groupby` lists groups. `BasketsDependOnlyOnRecordSet` and the support and rule properties do not depend on it.

## Findings

| source | as written | input that shows it | evidently intended | confidence | as-written member | corrected member |
|---|---|---|---|---|---|---|
| project.py:144 | The final `sort_values(by="lift")` runs even when `rules_list` is empty. A frame built from no rows has no `lift` column, so it raises KeyError. `main` then reports it as a missing-column CSV error (project.py:81-82). | `generate_rules([frozenset({1})], min_support=0.01)`: one basket with one item, so no pair exists | An empty rule table, which `main` handles in its `if not rules.empty` branch (project.py:47-70) | high, not executed | Rules.GenerateRulesAsWritten, Rules.SingleItemBasketHasNoPassingPair | Rules.GenerateRules |
