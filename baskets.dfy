/**
  The basket builder: groups the cleaned (transaction id, item) records into
  one set of items per distinct transaction id. Ids and item labels are
  integers; the loader's removal of rows with a missing field is assumed,
  so every record carries both.
 */
module Baskets {
  import opened SortedSets

  /** One row of the transaction log. */
  datatype Record = Record(transactionId: int, item: int)

  /** The distinct transaction ids of the log. */
  function Ids(records: seq<Record>): set<int>
  {
    set r | r in records :: r.transactionId
  }

  /** Every item recorded under one transaction id, duplicates collapsed. */
  function ItemsOf(records: seq<Record>, id: int): set<int>
  {
    set r | r in records && r.transactionId == id :: r.item
  }

  /**
    `df.groupby(id_col)[item_col]` with each group's items made a set: a fold
    over the records that adds each item to the group of its id.
   */
  function GroupBy(records: seq<Record>): (groups: map<int, set<int>>)
    ensures groups.Keys == Ids(records)
    ensures forall id | id in groups :: groups[id] == ItemsOf(records, id)
  {
    if records == [] then map[]
    else
      var front := records[..|records| - 1];
      var last := records[|records| - 1];
      assert records == front + [last];
      var groups := GroupBy(front);
      var id := last.transactionId;
      groups[id := (if id in groups then groups[id] else {}) + {last.item}]
  }

  /**
    `get_baskets`: one basket per group, in ascending order of transaction id
    (the order in which pandas lists the groups).
   */
  function GetBaskets(records: seq<Record>): (baskets: seq<set<int>>)
    ensures |baskets| == |Ids(records)|
    ensures forall i | 0 <= i < |baskets| :: baskets[i] == ItemsOf(records, Sorted(Ids(records))[i])
  {
    GroupOfEachId(records);
    GroupsInOrder(GroupBy(records), Sorted(Ids(records)))
  }

  /** Every id of the ascending id list has its group. */
  lemma GroupOfEachId(records: seq<Record>)
    ensures forall id | id in Sorted(Ids(records)) :: id in GroupBy(records) && GroupBy(records)[id] == ItemsOf(records, id)
  {
  }

  /** The groups of the given ids, listed in the order of the ids. */
  function GroupsInOrder(groups: map<int, set<int>>, ids: seq<int>): (baskets: seq<set<int>>)
    requires forall i | 0 <= i < |ids| :: ids[i] in groups
    ensures |baskets| == |ids|
    ensures forall i | 0 <= i < |ids| :: baskets[i] == groups[ids[i]]
  {
    seq(|ids|, i requires 0 <= i < |ids| => groups[ids[i]])
  }

  /** Each distinct transaction id contributes its basket, and every basket holds at least one item. */
  lemma BasketPerId(records: seq<Record>)
    ensures forall id | id in Ids(records) :: ItemsOf(records, id) in GetBaskets(records)
    ensures forall b | b in GetBaskets(records) :: b != {}
  {
    var baskets := GetBaskets(records);
    var ids := Sorted(Ids(records));
    forall id | id in Ids(records)
      ensures ItemsOf(records, id) in baskets
    {
      assert id in ids;
      var i :| 0 <= i < |ids| && ids[i] == id;
      assert baskets[i] == ItemsOf(records, id);
    }
    forall b | b in baskets
      ensures b != {}
    {
      var i :| 0 <= i < |baskets| && baskets[i] == b;
      assert ids[i] in Ids(records);
      NonEmptyGroup(records, ids[i]);
    }
  }

  /** A transaction id of the log has at least one item. */
  lemma NonEmptyGroup(records: seq<Record>, id: int)
    requires id in Ids(records)
    ensures ItemsOf(records, id) != {}
  {
    var r :| r in records && r.transactionId == id;
    assert r.item in ItemsOf(records, id);
  }

  /**
    The baskets depend only on which records occur: reordering the log or
    repeating a record leaves them unchanged.
   */
  lemma BasketsDependOnlyOnRecordSet(xs: seq<Record>, ys: seq<Record>)
    requires forall r :: r in xs <==> r in ys
    ensures GetBaskets(xs) == GetBaskets(ys)
  {
    assert Ids(xs) == Ids(ys);
    forall id
      ensures ItemsOf(xs, id) == ItemsOf(ys, id)
    {
    }
  }
}
