/** What a report's total adds up: the amounts of a set of rows, in any order. */
module Totals {
  import opened Common
  import opened Tables
  import opened ExpenseRules

  /** The sum of the amounts of the rows, picked in any order. */
  ghost function AmountOf(items: map<Id, Item>, rows: set<Id>): int
    requires rows <= items.Keys
  {
    if rows == {} then 0
    else
      var i :| i in rows;
      items[i].amount + AmountOf(items, rows - {i})
  }

  lemma {:induction false} AmountWithout(items: map<Id, Item>, rows: set<Id>, i: Id)
    requires rows <= items.Keys && i in rows
    ensures AmountOf(items, rows) == items[i].amount + AmountOf(items, rows - {i})
  {
    var j :| j in rows && AmountOf(items, rows) == items[j].amount + AmountOf(items, rows - {j});
    if i != j {
      AmountWithout(items, rows - {j}, i);
      AmountWithout(items, rows - {i}, j);
      assert rows - {j} - {i} == rows - {i} - {j};
    }
  }

  /** The rows of the report that are not excluded, whether or not they hold a card transaction. */
  function IncludedRows(items: map<Id, Item>, report: Id): set<Id> {
    set i | i in items && items[i].reportId == report && !items[i].isExcluded
  }

  function IncludedBelow(items: map<Id, Item>, report: Id, n: nat): set<Id> {
    set i | i in items && i < n && items[i].reportId == report && !items[i].isExcluded
  }

  lemma {:induction false} SumBelowIsAmount(items: map<Id, Item>, report: Id, n: nat)
    ensures SumIncluded(items, report, n) == AmountOf(items, IncludedBelow(items, report, n))
  {
    if n == 0 {
      assert IncludedBelow(items, report, 0) == {};
    } else {
      SumBelowIsAmount(items, report, n - 1);
      var rows := IncludedBelow(items, report, n);
      if n - 1 in rows {
        AmountWithout(items, rows, n - 1);
        assert rows - {n - 1} == IncludedBelow(items, report, n - 1);
      } else {
        assert rows == IncludedBelow(items, report, n - 1);
      }
    }
  }

  /** The running sum is the amount of exactly the rows of the report that are not excluded. */
  lemma SumIsAmountOfIncludedRows(items: map<Id, Item>, report: Id, n: nat)
    requires forall i | i in items :: i < n
    ensures SumIncluded(items, report, n) == AmountOf(items, IncludedRows(items, report))
  {
    SumBelowIsAmount(items, report, n);
    assert IncludedBelow(items, report, n) == IncludedRows(items, report);
  }

  /** What one row contributes to the total of a report. */
  function Share(item: Item, report: Id): int {
    if item.reportId == report && !item.isExcluded then item.amount else 0
  }

  lemma {:induction false} SumAfterWrite(items: map<Id, Item>, id: Id, item: Item, report: Id, n: nat)
    requires id in items && id < n
    ensures SumIncluded(items[id := item], report, n)
         == SumIncluded(items, report, n) - Share(items[id], report) + Share(item, report)
  {
    if id == n - 1 {
      SumOfOthers(items, id, item, report, n - 1);
    } else {
      SumAfterWrite(items, id, item, report, n - 1);
    }
  }

  lemma {:induction false} SumOfOthers(items: map<Id, Item>, id: Id, item: Item, report: Id, n: nat)
    requires n <= id
    ensures SumIncluded(items[id := item], report, n) == SumIncluded(items, report, n)
  {
    if n > 0 {
      SumOfOthers(items, id, item, report, n - 1);
    }
  }

  lemma SumAfterInsert(items: map<Id, Item>, item: Item, report: Id, n: nat)
    ensures SumIncluded(items[n := item], report, n + 1) == SumIncluded(items, report, n) + Share(item, report)
  {
    SumOfOthers(items, n, item, report, n);
  }

  lemma {:induction false} SumAfterDelete(items: map<Id, Item>, id: Id, report: Id, n: nat)
    requires id in items && id < n
    ensures SumIncluded(items - {id}, report, n) == SumIncluded(items, report, n) - Share(items[id], report)
  {
    if id == n - 1 {
      SumWithout(items, id, report, n - 1);
    } else {
      SumAfterDelete(items, id, report, n - 1);
    }
  }

  lemma {:induction false} SumWithout(items: map<Id, Item>, id: Id, report: Id, n: nat)
    requires n <= id
    ensures SumIncluded(items - {id}, report, n) == SumIncluded(items, report, n)
  {
    if n > 0 {
      SumWithout(items, id, report, n - 1);
    }
  }
}
