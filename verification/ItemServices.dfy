/** What the item services do, in terms of the request alone: the row written, and the total moved by exactly what the
    row counts for. */
module ItemServices {
  import opened Common
  import opened Codes
  import opened Tables
  import opened ExpenseRules
  import opened Invariant
  import opened Totals
  import opened ReportServices
  import Expenses
  import Theorems
  import opened TripServices

  /** The transaction can go into the report: it sits on a card of the report's owner, was not cancelled, and is not in
      the report yet. */
  predicate Holdable(db: DB, report: Id, t: Id)
    requires report in db.reports
  {
    && t in db.transactions && !db.transactions[t].isCancelled
    && db.transactions[t].card in db.cards && db.cards[db.transactions[t].card] == db.reports[report].owner
    && forall i | i in db.items && db.items[i].reportId == report :: db.items[i].transaction != Some(t)
  }

  predicate InRange(amount: real) {
    0.0 <= amount <= 9999999999.99
  }

  /** Everything an added item must satisfy but the bound on the total. The amount is the one sent; only if none was
      sent is it the transaction's own. */
  predicate SoundItem(db: DB, env: Env, report: Id, form: Expenses.ItemForm)
    requires report in db.reports
  {
    && CodeActive(env.codes, ExpenseCategory, Some(form.category))
    && Usable(db.funds, form.fundCenter) && Usable(db.costs, form.costCenter)
    && (form.transaction.Some? ==> Holdable(db, report, form.transaction.value))
    && (form.amount.Some? ==> InRange(form.amount.value))
    && (form.amount.None? ==>
          form.transaction.Some? && 0 <= db.transactions[form.transaction.value].amount <= 999999999999)
  }

  function Cents(db: DB, env: Env, report: Id, form: Expenses.ItemForm): int
    requires report in db.reports && SoundItem(db, env, report, form)
  {
    if form.amount.Some? then StoredCents(form.amount.value) else db.transactions[form.transaction.value].amount
  }

  function CategoryProblem(codes: CodeTable): Error {
    if GroupActive(codes, ExpenseCategory)
    then InvalidCode(ExpenseCategoryCode)
    else UnknownCodeGroup(ExpenseCategoryCode)
  }

  lemma CategoryIsChecked(codes: CodeTable, category: string)
    ensures Verdict(codes, Expenses.CategorySpec(category)) ==
      if CodeActive(codes, ExpenseCategory, Some(category)) then Ok(()) else Err(CategoryProblem(codes))
  {
    var spec := CodeSpec(ExpenseCategory, ExpenseCategoryCode, Some(category));
    assert Expenses.CategorySpec(category) == [spec] + [];
    CheckedFirst(codes, spec, []);
    if CodeActive(codes, ExpenseCategory, Some(category)) {
      ActiveCodeHasGroup(codes, ExpenseCategory, Some(category));
    }
  }

  /** The stored total after recounting a rewritten item table. */
  lemma RecountGives(db: DB, items: map<Id, Item>, next: Id, report: Id, total: int)
    requires report in db.reports && SumIncluded(items, report, next) == total
    ensures Expenses.RecalcTotal(db.(items := items, nextItem := next), report) ==
      if total <= 99999999999999
      then Ok(db.(items := items, nextItem := next,
                  reports := db.reports[report := db.reports[report].(total := total)]))
      else Err(TotalAmountExceeded)
  {
  }

  lemma AmountOfForm(db: DB, env: Env, report: Id, form: Expenses.ItemForm)
    requires report in db.reports
    requires form.transaction.Some? ==> Holdable(db, report, form.transaction.value)
    requires form.amount.Some? || form.transaction.Some?
    ensures var r := Expenses.NewItemAmount(db, report, form);
      && r.Ok?
      && (form.amount.Some? ==> r.value == form.amount.value)
      && (form.amount.None? ==> StoredCents(r.value) == db.transactions[form.transaction.value].amount)
      && (form.amount.None? ==>
            (AssertItemAmount(r.value).Ok? <==>
               0 <= db.transactions[form.transaction.value].amount <= 999999999999))
  {
    if form.amount.None? {
      var cents := db.transactions[form.transaction.value].amount;
      StoredCentsOfCents(cents);
      CentsInRange(cents);
    }
  }

  lemma CentsInRange(cents: int)
    ensures AssertItemAmount(cents as real / 100.0).Ok? <==> 0 <= cents <= 999999999999
  {
    var x := cents as real / 100.0;
    assert x * 100.0 == cents as real;
  }

  lemma AddingIsInserting(db: DB, env: Env, caller: Id, id: Id, form: Expenses.ItemForm)
    requires caller in db.users
    ensures Expenses.AddItem(db, env, caller, id, form).Ok? ==>
      MayEdit(db, caller, id) && SoundItem(db, env, id, form)
    ensures MayEdit(db, caller, id) && SoundItem(db, env, id, form) ==>
      var item := Item(id, form.transaction, form.category, Cents(db, env, id, form), false, form.fundCenter,
                       form.costCenter);
      Expenses.AddItem(db, env, caller, id, form) ==
        Expenses.RecalcTotal(db.(items := db.items[db.nextItem := item], nextItem := db.nextItem + 1), id)
  {
    CategoryIsChecked(env.codes, form.category);
    if MayEdit(db, caller, id) && (form.transaction.Some? ==> Holdable(db, id, form.transaction.value))
       && (form.amount.Some? || form.transaction.Some?) {
      AmountOfForm(db, env, id, form);
    }
  }

  lemma ReachableTotals(db: DB, today: int)
    requires Theorems.Reachable(db, today)
    ensures forall r | r in db.reports :: db.reports[r].total == SumIncluded(db.items, r, db.nextItem)
    ensures forall r | r in db.reports :: db.reports[r].total <= 99999999999999
    ensures forall i | i in db.items :: i < db.nextItem && db.items[i].reportId in db.reports && db.items[i].amount >= 0
  {
    Theorems.ReachableIsOk(db, today);
    forall r | r in db.reports ensures TotalOk(r, db.reports[r], db.items, db.nextItem) {
    }
    forall i | i in db.items ensures ItemOk(db.items[i], db.reports, db.transactions, db.cards, db.funds, db.costs) {
    }
  }

  /** Adding: one included row with the amount asked for, and the total grows by just that amount, whether or not the
      row holds a card transaction. */
  lemma AddingDoes(db: DB, today: int, env: Env, caller: Id, id: Id, form: Expenses.ItemForm)
    requires Theorems.Reachable(db, today) && caller in db.users
    ensures var r := Expenses.AddItem(db, env, caller, id, form);
      && (r.Ok? <==>
            && MayEdit(db, caller, id) && SoundItem(db, env, id, form)
            && db.reports[id].total + Cents(db, env, id, form) <= 99999999999999)
      && (r.Ok? ==>
            var cents := Cents(db, env, id, form);
            r.value == db.(
              nextItem := db.nextItem + 1,
              items := db.items[db.nextItem :=
                Item(id, form.transaction, form.category, cents, false, form.fundCenter, form.costCenter)],
              reports := db.reports[id := db.reports[id].(total := db.reports[id].total + cents)]))
  {
    ReachableTotals(db, today);
    AddingIsInserting(db, env, caller, id, form);
    if MayEdit(db, caller, id) && SoundItem(db, env, id, form) {
      var cents := Cents(db, env, id, form);
      var item := Item(id, form.transaction, form.category, cents, false, form.fundCenter, form.costCenter);
      SumAfterInsert(db.items, item, id, db.nextItem);
      RecountGives(db, db.items[db.nextItem := item], db.nextItem + 1, id, db.reports[id].total + cents);
    }
  }

  /** The row after a patch: each field sent has the value sent, and centers may be cleared. */
  function Rewritten(item: Item, patch: Expenses.ItemPatch): Item {
    item.(category := if patch.category.Set? then patch.category.value else item.category,
          amount := if patch.amount.Set? then StoredCents(patch.amount.value) else item.amount,
          isExcluded := if patch.isExcluded.Set? then patch.isExcluded.value else item.isExcluded,
          fundCenter := if patch.fundCenter.Set? then Some(patch.fundCenter.value)
                        else if patch.fundCenter.Null? then None else item.fundCenter,
          costCenter := if patch.costCenter.Set? then Some(patch.costCenter.value)
                        else if patch.costCenter.Null? then None else item.costCenter)
  }

  predicate SoundPatch(db: DB, env: Env, patch: Expenses.ItemPatch) {
    && !patch.category.Null? && !patch.amount.Null? && !patch.isExcluded.Null?
    && (patch.category.Set? ==> CodeActive(env.codes, ExpenseCategory, Some(patch.category.value)))
    && (patch.amount.Set? ==> InRange(patch.amount.value))
    && (patch.fundCenter.Set? ==> Usable(db.funds, Some(patch.fundCenter.value)))
    && (patch.costCenter.Set? ==> Usable(db.costs, Some(patch.costCenter.value)))
  }

  lemma UpdatingIsRewriting(db: DB, env: Env, caller: Id, i: Id, patch: Expenses.ItemPatch)
    requires caller in db.users
    ensures Expenses.UpdateItem(db, env, caller, i, patch).Ok? ==>
      i in db.items && MayEdit(db, caller, db.items[i].reportId) && SoundPatch(db, env, patch)
    ensures i in db.items && MayEdit(db, caller, db.items[i].reportId) && SoundPatch(db, env, patch) ==>
      Expenses.UpdateItem(db, env, caller, i, patch) ==
        Expenses.RecalcTotal(db.(items := db.items[i := Rewritten(db.items[i], patch)]), db.items[i].reportId)
  {
    if patch.category.Set? {
      CategoryIsChecked(env.codes, patch.category.value);
    }
  }

  /** Updating: the total moves from what the row counted for to what it counts for now. */
  lemma UpdatingDoes(db: DB, today: int, env: Env, caller: Id, i: Id, patch: Expenses.ItemPatch)
    requires Theorems.Reachable(db, today) && caller in db.users
    ensures var r := Expenses.UpdateItem(db, env, caller, i, patch);
      && (r.Ok? <==>
            && i in db.items && MayEdit(db, caller, db.items[i].reportId) && SoundPatch(db, env, patch)
            && TotalAfter(db, i, Rewritten(db.items[i], patch)) <= 99999999999999)
      && (r.Ok? ==>
            var id, item := db.items[i].reportId, Rewritten(db.items[i], patch);
            r.value == db.(items := db.items[i := item],
                           reports := db.reports[id := db.reports[id].(total := TotalAfter(db, i, item))]))
  {
    ReachableTotals(db, today);
    UpdatingIsRewriting(db, env, caller, i, patch);
    if i in db.items && MayEdit(db, caller, db.items[i].reportId) && SoundPatch(db, env, patch) {
      var id, item := db.items[i].reportId, Rewritten(db.items[i], patch);
      SumAfterWrite(db.items, i, item, id, db.nextItem);
      RecountGives(db, db.items[i := item], db.nextItem, id, TotalAfter(db, i, item));
      assert db.(items := db.items[i := item]) == db.(items := db.items[i := item], nextItem := db.nextItem);
    }
  }

  /** An excluded row counts for nothing, any other for its amount. */
  function Counted(item: Item): int {
    if item.isExcluded then 0 else item.amount
  }

  function TotalAfter(db: DB, i: Id, item: Item): int
    requires i in db.items && db.items[i].reportId in db.reports
  {
    db.reports[db.items[i].reportId].total - Counted(db.items[i]) + Counted(item)
  }

  /** Deleting: always possible for the owner of an open report; the total loses what the row counted for. */
  lemma DeletingDoes(db: DB, today: int, caller: Id, i: Id)
    requires Theorems.Reachable(db, today) && caller in db.users
    ensures var r := Expenses.DeleteItem(db, caller, i);
      && (r.Ok? <==> i in db.items && MayEdit(db, caller, db.items[i].reportId))
      && (r.Ok? ==>
            var id, report := db.items[i].reportId, db.reports[db.items[i].reportId];
            r.value == db.(items := db.items - {i},
                           reports := db.reports[id := report.(total := report.total - Counted(db.items[i]))]))
  {
    ReachableTotals(db, today);
    if i in db.items && MayEdit(db, caller, db.items[i].reportId) {
      var id := db.items[i].reportId;
      SumAfterDelete(db.items, i, id, db.nextItem);
      RecountGives(db, db.items - {i}, db.nextItem, id, db.reports[id].total - Counted(db.items[i]));
      assert db.(items := db.items - {i}) == db.(items := db.items - {i}, nextItem := db.nextItem);
    }
  }

  /** The first thing wrong with an item form. */
  function ItemProblem(db: DB, env: Env, id: Id, form: Expenses.ItemForm): Error
    requires id in db.reports
  {
    if !CodeActive(env.codes, ExpenseCategory, Some(form.category)) then CategoryProblem(env.codes)
    else if !Usable(db.funds, form.fundCenter) then InvalidFundCenter
    else if !Usable(db.costs, form.costCenter) then InvalidCostCenter
    else if form.transaction.Some? && !OwnTransaction(db, id, form.transaction.value) then InvalidTransaction
    else if form.transaction.Some? && !Holdable(db, id, form.transaction.value) then ExpenseItemDuplicate
    else if form.transaction.None? && form.amount.None? then AmountRequired
    else if !SoundItem(db, env, id, form) then InvalidAmount
    else TotalAmountExceeded
  }

  predicate OwnTransaction(db: DB, report: Id, t: Id)
    requires report in db.reports
  {
    && t in db.transactions && !db.transactions[t].isCancelled
    && db.transactions[t].card in db.cards && db.cards[db.transactions[t].card] == db.reports[report].owner
  }

  lemma AddingIsRefusedFor(db: DB, env: Env, caller: Id, id: Id, form: Expenses.ItemForm)
    requires caller in db.users && MayEdit(db, caller, id)
    ensures var r := Expenses.AddItem(db, env, caller, id, form); r.Err? ==> r.error == ItemProblem(db, env, id, form)
  {
    CategoryIsChecked(env.codes, form.category);
    if (form.transaction.Some? ==> Holdable(db, id, form.transaction.value))
       && (form.amount.Some? || form.transaction.Some?) {
      AmountOfForm(db, env, id, form);
    }
  }

  /** Which refusal an item call meets first: an item that does not exist, a report that is not the caller's to see, not
      the caller's own, or not open. */
  lemma ItemCallsAreRefused(
    db: DB, env: Env, caller: Id, i: Id, id: Id, form: Expenses.ItemForm, patch: Expenses.ItemPatch)
    requires caller in db.users
    ensures i !in db.items ==>
      && Expenses.UpdateItem(db, env, caller, i, patch) == Err(ExpenseItemNotFound)
      && Expenses.DeleteItem(db, caller, i) == Err(ExpenseItemNotFound)
    ensures id in db.reports && db.reports[id].owner == caller && !MayEdit(db, caller, id) ==>
      Expenses.AddItem(db, env, caller, id, form) == Err(ExpenseNotEditable)
    ensures id in db.reports && db.reports[id].owner != caller && db.reports[id].approver == Some(caller) ==>
      Expenses.AddItem(db, env, caller, id, form) == Err(NotExpenseOwner)
  {
  }
}
