/** What the services for centers and cards do, in terms of the request alone. */
module MasterServices {
  import opened Common
  import opened Tables
  import Masters

  lemma CreatingCenterDoes(db: DB, env: Env, code: string, department: Option<Id>, active: bool)
    ensures var r := Masters.CreateCenter(db, env, Masters.FundCenter, code, department, active);
      && (r.Ok? <==> code !in db.funds && (department.Some? ==> department.value in env.departments))
      && (r.Ok? ==> r.value == db.(funds := db.funds[code := active]))
    ensures var r := Masters.CreateCenter(db, env, Masters.CostCenter, code, department, active);
      && (r.Ok? <==> code !in db.costs && (department.Some? ==> department.value in env.departments))
      && (r.Ok? ==> r.value == db.(costs := db.costs[code := active]))
  {
  }

  predicate SoundEdit(centers: map<string, bool>, env: Env, code: string, department: Field<Id>, active: Field<bool>) {
    code in centers && (department.Set? ==> department.value in env.departments) && !active.Null?
  }

  lemma UpdatingCenterDoes(db: DB, env: Env, code: string, department: Field<Id>, active: Field<bool>)
    ensures var r := Masters.UpdateCenter(db, env, Masters.FundCenter, code, department, active);
      && (r.Ok? <==> SoundEdit(db.funds, env, code, department, active))
      && (r.Ok? ==>
            r.value == db.(funds := db.funds[code := if active.Set? then active.value else db.funds[code]]))
    ensures var r := Masters.UpdateCenter(db, env, Masters.CostCenter, code, department, active);
      && (r.Ok? <==> SoundEdit(db.costs, env, code, department, active))
      && (r.Ok? ==>
            r.value == db.(costs := db.costs[code := if active.Set? then active.value else db.costs[code]]))
  {
  }

  /** A center goes exactly if it exists and nothing holds its code. */
  lemma DeletingFundCenterDoes(db: DB, code: string)
    ensures var r := Masters.DeleteCenter(db, Masters.FundCenter, code);
      && (r.Ok? <==> code in db.funds && NothingCharges(db, code))
      && (r.Ok? ==> r.value == db.(funds := db.funds - {code}))
      && (r.Err? ==> r.error == if code in db.funds then HasDependents else CenterNotFound)
  {
    FundColumns(db, code);
  }

  lemma DeletingCostCenterDoes(db: DB, code: string)
    ensures var r := Masters.DeleteCenter(db, Masters.CostCenter, code);
      && (r.Ok? <==> code in db.costs && NothingCostsOn(db, code))
      && (r.Ok? ==> r.value == db.(costs := db.costs - {code}))
      && (r.Err? ==> r.error == if code in db.costs then HasDependents else CenterNotFound)
  {
    CostColumns(db, code);
  }

  /** No report and no item holds the fund center. */
  predicate NothingCharges(db: DB, code: string) {
    && (forall k | k in db.reports :: db.reports[k].fundCenter != Some(code))
    && (forall i | i in db.items :: db.items[i].fundCenter != Some(code))
  }

  /** No trip, report or item holds the cost center. */
  predicate NothingCostsOn(db: DB, code: string) {
    && (forall t | t in db.trips :: db.trips[t].costCenter != Some(code))
    && (forall k | k in db.reports :: db.reports[k].costCenter != Some(code))
    && (forall i | i in db.items :: db.items[i].costCenter != Some(code))
  }

  lemma FundColumns(db: DB, code: string)
    ensures (forall c | c in Masters.References(Masters.FundCenter) :: !Masters.Refers(db, c, code)) <==>
      NothingCharges(db, code)
  {
    var columns := Masters.References(Masters.FundCenter);
    assert forall c :: c in columns <==> c == Masters.ReportFund || c == Masters.ItemFund;
    assert Masters.ReportFund in columns && Masters.ItemFund in columns;
  }

  lemma CostColumns(db: DB, code: string)
    ensures (forall c | c in Masters.References(Masters.CostCenter) :: !Masters.Refers(db, c, code)) <==>
      NothingCostsOn(db, code)
  {
    var columns := Masters.References(Masters.CostCenter);
    assert forall c ::
      c in columns <==> c == Masters.TripCost || c == Masters.ReportCost || c == Masters.ItemCost;
    assert Masters.TripCost in columns && Masters.ReportCost in columns && Masters.ItemCost in columns;
  }

  lemma CreatingCardDoes(db: DB, owner: Id)
    ensures var r := Masters.CreateCard(db, owner);
      && (r.Ok? <==> owner in db.users)
      && (r.Ok? ==> r.value == db.(cards := db.cards[db.nextCard := owner], nextCard := db.nextCard + 1))
  {
  }

  lemma DeletingCardDoes(db: DB, card: Id)
    ensures var r := Masters.DeleteCard(db, card);
      && (r.Ok? <==> card in db.cards && forall k | k in db.transactions :: db.transactions[k].card != card)
      && (r.Ok? ==> r.value == db.(cards := db.cards - {card}))
      && (r.Err? ==> r.error == if card in db.cards then HasDependents else CardNotFound)
  {
  }

  lemma PostingTransactionDoes(db: DB, t: Transaction)
    ensures var r := Masters.PostTransaction(db, t);
      && (r.Ok? <==> t.card in db.cards)
      && (r.Ok? ==> r.value == db.(transactions := db.transactions[db.nextTransaction := t],
                                   nextTransaction := db.nextTransaction + 1))
  {
  }
}
