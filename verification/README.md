# Business trips and expense reports, verified

A Dafny model of the services of a business-trip approval system, and proofs about all of its runs.

A trip moves DRAFT, SUBMITTED, APPROVED or REJECTED, COMPLETED, SETTLED. Each trip has at most one expense report with
a machine of its own, and approving the report settles the trip in the same transaction. Most of what makes the system
right is checked nowhere: that settlement cannot fail, that nobody decides on their own request, that the log replays to
the current status, that the approved total is the submitted one. These facts follow from guards in several services and
hold only as an inductive invariant over all runs.

## How it is built

- `Tables.dfy` has the tables as one value; `Rules.dfy` the transition and actor tables and the checks; `Codes.dfy` and
  `Numbering.dfy` code validation and document numbers; `History.dfy` the log, the notifications and a reader that
  replays them.
- `Trips.dfy`, `Expenses.dfy` and `Admin.dfy` give each service as a function from the tables to an outcome: the next
  tables, or an error.
- `TripServices.dfy`, `ReportServices.dfy`, `ItemServices.dfy`, `AccountServices.dfy`, `MasterServices.dfy` and
  `Totals.dfy` say what each service does in terms of the request alone, without the functions it is made of: when it
  succeeds, all the tables afterwards, and why it refuses.
- `Store.dfy` has the services as they run: a class whose methods fetch rows, assign fields one by one, loop, record and
  roll back. Every method is proved to do exactly what its function says. `ServeAll` carries this to whole runs.
- `Invariant.dfy`, `TripProofs.dfy`, `ExpenseProofs.dfy` and `AdminProofs.dfy` state the invariant and show that every
  service keeps it; `Runs.dfy` takes it to runs; `StepProofs.dfy` says who changes what in one step; `Theorems.dfy`
  draws the conclusions. `Progress.dfy` says exactly when a trip can still be settled, and `Witness.dfy` builds
  the runs that reach a settled trip, a rejected one, a stuck one and the inputs of the failures below.
- `Matching.dfy` and `Candidates.dfy` match card transactions to trips; `CardSearch.dfy` is the card search with SQL's
  NULLs, ordering and paging, and `TwoSearches.dfy` compares it with the matching; `ApiScopes.dfy` has the scope table
  and its start-up guard, `ApiKeys.dfy` the keys.

`dafny verify dfyconfig.toml` checks everything.

## Where the code and its comments disagree

The model follows the code.

- `trips.py:274-275` says a deleted trip leaves only creations and updates in the log. It does so exactly if the trip
  carries no reject reason: a rejected trip can be reopened and then deleted (`DeletedTripHistory`,
  `RejectedTripCanVanish`, `RejectedTripsAreReachable`).
- `history.py:48-49` speaks of an administrator deciding on their own trip. No run from empty tables gets there
  (`NobodyApprovesTheirOwn`); the seed data is not such a run.
- `cards.py:35-36` says the "unsettled" filter uses the criterion of the automatic matching. It hides more: also what
  is held only by drafts, rejected reports or the report itself (`SearchesDifferExactlyWhen`,
  `SearchesDifferInAReachableState`).
- `api_scopes.py:139-151` says the "undeclared" refusal should not occur in practice once the guard has passed. For
  HEAD and OPTIONS on an authenticated route it always does (`DeclaredExactlyIfAuthenticated`, `HeadIsRefused`).
- The numbering of `numbering.py` proposes a number in use exactly when a year has rolled over: a serial of all nines
  and its successor are both live and no live serial sorts after the nines (`NextNoIsTakenExactlyAtRollOver`). Every
  sound request of that year is then refused (`TripCreationSucceedsExactlyWhen`, `ReportCreationSucceedsExactlyWhen`),
  as after 10000 trips (`NumbersRunOut`).

## Model

| member | source | states |
|---|---|---|
| Runs.ReachableStatesAreOk | backend/app/services/expenses.py:263-766 | Every state reached from empty tables, by any sequence of calls by any callers with the clock moving forward, satisfies the invariant (report and trip statuses coupled, totals exact, fields agreeing with statuses, histories complete, numbers distinct, center codes valid). No service checks it; it follows from guards in several of them. |
| Runs.StepKeepsInv | backend/app/services/trips.py:215-512 | Each call, allowed or refused, on any later day, keeps the invariant. |
| Theorems.EveryReportFollowsItsTrip | backend/app/services/expenses.py:263-302 | A report's trip exists and has the same owner and approver; a draft report has an approved or completed trip, a submitted or rejected one a completed trip, and a report is approved exactly when its trip is settled; one report per trip; every settled trip has its approved report. |
| Theorems.ApprovalSucceedsExactlyForTheApprover | backend/app/services/expenses.py:667-701 | Approving a report succeeds if and only if it is submitted and the caller is its approver: the settlement in the same transaction never aborts it. The tables afterwards are given in full: the approved report, its settled trip, two log entries and one notification to the owner, and nothing else changes. |
| Theorems.SubmissionSucceedsExactlyWhen | backend/app/services/expenses.py:612-664 | Submitting succeeds if and only if the owner submits a draft of a completed trip with both centers named and active and at least one row not excluded; the approver check and the bound on the recomputed total never refuse. All tables afterwards are given, with the stored total unchanged, and the error names the first thing missing. |
| Theorems.DeletionNeverOrphansAReport | backend/app/services/trips.py:270-277 | Deleting a trip succeeds if and only if its owner deletes a draft; the foreign key never fires and every report keeps its trip. |
| TripServices.CreatingDoes | backend/app/services/trips.py:208-237 | A refused form is refused for its first bad code, an unknown group counting first, then for its dates; a created trip is the row of the form, numbered in the caller's year, with one log entry and nothing else. |
| TripServices.UpdatingDoes | backend/app/services/trips.py:240-267 | Updating succeeds if and only if the owner's trip is a draft or rejected, the merged codes are active in their own groups, no field is cleared and the merged dates are in order; each field sent has the value sent, with one log entry and nothing else. |
| TripServices.UpdatingRefuses | backend/app/services/trips.py:240-258 | Which refusal an update meets: not visible, not the owner's, not open, the first bad merged code, the merged dates. |
| TripServices.DeletingDoes | backend/app/services/trips.py:270-277 | Deleting removes exactly the caller's draft without a report. |
| TripServices.SubmittingDoes | backend/app/services/trips.py:300-333 | Submitting succeeds if and only if the owner has a manager and the draft's dates are in order; the manager of that moment becomes approver and is notified, the old decision is cleared, and all tables are given. |
| TripServices.ApprovingDoes | backend/app/services/trips.py:336-362 | Approving succeeds if and only if the caller is the approver of a submitted trip; all tables are given. |
| TripServices.RejectingDoes | backend/app/services/trips.py:365-395 | Rejecting succeeds if and only if the caller is the approver of a submitted trip and the reason is not blank; the reason stored is the one sent without the blanks around it. |
| TripServices.ReopeningDoes | backend/app/services/trips.py:398-427 | Reopening succeeds if and only if the caller owns a rejected trip; approver and times go, the reason stays. |
| TripServices.CompletingDoes | backend/app/services/trips.py:430-450 | Completing succeeds if and only if the caller owns an approved trip that ended before today. |
| TripServices.TransitionsAreRefused | backend/app/services/trip_rules.py:117-141 | An invisible trip is not found; a wrong status counts before a wrong person, and each has its own error. |
| TripServices.TripIsVisibleExactlyTo | backend/app/services/trip_rules.py:32-40 | A trip is visible to administrators, its owner and its approver, and not found for everybody else. |
| ReportServices.CreatingReportDoes | backend/app/services/expenses.py:263-302 | A created report is the trip's: owner, approver and cost center are the trip's, the total zero; one log entry and nothing else; wrong status and an existing report each have their own error. |
| ReportServices.UpdatingReportDoes | backend/app/services/expenses.py:305-332 | Updating succeeds if and only if the owner's report is open and the centers sent are active; a value replaces, null clears, silence keeps. |
| ReportServices.RejectingReportDoes | backend/app/services/expenses.py:704-735 | Rejecting succeeds if and only if the caller is the approver of a submitted report and the reason is not blank; the reason stored is the one sent without the blanks around it. |
| ReportServices.ReopeningReportDoes | backend/app/services/expenses.py:738-766 | Reopening succeeds if and only if the caller owns a rejected report; the times go, the reason and the approver stay. |
| ReportServices.ReportTransitionsAreRefused | backend/app/services/expense_rules.py:165-184 | An invisible report is not found; a wrong status counts before a wrong person, and each has its own error. |
| ReportServices.ReportIsVisibleExactlyTo | backend/app/services/expense_rules.py:34-40 | A report is visible to administrators, its owner and its approver, and not found for everybody else. |
| Theorems.TotalsAreExact | backend/app/services/expenses.py:335-352 | In every reachable state the stored total is the sum, in any order, of the stored amounts of exactly the rows of the report that are not excluded, with or without a card transaction, and lies between zero and the bound; every stored amount is within its own bound; a submitted or approved report has an included item and both centers named. |
| Totals.SumIsAmountOfIncludedRows | backend/app/services/expense_rules.py:121-123 | The running sum over the rows is the amount of exactly the rows of the report that are not excluded. |
| ItemServices.AddingDoes | backend/app/services/expenses.py:418-457 | Adding succeeds if and only if the owner's report is open, category and centers are active, the transaction if any is the owner's, not cancelled and not in the report yet, the amount is in range and the new total within bounds; it inserts one included row and the total grows by just its amount, which is the one sent or, if none was sent, the transaction's. |
| ItemServices.AddingIsRefusedFor | backend/app/services/expenses.py:418-457 | Of several things wrong with an item form, the error names the first in the order of the checks. |
| ItemServices.UpdatingDoes | backend/app/services/expenses.py:460-480 | Updating succeeds if and only if the owner's report is open, every sent value passes its check, nothing that must hold a value is cleared and the new total is within bounds; each field sent has the value sent, and the total moves from what the row counted for to what it counts for now. |
| ItemServices.DeletingDoes | backend/app/services/expenses.py:483-489 | Deleting succeeds if and only if the item is in an open report of the caller, and the total loses what the row counted for. |
| Theorems.TransactionsBelongToTheOwner | backend/app/services/expenses.py:375-407 | Every card transaction held by an item sits on a card of the report's owner and occurs at most once in that report. |
| Theorems.FieldsAgreeWithStatus | backend/app/services/trip_rules.py:63-84 | Approver, timestamps and reject reason are present exactly in the statuses that call for them, start is at most end, and completed or settled trips ended before today; likewise for reports. |
| Theorems.CenterCodesAlwaysExist | backend/app/services/admin/centers.py:29-39 | Every fund or cost center code a trip, report or item holds names an existing center in every reachable state, with no foreign key to enforce it. |
| Theorems.NobodyApprovesTheirOwn | backend/app/services/admin/users.py:137-149 | No user is their own manager and no trip or report has its owner as approver, in any reachable state; the case the comment in history.py:48-49 describes cannot arise from empty tables. |
| Theorems.EveryHistoryIsComplete | backend/app/services/history.py:25-60 | For every live trip and report the log entries form an unbroken chain from creation to the current status along table edges or updates in place, and submissions and decisions correspond one to one, in order, to notifications: each submission to somebody other than the owner, each decision to the owner and made by the addressee of the submission before it. |
| Theorems.DeletedTripHistory | backend/app/services/trips.py:270-277 | A deleted trip leaves only creations and updates in the log if and only if it carried no reject reason; the comment in the code claims it of every deleted trip. |
| Theorems.RejectedTripCanVanish | backend/app/services/trips.py:398-427 | Any rejected trip can be reopened and deleted by its owner, and its submission and rejection then stay in the log: the input on which that comment is wrong. |
| Theorems.NumbersStayDistinct | backend/app/services/numbering.py:17-50 | Live trip numbers are pairwise distinct and so are live report numbers, over any run including deletions. |
| Theorems.TripCreationSucceedsExactlyWhen | backend/app/services/trips.py:194-237 | Creating a trip succeeds if and only if purpose, destination and country are each an active code of their own group, the dates are in order and the year's numbering has not rolled over; if it has, every otherwise sound request fails, by the unique constraint. |
| Theorems.ReportCreationSucceedsExactlyWhen | backend/app/services/expenses.py:263-302 | Creating a report succeeds if and only if the caller owns an approved or completed trip that has none yet and the year's numbering has not rolled over; if it has, every otherwise sound request fails. |
| Theorems.OnlyOwnersAndApproversWrite | backend/app/services/trip_rules.py:32-50 | A trip, report or item changes in a call only if the caller is its owner or approver, whatever the caller's role. |
| Theorems.StatusesFollowTheTables | backend/app/services/trip_status.py:11-34 | In one call, trips and reports move only along their transition tables, vanish only as drafts, and accounts move only along the sign-up table. |
| Theorems.SettledTripIsFinal | backend/app/services/trip_status.py:11-18 | A settled trip is the same row at the end of every continuation of the run. |
| Theorems.ApprovedReportIsFinal | backend/app/services/expense_rules.py:126-133 | An approved report and its items are the same rows at the end of every continuation of the run. |
| Theorems.SubmittedReportIsFrozen | backend/app/services/expense_rules.py:53-57 | From submission until a rejection, or forever, items, total, centers and approver of a report do not change: the approved total is the submitted one. |
| Theorems.SubmittedTripIsFrozen | backend/app/services/trip_rules.py:53-60 | From submission until a rejection, or forever, a trip stays in place and every requested field, its number, approver and submission time stay as they were: the approved trip is the submitted one. |
| Theorems.HistoryOnlyGrows | backend/app/services/history.py:25-60 | The log and the notifications at the end of any continuation extend those at its start. |
| Theorems.ActiveAccountsStayActive | backend/app/services/user_status.py:25-31 | No continuation removes an account, changes its e-mail, or takes an active account out of ACTIVE or changes its employee number. |
| Theorems.AccountsAreIdentified | backend/app/services/admin/users.py:152-263 | The accounts with an employee number are exactly the active ones; e-mails and employee numbers are unique. |
| Theorems.SignupOverwritesOnlyRejected | backend/app/services/signup.py:35-103 | A sign-up succeeds if and only if password and department pass and every account with the e-mail is rejected; it alters an existing row only if that row was rejected, and then only the applicant's own fields, and leaves a pending application with a closed login. |
| Theorems.OnlyActiveAccountsLogIn | backend/app/services/signup.py:35-103 | Along every run from empty tables in which no administrator edits an account, an account that is not active has its login closed. |
| Theorems.DecisionsSetTheLogin | backend/app/services/admin/users.py:232-275 | A decision only ever applies to a pending application; approval leaves the account active with its login open, an employee number and a manager other than itself; rejection leaves the login closed. |
| AccountServices.ApprovingUserDoes | backend/app/services/admin/users.py:232-263 | An approval succeeds if and only if the application is pending, the employee number is free, the manager is another existing user or none, and the position is active; employee number, position, manager and role become those sent, the account active and its login open, and nothing else changes; otherwise the error names the first problem. |
| AccountServices.RejectingUserDoes | backend/app/services/admin/users.py:266-275 | A rejection succeeds if and only if the application is pending, and changes status and login only. |
| AccountServices.CreatingUserDoes | backend/app/services/admin/users.py:152-188 | A user is created if and only if password, e-mail, employee number, department, manager and position pass; the row is the form's, active, and otherwise the error names the first problem. |
| AccountServices.UpdatingUserDoes | backend/app/services/admin/users.py:191-222 | An edit succeeds if and only if every sent value passes its check, nothing that must hold a value is cleared and administrators do not demote or switch off themselves; each field sent has the value sent, position and manager may be cleared, and nothing else changes. |
| AccountServices.SigningUpDoes | backend/app/services/signup.py:35-103 | A sound sign-up with a new e-mail inserts exactly the applicant's pending account as an employee without login; with a rejected e-mail it rewrites name, department, password, status and login of that row only; pending and active accounts are refused, each with its own error. |
| AccountServices.Utf8LengthAdds | backend/app/services/admin/users.py:152-153 | The length that bounds a password in bytes adds up over its characters, one to four for each. |
| MasterServices.CreatingCenterDoes | backend/app/services/admin/centers.py:66-87 | A center is created if and only if its code is unused and its department exists; only its own table changes. |
| MasterServices.UpdatingCenterDoes | backend/app/services/admin/centers.py:90-101 | A center is edited if and only if it exists, a department sent exists and the flag is not cleared; only its flag changes. |
| MasterServices.DeletingFundCenterDoes | backend/app/services/admin/centers.py:104-112 | A fund center goes if and only if it exists and no report or item holds its code. |
| MasterServices.DeletingCostCenterDoes | backend/app/services/admin/centers.py:104-112 | A cost center goes if and only if it exists and no trip, report or item holds its code. |
| MasterServices.CreatingCardDoes | backend/app/services/admin/cards.py:50-64 | A card is created if and only if its user exists. |
| MasterServices.DeletingCardDoes | backend/app/services/admin/cards.py:78-82 | A card goes if and only if it exists and has no transaction. |
| Progress.CanSettleExactlyWhen | backend/app/services/trip_rules.py:96-103 | From every reachable state and with the codes, years and clock readings fixed as given (only the date moves), a trip in any status can be settled by trip and report calls alone if and only if some expense category is active or its report already has an item row; given two active centers, a report numbering that has not rolled over and, before submission, a manager for the owner. |
| Progress.RowlessNeverSettles | backend/app/services/expenses.py:612-664 | No run without administration in which no expense category is ever active settles a trip whose report has no item row, whatever else changes from call to call. |
| Witness.SettledTripsAreReachable | backend/app/services/trips.py:485-512 | Some run from empty tables ends with a settled trip, so the statements about reachable states are not empty. |
| Witness.RejectedTripsAreReachable | backend/app/services/trips.py:365-395 | Some run from empty tables ends with a rejected trip, to which `Theorems.RejectedTripCanVanish` applies. |
| Witness.StuckTripsAreReachable | backend/app/services/expenses.py:418-457 | A reachable state with centers, manager and free numbers in which a trip cannot be settled, for want of an active category. |
| Witness.NumbersRunOut | backend/app/services/numbering.py:17-32 | A reachable state, after 10000 trips in a year, in which a sound request for a trip is refused. |
| Witness.SearchesDifferInAReachableState | backend/app/services/cards.py:35-37 | A reachable state in which a draft report holds a transaction that is still suggested and that the unsettled search hides. |
| History.RecordAdvances | backend/app/services/history.py:25-60 | Recording an entry moves a reader of that entity's log and mail by exactly one legal step, provided the notification is not addressed to the actor (it would be dropped). |
| History.RecordKeepsOthers | backend/app/services/history.py:25-60 | Recording an entry of one entity leaves the log and mail of every other entity as they were. |
| History.ReplayIsUnbroken | backend/app/services/history.py:25-60 | A log that replays successfully is an unbroken chain from creation to the replayed status. |
| History.ReplayIsProperlyMailed | backend/app/services/history.py:48-59 | A log and mail that replay successfully match one to one: right kind, right person, and every decision by the addressee of the latest submission. |
| TripRules.AssertTransitionAllowed | backend/app/services/trip_rules.py:117-141 | Passes if and only if the transition's actor is the owner and the user owns the trip, or it is the approver and the user is the approver; system transitions never pass for a user. |
| TripRules.AssertSystemTransition | backend/app/services/trip_rules.py:144-155 | Passes if and only if the transition belongs to the system. |
| TripRules.ActorTableIsComplete | backend/app/services/trip_rules.py:96-114 | The actor table has an entry for exactly the allowed transitions, as the import-time guard demands. |
| ExpenseRules.AssertReportTransitionAllowed | backend/app/services/expense_rules.py:165-184 | Passes if and only if the transition belongs to the owner and the user owns the report, or to the approver and the user is the approver. |
| ExpenseRules.StoredAmountStaysInRange | backend/app/services/expense_rules.py:81-87 | An amount passes if and only if it is between zero and the largest amount; after the column rounds it to two decimals it is still in range and off by at most half a hundredth, a half being rounded up. |
| ExpenseRules.StoredCentsOfCents | backend/app/services/expenses.py:418-457 | A card transaction's own amount is stored unchanged. |
| UserStatusRules.AssertSignupTransition | backend/app/services/user_status.py:60-73 | Passes if and only if the table has the transition and names this actor for it. |
| Numbering.ParseUndoesPad4 | backend/app/services/numbering.py:17-50 | Parsing a zero-padded serial gives the serial back, for every natural number. |
| Numbering.DocNoIsInjective | backend/app/services/numbering.py:17-50 | A document number determines its year and serial and matches the prefix of no other year. |
| Numbering.LexIsNumericAtEqualWidth | backend/app/services/numbering.py:17-50 | At equal width, string order on digits is numeric order. |
| Numbering.LastNoIsTheMaximum | backend/app/services/numbering.py:17-32 | The scan yields the string maximum of the numbers with the prefix, and nothing if there are none. |
| Numbering.NumbersAreWritten | backend/app/services/numbering.py:17-32 | The written form: tag, year and serial joined by dashes, the serial in four digits. |
| Numbering.NextNoFollowsTheMaximum | backend/app/services/numbering.py:17-50 | The next number is always computed; its serial is one more than that of the string maximum of the year, or one. |
| Numbering.FourDigitSerialsNeverCollide | backend/app/services/numbering.py:17-50 | While serials have at most four digits the string maximum is the numeric maximum and the next number is unused. |
| Numbering.NextNoIsTakenExactlyAtRollOver | backend/app/services/numbering.py:17-50 | The next number is already in use if and only if the year has rolled over: a live serial that is all nines has a live successor, and no live serial sorts after it. |
| Numbering.FourDigitsHaveNotRolledOver | backend/app/services/numbering.py:17-50 | With serials of at most four digits no year has rolled over. |
| Numbering.TenThousandRollsOver | backend/app/services/numbering.py:17-50 | The failing input: a year whose live serials are exactly 1 to 10000 has rolled over. |
| Codes.VerdictReportsTheFirstProblem | backend/app/services/codes.py:26-75 | Field-by-field checking accepts if and only if every group is active and every value an active code of its group; otherwise it names the first unknown group in spec order or, if none, the first bad value. |
| Codes.ValidateCodes | backend/app/services/codes.py:26-75 | The batched validation with two grouped queries agrees with field-by-field checking on every table and every list of specs. |
| Codes.LoadGroupIds | backend/app/services/codes.py:26-75 | The dictionary of the first query has exactly the wanted active groups, each with the id of such a group. |
| Codes.LoadAllowedCodes | backend/app/services/codes.py:26-75 | The dictionary of the second query holds, for each group id asked for, exactly its active codes. |
| Stores.Store.CreateTrip | backend/app/services/trips.py:215-237 | Creates a numbered draft with its log entry, or refuses. The new tables and the outcome are those of the service function the theorems speak about; a refusal leaves every table as it was. |
| Stores.Store.UpdateTrip | backend/app/services/trips.py:240-267 | Assigns the sent fields one by one after validating codes and the merged date range. The new tables and the outcome are those of the service function the theorems speak about; a refusal leaves every table as it was. |
| Stores.Store.DeleteTrip | backend/app/services/trips.py:270-277 | Removes a draft of the caller and nothing else. The new tables and the outcome are those of the service function the theorems speak about; a refusal leaves every table as it was. |
| Stores.Store.SubmitTrip | backend/app/services/trips.py:300-333 | Submits to the owner's manager of that moment, clearing the old decision. The new tables and the outcome are those of the service function the theorems speak about; a refusal leaves every table as it was. |
| Stores.Store.ApproveTrip | backend/app/services/trips.py:336-362 | Approves and notifies the owner. The new tables and the outcome are those of the service function the theorems speak about; a refusal leaves every table as it was. |
| Stores.Store.RejectTrip | backend/app/services/trips.py:365-395 | Rejects with the stripped reason and notifies the owner. The new tables and the outcome are those of the service function the theorems speak about; a refusal leaves every table as it was. |
| Stores.Store.ReopenTrip | backend/app/services/trips.py:398-427 | Returns a rejected trip to draft, dropping approver and timestamps and keeping the reason. The new tables and the outcome are those of the service function the theorems speak about; a refusal leaves every table as it was. |
| Stores.Store.CompleteTrip | backend/app/services/trips.py:430-450 | Completes an approved trip that ended before today. The new tables and the outcome are those of the service function the theorems speak about; a refusal leaves every table as it was. |
| Stores.Store.SettleTripForReport | backend/app/services/trips.py:485-512 | Settles the trip inside the caller's transaction. The new tables and the outcome are those of the service function the theorems speak about; a refusal leaves every table as it was. |
| Stores.Store.CreateReport | backend/app/services/expenses.py:263-302 | Creates the one report of an approved or completed trip, inheriting owner, approver and cost center. The new tables and the outcome are those of the service function the theorems speak about; a refusal leaves every table as it was. |
| Stores.Store.UpdateReport | backend/app/services/expenses.py:305-332 | Assigns the sent centers after checking them. The new tables and the outcome are those of the service function the theorems speak about; a refusal leaves every table as it was. |
| Stores.Store.RecalcTotal | backend/app/services/expenses.py:335-352 | Adds up the included rows in a loop and stores the sum, or refuses above the bound. The new tables and the outcome are those of the service function the theorems speak about; a refusal leaves every table as it was. |
| Stores.Store.AssertUsableTransaction | backend/app/services/expenses.py:375-407 | Returns the transaction or the error the checks name. The new tables and the outcome are those of the service function the theorems speak about; a refusal leaves every table as it was. |
| Stores.Store.AddItem | backend/app/services/expenses.py:418-457 | Inserts the item and recounts; above the bound the insertion is rolled back. The new tables and the outcome are those of the service function the theorems speak about; a refusal leaves every table as it was. |
| Stores.Store.UpdateItem | backend/app/services/expenses.py:460-480 | Assigns the sent fields and recounts, rolling back above the bound. The new tables and the outcome are those of the service function the theorems speak about; a refusal leaves every table as it was. |
| Stores.Store.DeleteItem | backend/app/services/expenses.py:483-489 | Deletes the row and recounts. The new tables and the outcome are those of the service function the theorems speak about; a refusal leaves every table as it was. |
| Stores.Store.SubmitReport | backend/app/services/expenses.py:612-664 | Recounts, takes the trip's approver, records and notifies. The new tables and the outcome are those of the service function the theorems speak about; a refusal leaves every table as it was. |
| Stores.Store.ApproveReport | backend/app/services/expenses.py:667-701 | Approves and settles the trip, both or neither. The new tables and the outcome are those of the service function the theorems speak about; a refusal leaves every table as it was. |
| Stores.Store.RejectReport | backend/app/services/expenses.py:704-735 | Rejects with the stripped reason and notifies the owner. The new tables and the outcome are those of the service function the theorems speak about; a refusal leaves every table as it was. |
| Stores.Store.ReopenReport | backend/app/services/expenses.py:738-766 | Returns a rejected report to draft. The new tables and the outcome are those of the service function the theorems speak about; a refusal leaves every table as it was. |
| Stores.Store.RecordTransition | backend/app/services/history.py:25-60 | Appends the log entry and, unless it would go to the actor, the notification. The new tables and the outcome are those of the service function the theorems speak about; a refusal leaves every table as it was. |
| Stores.Store.Signup | backend/app/services/signup.py:35-70 | Inserts a pending account or hands over to the resubmission. The new tables and the outcome are those of the service function the theorems speak about; a refusal leaves every table as it was. |
| Stores.Store.Resubmit | backend/app/services/signup.py:73-103 | Overwrites a rejected application only. The new tables and the outcome are those of the service function the theorems speak about; a refusal leaves every table as it was. |
| Stores.Store.CreateUser | backend/app/services/admin/users.py:152-188 | Creates an active account after all checks. The new tables and the outcome are those of the service function the theorems speak about; a refusal leaves every table as it was. |
| Stores.Store.UpdateUser | backend/app/services/admin/users.py:191-222 | Assigns the sent fields; an administrator cannot demote or deactivate themselves. The new tables and the outcome are those of the service function the theorems speak about; a refusal leaves every table as it was. |
| Stores.Store.ApproveUser | backend/app/services/admin/users.py:232-263 | Activates a pending application. The new tables and the outcome are those of the service function the theorems speak about; a refusal leaves every table as it was. |
| Stores.Store.RejectUser | backend/app/services/admin/users.py:266-275 | Rejects a pending application. The new tables and the outcome are those of the service function the theorems speak about; a refusal leaves every table as it was. |
| Stores.Store.CreateCenter | backend/app/services/admin/centers.py:66-87 | Creates a center with an unused code. The new tables and the outcome are those of the service function the theorems speak about; a refusal leaves every table as it was. |
| Stores.Store.UpdateCenter | backend/app/services/admin/centers.py:90-101 | Assigns the sent fields of a center. The new tables and the outcome are those of the service function the theorems speak about; a refusal leaves every table as it was. |
| Stores.Store.DeleteCenter | backend/app/services/admin/centers.py:104-112 | Looks through every referencing column in a loop and deletes only an unreferenced center. The new tables and the outcome are those of the service function the theorems speak about; a refusal leaves every table as it was. |
| Stores.Store.CreateCard | backend/app/services/admin/cards.py:50-64 | Creates a card for an existing user. The new tables and the outcome are those of the service function the theorems speak about; a refusal leaves every table as it was. |
| Stores.Store.DeleteCard | backend/app/services/admin/cards.py:78-82 | Deletes a card without transactions. The new tables and the outcome are those of the service function the theorems speak about; a refusal leaves every table as it was. |
| Stores.Store.ServeAll | backend/app/services/expenses.py:263-766 | Serving any sequence of requests on the mutable tables ends in exactly the state of the run the theorems speak about, so each of them holds of the store. |
| AdminProofs.DeleteCenterKeeps | backend/app/services/admin/centers.py:104-112 | Deleting a center keeps the invariant: the columns searched are all the columns that can hold its code. |
| AdminProofs.UpdateUserKeepsUsers | backend/app/services/admin/users.py:191-222 | An administrator's edit changes one account only, never its status, e-mail, employee number or password, and never leaves a user as their own manager; accounts stay identified. |
| Matching.FindCandidates | backend/app/services/matching.py:77-114 | The loop as written returns the filtered and sorted candidates, or fails at the first considered transaction without a time zone. |
| Matching.CandidatesAreExactlyTheWindow | backend/app/services/matching.py:77-114 | The result holds exactly the transactions that are not cancelled, not excluded and within a day of the trip, in strictly increasing order of approval time and id; it fails if and only if a considered transaction has no time zone. |
| Matching.OrderOfInputDoesNotMatter | backend/app/services/matching.py:77-114 | Any two inputs with the same transactions give the same result. |
| Matching.ReasonsNameTheDay | backend/app/services/matching.py:65-74 | Among the chosen, the fare reasons are given exactly to transport, the plain ones exactly to everything else, the day-before ones exactly on start minus one, the day-after ones exactly on end plus one, and the in-trip ones exactly in between, the stay exactly to lodging. |
| Matching.SuggestionIsACategory | backend/app/services/matching.py:18-25 | The suggestion is the merchant's category if that is one of the five expense categories, and ETC in every other case. |
| Matching.KoreanDayBeginsAtFifteen | backend/app/services/matching.py:50-58 | The Korean day of an instant is the one that began at 15:00 UTC of the day before. |
| Matching.PrefilterLosesNothing | backend/app/services/expenses.py:492-533 | Matching the transactions of two UTC days either side of the trip equals matching all of them, for every time zone whose offset is at most a day at each instant. |
| Matching.TwoDayMarginIsExact | backend/app/services/expenses.py:492-533 | The margin of two days suffices for a fixed offset if and only if the offset is at most 24 hours either way. |
| MatchCandidates.ListMatchCandidates | backend/app/services/expenses.py:498-592 | For rows in any order, and for every time zone whose offset is at most a day, a viewer gets exactly the owner's transactions that are not cancelled, in the window by local day and not in another submitted or approved report, once each, in order; each with the reason of its day, its own category or ETC as suggestion, and marked as added exactly if an item of this report holds it; others get 'not found'. |
| MatchCandidates.VisibleReportsAreAnswered | backend/app/services/expenses.py:498-512 | In a reachable state the trip of a visible report always exists. |
| TwoSearches.SearchesDifferExactlyWhen | backend/app/services/cards.py:35-37 | In every reachable state and for every transaction that passes all other conditions of both, a report's suggestions and its owner's unsettled search disagree if and only if the transaction is held, and only by that report or by reports in DRAFT or REJECTED; it is then the search that hides it. The comment in the code says the two criteria are the same. |
| CardSearch.ListCardTransactions | backend/app/services/cards.py:79-138 | The answer is one page of all the caller's wanted transactions, newest first, and their number; wanted is stated without SQL: own card, Korean day within the range, held by no item when asked, and so on. |
| CardSearch.BuildConditions | backend/app/services/cards.py:89-114 | The appended list holds exactly the conditions the filters call for; an empty text calls for none. |
| CardSearch.EmptyTextIsAbsent | backend/app/services/cards.py:98-103 | An empty search text or category asks for the same as an absent one. |
| CardSearch.KeptIsWanted | backend/app/services/cards.py:20-114 | Under three-valued logic a row passes all conditions if and only if it is wanted: local midnight cuts by Korean day, and the guarded NOT IN keeps exactly what no item holds. |
| CardSearch.NotInIsTrueExactlyWithoutNulls | backend/app/services/cards.py:104-113 | NOT IN is true if and only if the value is absent and the list has no NULL. |
| CardSearch.OneManualItemWouldEmptyTheSearch | backend/app/services/cards.py:104-113 | Without the guard a single manual item would make every row fail. |
| CardSearch.ResultIsUnique | backend/app/services/cards.py:120-132 | The order is strict, so the answer is determined. |
| CardSearch.CountIsLength | backend/app/services/cards.py:115-132 | The count query agrees with the list that is paged. |
| CardSearch.PagesLeaveNoGapAndRepeatNothing | backend/app/services/cards.py:122-138 | Page after page until the total is reached gives the whole list, each wanted transaction once. |
| CardSearch.PlainTextIsSubstringSearch | backend/app/services/cards.py:102-103 | A search text without wildcards matches if and only if it occurs in the name, ignoring case. |
| CardSearch.PercentFindsEverything | backend/app/services/cards.py:102-103 | Wildcards are not escaped: a percent sign finds every merchant. |
| CardSearch.UnderscoreFindsAnyName | backend/app/services/cards.py:102-103 | An underscore finds every merchant with a name. |
| CardSearch.BackslashFindsFinalPercent | backend/app/services/cards.py:102-103 | A lone backslash finds exactly the names that end in a percent sign. |
| ApiScopes.ScopesByText | backend/app/enums.py:45-51 | Exactly the six declared texts name a scope, each its own. |
| ApiScopes.CollectCalls | backend/app/services/api_scopes.py:174-180 | The walk with an explicit stack terminates and collects exactly the calls on some path below the root, at any depth, the root's own call excluded. |
| ApiScopes.CallsInAreBelow | backend/app/services/api_scopes.py:174-180 | Collected calls are those reachable by some path of child positions. |
| ApiScopes.AuthenticatedRoutes | backend/app/services/api_scopes.py:154-185 | Finds exactly the endpoints of API routes behind the authentication dependency, HEAD and OPTIONS aside. |
| ApiScopes.AssertScopeTableComplete | backend/app/services/api_scopes.py:188-213 | Passes if and only if table and routes agree in both directions. |
| ApiScopes.DeclaredExactlyIfAuthenticated | backend/app/services/api_scopes.py:139-151 | After the guard a request is undeclared if and only if no authenticated route serves it by a method other than HEAD or OPTIONS; a key passes if and only if it has the declared scope or none is needed. |
| ApiScopes.HeadIsRefused | backend/app/services/api_scopes.py:139-151 | The case the docstring rules out: an authenticated HEAD route passes the guard and is refused on every request. |
| ApiScopes.ScopeCatalog | backend/app/services/api_scopes.py:120-136 | One entry per scope in declaration order, each listing in sorted order the endpoints that need it. |
| ApiScopes.CatalogListsEachEndpointOnce | backend/app/services/api_scopes.py:120-136 | Every scoped endpoint appears exactly once, under its own scope; one that needs no scope does not appear. |
| ApiKeys.CountedIsActive | backend/app/services/api_keys.py:39-47 | The condition of the counting query is the state rule. |
| ApiKeys.ScopesAreCanonical | backend/app/services/api_keys.py:98-114 | The stored scopes are exactly those asked for, each once, independent of order and repetition of the request. |
| ApiKeys.NeverMoreThanTenActive | backend/app/services/api_keys.py:117-154 | Over any run with the clock moving forward, no user has more than ten active keys, at its end or at any later time. |
| ApiKeys.IssuingSucceedsExactlyWhen | backend/app/services/api_keys.py:98-154 | A key is issued if and only if at least one scope is asked for, all are known, the user has fewer than ten active keys and the hash is new; the row is given, and no other row changes. |
| ApiKeys.RevokingAndRefusing | backend/app/services/api_keys.py:50-81 | Revoking succeeds once, for the owner, and only sets the time; a login is refused for the first reason that applies, each with its own error. |
| ApiKeys.DeadKeysStayDead | backend/app/services/api_keys.py:50-81 | A key that was revoked or had expired never authenticates again, and a revoked one keeps answering that it is revoked. |
| ApiKeys.IssuedKeyWorksExactlyUntil | backend/app/services/api_keys.py:50-81 | After any continuation an issued key logs its owner in, with the scopes asked for, if and only if the owner has not revoked it, it has not expired and the owner's login is open. |
| ApiKeys.RunAges | backend/app/services/api_keys.py:173-184 | A key row never disappears or changes owner, hash, scopes or expiry; it is revoked exactly by a call of its owner. |
| ApiKeys.KeyStore.Create | backend/app/services/api_keys.py:117-154 | Issues the key with its hash or refuses without a change; only the hash is stored. |
| ApiKeys.KeyStore.Revoke | backend/app/services/api_keys.py:173-184 | Revokes the caller's own key once; other keys are 'not found'. |
| ApiKeys.KeyStore.Use | backend/app/services/api_keys.py:50-81 | Authenticates and marks the use, or gives the error of the first failing check. |
| ApiKeys.KeyStore.CountActive | backend/app/services/api_keys.py:123-133 | The counting loop yields the number of the user's active keys. |

## Left out

- Sessions, SQL text, HTTP, routers and pydantic: one service call is one atomic step. The guards of the routers (roles,
  active login) and the limits of the request schemas are not assumed, so the theorems hold for any existing caller and
  any input of the right shape.
- Races between a query and the commit: requests are served one after the other, as `numbering.py:3-6` assumes.
- Rows are values in maps and are written back whole; two references to one row held at the same time are not modelled.
- Id sequences give back their value when an insertion is rolled back; database sequences would skip it.
- Centers are keyed by their unique, immutable code instead of a surrogate id; their names are left out.
- Code tables and departments are inputs of each call, changing freely between calls; their own administration (codes,
  code groups, the department tree) is not part of this model.
- The feed of card transactions is an outside step, `PostTransaction`: a transaction arrives on an existing card and
  never changes. Card details other than the owner are left out.
- Explicit null for a column that must hold a value is a failed call without a change.
- Free texts that no rule reads (purpose detail, city, memos, messages, titles and links of notifications, names for
  display, `effective_center`) are left out; so are lists, detail views, timelines and their paging, except the two
  searches named above.
- Group and field names of code checks are enumerations instead of strings.
- Time: days are unbounded integers and instants microseconds. `asyncio`, time outs and clocks that go back are left out.
- CardSearch.ListCardTransactions: Korean time is nine hours ahead of UTC at every instant, as it has been since
  October 1988; case folding is a parameter applied character by character.
- TwoSearches.SearchesDifferExactlyWhen: has the same fixed offset.
- Numbering.LastNoIsTheMaximum: string order is code point order, not the collation of a database.
- ApiScopes.DeclaredExactlyIfAuthenticated: upper-casing covers ASCII letters; the concrete table of endpoints is a
  parameter.
- ApiKeys.IssuedKeyWorksExactlyUntil: the hash is a parameter and a hash in use is refused at issue; the random source
  and the displayed key prefix are left out, as are passwords and JWT.
- That a card transaction is in only one submitted report is not claimed: the code checks duplicates within one report.
- That an account with its login open is active is not claimed over runs in which an administrator edits accounts: the
  edit sets the flag freely.
- Seed data is not an initial state; runs start from empty tables.
- The frontend, the command line, OpenAPI texts and deployment files.
