# Verified model of the InfoBank agent, its mock financial service and its red-team tools

This project models the parts of the repository whose correctness spans many calls, and proves what they promise.

- **The ledger service** (`LedgerTables`, `LedgerOperations`, `LedgerInvariant`, `LedgerTheorems`, `LedgerKeys`,
  `LedgerAnswers`, `LedgerAudit`, `LedgerView`, `FinancialService`): account creation, idempotent transfers, cards with
  deferred settlement, daily closing, reconciliation and the balance view. The class `Service` runs the statements of
  each operation on its fields and is proved against the functions of `LedgerOperations`; what each request answers and
  changes is stated on the rows of the tables, and the results are about every sequence of requests.
- **The transfer workflows** (`TransferContract`, `TransferWorkflow`, `TransferRoutes`, `TransferHistory`): the internal
  and external human-in-the-loop workflows as published in the management sheet tables (steps, routes, mappings,
  resets), run against a Backend and a user that keep to the documented outcomes. Runs are unbounded; results are about
  all reachable states and what happened on the way there.
- **Smaller cores**: the two worklist shape validators, the bounded regex filter, the attack generator's retry loop, the
  mock ledger walk, the manifest builder, validator and store, the routing policy, the text printers and parsers and
  the pass that adds input request mappings.

## How the model reads the source

- Each ledger operation is one atomic step that commits or rolls back. A rowid is a position in an append-only table and
  global to it. The payload hash is injective. Idempotency keys are a datatype with the client form and the two forms
  the service derives; clients may send any of the three, so the unique-key failure this allows is modelled.
- Generated ids and account numbers, and chosen banks, arrive as parameters.
- Where the documentation and the code differ, the code is followed: `charge_card` replays on its key alone and compares
  neither card nor amount; `BANK_NOT_SUPPORTED` and the `/snapshot` endpoint do not exist. The card limit invariant is
  about runs from the empty store, not about the seeded mock data.
- A workflow outcome that breaks its contract arrives as the outcome Fault, which the routes send to the error step. The
  Backend honours excluded accounts, offers the user only its candidates, and gives an id it issued before only to the
  call it issued it for. Both workflows share one set of step names.
- The workflow code under `agent/src/agent/workflows` departs from the published tables in places, among them the
  handling of cancelled corrections, what resets preserve, and the exclusion of accounts. The tables are modelled, not
  that code.
- In the generator, drafts are raw: an object or not, with fields that may be absent or blank. What the planner, the
  model, the deterministic check, the classifier and the intent validator answer is an argument, one round for each
  retry, exceptions included: of a type the code catches, of another type, or out of the intent validator, which the
  code calls outside its try block. Only the last two make the telemetry counts inconsistent. The intent validator the
  repository ships compares fields and does not raise, so this takes another validator or an unlisted exception type.
  Used variations are recorded normalized while enums list the examples as they are, so what is said of withdrawn and
  fresh variations holds for pools that normalization leaves alone; the exact condition and a counterexample are proved.
- Pattern matching is modelled on expressions with their printed text. A text may be the print of several
  expressions; the result holds for each, so it holds for the reading of Python's `re`. Anchors are taken to hold
  everywhere, which only admits more matches.

## Model

| member | source | states |
|---|---|---|
| `LedgerTheorems.BalancesOfRun` | mock-financial-service/src/financial_service/crud.py:29-52 | after any request sequence from the empty store each stored balance is CREDIT sum minus DEBIT sum, is never negative, and is the running balance of the account's last entry |
| `LedgerTheorems.RunningBalancesOfRun` | mock-financial-service/src/financial_service/crud.py:290-323 | each ledger entry shows the net sum of its account over the entries up to and including it |
| `LedgerTheorems.MoneyIsConserved` | mock-financial-service/src/financial_service/crud.py:86-129 | all balances total the initial deposits minus the card settlements, and every transaction has exactly the entries of its kind (transfer: one DEBIT and one CREDIT; seed: one CREDIT; settlement: one DEBIT) |
| `LedgerTheorems.ExactlyOnce` | mock-financial-service/src/financial_service/crud.py:222-283 | deleting every replay, conflict and rejection from any request sequence changes no table, and everything that remains succeeds |
| `LedgerTheorems.ReplayReturnsTheOriginal` | mock-financial-service/src/financial_service/crud.py:231-247 | a repeated transfer returns the original transaction for ever after, whatever the balances now are, and writes nothing |
| `LedgerTheorems.ConflictStays` | mock-financial-service/src/financial_service/crud.py:231-247 | a used key with another payload stays a conflict for ever after |
| `LedgerTheorems.RefusalKeepsTheKey` | mock-financial-service/src/financial_service/crud.py:249-283 | a refused transfer does not consume its key; only a conflict finds the key taken |
| `LedgerTheorems.RunExtends` | mock-financial-service/src/financial_service/crud.py:285-343 | every table only grows along any run: no row of transactions, entries, charges, cards or snapshots is changed or removed |
| `LedgerTheorems.CardsOfRun` | mock-financial-service/src/financial_service/crud.py:560-631 | a card's charges total its settlements plus the usage beyond the watermark, and that usage stays between 0 and the limit |
| `LedgerTheorems.WatermarksIncrease` | mock-financial-service/src/financial_service/crud.py:646-688 | successive settlements of one card carry strictly increasing watermarks |
| `LedgerTheorems.SettledAtMostOnce` | mock-financial-service/src/financial_service/crud.py:560-577 | no charge is paid for by two settlements |
| `LedgerTheorems.SettledExactlyUpToWatermark` | mock-financial-service/src/financial_service/crud.py:571-577 | a charge is paid for exactly when its rowid is covered by its card's watermark |
| `LedgerTheorems.ChargeReplay` | mock-financial-service/src/financial_service/crud.py:580-600 | a used charge key replays its first charge on any existing card and for any amount; the row returned is the one asked for exactly when card and amount are the same |
| `LedgerTheorems.SettlementKeyFresh` | mock-financial-service/src/financial_service/crud.py:664-702 | settling fails on the unique key exactly when a transfer carries the very key the settlement derives; never because of an earlier settlement |
| `LedgerTheorems.SettlementSucceeds` | mock-financial-service/src/financial_service/crud.py:634-724 | when clients keep to their own key form, a settlement that passes its checks always succeeds |
| `LedgerTheorems.SettlementCanCollide` | mock-financial-service/src/financial_service/crud.py:664-702 | a concrete run in which a transfer with the text of a settlement key makes a card impossible to settle |
| `LedgerKeys.SeedKeyFresh` | mock-financial-service/src/financial_service/crud.py:80-129 | opening an account under an unused id and number fails exactly when it comes with a deposit whose key a transfer has taken; no earlier deposit or settlement is in the way |
| `LedgerKeys.OpeningSucceeds` | mock-financial-service/src/financial_service/crud.py:80-129 | when clients keep to their own key form, an unused id and number are all it takes to open an account |
| `LedgerKeys.OpeningCanCollide` | mock-financial-service/src/financial_service/crud.py:116-129 | a concrete run in which a transfer with the text of a seed key keeps an account from being opened with a deposit |
| `LedgerTheorems.UnclosedExactly` | mock-financial-service/src/financial_service/crud.py:438-446 | a closing run picks exactly the accounts without a snapshot for the date |
| `LedgerTheorems.ClosingIsIdempotent` | mock-financial-service/src/financial_service/crud.py:424-496 | after a closing each account has one snapshot for the date, earlier ones kept, new ones equal to the stored balance; a second run creates and changes nothing |
| `LedgerTheorems.SnapshotStaysTrue` | mock-financial-service/src/financial_service/crud.py:424-496 | a snapshot is there unchanged in every later state and the entries up to its last rowid still net to its closing balance |
| `LedgerInvariant.StepKeeps` | mock-financial-service/src/financial_service/crud.py:80-724 | each of the six operations, successful, refused or replayed, keeps the whole ledger invariant |
| `LedgerInvariant.Reachable` | mock-financial-service/src/financial_service/crud.py:80-724 | the ledger invariant holds after every request sequence from the empty store |
| `LedgerInvariant.TransferKeeps` | mock-financial-service/src/financial_service/crud.py:217-355 | a transfer keeps books, running balances, cards and snapshots in agreement on every path |
| `LedgerInvariant.SettleCardKeeps` | mock-financial-service/src/financial_service/crud.py:634-724 | a settlement keeps the books in agreement and settles exactly the usage beyond the watermark |
| `LedgerTables.WatermarkIsMax` | mock-financial-service/src/financial_service/crud.py:560-568 | the watermark query yields the largest watermark among a card's settlements, 0 when it has none |
| `LedgerTables.UsageSplits` | mock-financial-service/src/financial_service/crud.py:571-577 | usage beyond a watermark and charges up to it add up to all charges |
| `LedgerView.ViewShowsStoredBalances` | mock-financial-service/src/financial_service/migrations.py:73-93 | the LEFT JOIN / GROUP BY view has one row per account, also for accounts without entries, with the stored balance, both filtered sums and the entry count |
| `FinancialService.Service.CreateAccount` | mock-financial-service/src/financial_service/crud.py:80-129 | the statements of account creation open the account exactly when id, number and seed key are free, add exactly its rows, and keep the store valid |
| `FinancialService.Service.GetBalance` | mock-financial-service/src/financial_service/crud.py:29-52 | the full recomputation equals the stored balance of the account |
| `LedgerAudit.RefusalsAreLogged` | mock-financial-service/src/financial_service/crud.py:186-214 | over any request sequence the audit log holds exactly one failure row for each refused transfer, in order and with the reason the client was given; replays and all other requests leave none |
| `LedgerAudit.TransactionsAreLogged` | mock-financial-service/src/financial_service/crud.py:55-77 | over any request sequence the audit log names every transaction exactly once, in the order of the table |
| `LedgerAnswers.TransferDecided` | mock-financial-service/src/financial_service/crud.py:231-283 | a transfer under a used key is a replay or a conflict as its payload is the same or not; under a new key each refusal happens exactly in its own case, first reason first, and it is created exactly when sender and receiver are different existing numbers, the bank is that of the receiver row, and 0 < amount <= the balance of the sender row |
| `LedgerAnswers.TransferCarriedOut` | mock-financial-service/src/financial_service/crud.py:285-355 | a created transfer takes the amount from the row with the sender number, adds it to the row with the receiver number, leaves every other row, and adds the one transaction, its two entries and its audit row; a refusal changes nothing and leaves one failure row, a replay none |
| `LedgerAnswers.ChargeDecided` | mock-financial-service/src/financial_service/crud.py:580-631 | a charge is refused for an unknown card, replayed for a used key, and otherwise accepted exactly when what is due plus the amount is at most the limit; accepted it adds its one row |
| `LedgerAnswers.DueIsUsage` | mock-financial-service/src/financial_service/crud.py:571-577 | the sum beyond the watermark is the sum of the charges of the card that no settlement covers |
| `LedgerAnswers.SettlementDecided` | mock-financial-service/src/financial_service/crud.py:634-668 | a settlement is refused exactly for an unknown card, for nothing due, for a missing account, for a balance of the account of the card below what is due, or for a taken key, in this order |
| `LedgerAnswers.SettlementCarriedOut` | mock-financial-service/src/financial_service/crud.py:664-724 | a created settlement lowers the balance of the account of the card, and of no other, by exactly what is due, and adds its one transaction, entry and audit row |
| `LedgerAnswers.CardsPayThemselves` | mock-financial-service/src/financial_service/crud.py:676-694 | in every reachable state the sender and receiver of each settlement is the account of the card it settles |
| `LedgerAnswers.OpeningDecided` | mock-financial-service/src/financial_service/crud.py:80-129 | an account is opened exactly when its id and number and, with a deposit, its seed key are free; its row, and its deposit with one entry, are the only rows added |
| `LedgerAnswers.IssueDecided` | mock-financial-service/src/financial_service/crud.py:519-549 | a card is refused for an unknown account or a taken id and otherwise adds its one row |
| `LedgerAnswers.ClosingDecided` | mock-financial-service/src/financial_service/crud.py:424-496 | a closing adds one snapshot, of the sums of its ledger, for each account without one for the date, keeps all earlier ones, and logs how many it made |
| `FinancialService.Service.Transfer` | mock-financial-service/src/financial_service/crud.py:217-374 | on the fields of the store: created exactly on unused keys with different known numbers, the bank of the receiver row and a covered positive amount; each refusal exactly in its case; only the two rows move; and the assertions after the commit never fire |
| `FinancialService.Service.ReconcileBalance` | mock-financial-service/src/financial_service/crud.py:380-418 | reconciliation never reports drift in a valid store |
| `FinancialService.Service.CreateCard` | mock-financial-service/src/financial_service/crud.py:519-549 | card creation fails exactly on an unknown account or a taken id, adds one row otherwise, and keeps the store valid |
| `FinancialService.Service.ChargeCard` | mock-financial-service/src/financial_service/crud.py:580-631 | charging accepts exactly up to the limit, replays on the key alone, and adds one charge |
| `FinancialService.Service.SettleCard` | mock-financial-service/src/financial_service/crud.py:634-724 | settling charges the account of the card, and no other, exactly what is due on the card, and is refused exactly in the stated cases |
| `FinancialService.Service.CloseOpenAccounts` | mock-financial-service/src/financial_service/crud.py:435-478 | the loop over accounts builds exactly the snapshots of the accounts not yet closed |
| `FinancialService.Service.RunDailyClosing` | mock-financial-service/src/financial_service/crud.py:424-496 | the closing adds exactly the missing snapshots and keeps the store valid |
| `TransferWorkflow.KeysNeverRepeat` | agent/scripts/build_agent_management_sheet_v3.py:8836-8844 | over any run of either workflow no two logical Prepare, auth-context or Execute calls share an idempotency key, although resets put auth_attempt back to 0 |
| `TransferWorkflow.ExecuteIsAuthorised` | agent/scripts/build_agent_management_sheet_v3.py:3425-3881 | at Execute the confirmation answers the most recent Prepare, that Prepare was for the terms now in the state, the user approved it, and the auth context was created for it in the current attempt and verified |
| `TransferWorkflow.NothingIsInherited` | agent/scripts/build_agent_management_sheet_v3.py:9007-9015 | each confirmation a Prepare yields starts unapproved and each auth context starts unverified |
| `TransferWorkflow.DefinitelyAssigned` | agent/scripts/build_agent_management_sheet_v3.py:8529-9214 | every required input of every step is set whenever the step is entered, whatever was reset before |
| `TransferWorkflow.PrepareIsWellFormed` | agent/scripts/build_agent_management_sheet_v3.py:8656-8664 | a Prepare has a positive amount and two different accounts (internal) or exactly one of recipient and recipient candidate (external) |
| `TransferWorkflow.StaysInItsWorkflow` | agent/scripts/build_agent_management_sheet_v3.py:4295-4744 | a run never enters a step its workflow does not have |
| `TransferWorkflow.NeverStuck` | agent/scripts/build_agent_management_sheet_v3.py:4295-4744 | every step but END has an outcome a documented environment can give |
| `TransferWorkflow.AtMostOneTransfer` | agent/scripts/build_agent_management_sheet_v3.py:3425-3881 | a run completes at most one transfer |
| `TransferWorkflow.ExecuteIsReachable` | agent/scripts/build_agent_management_sheet_v3.py:3425-3881 | both workflows have runs that reach Execute, so the results about it are not empty |
| `TransferWorkflow.StepKeeps` | agent/scripts/build_agent_management_sheet_v3.py:3425-3881 | every step of both workflows keeps the invariant behind the results above |
| `TransferWorkflow.AnswersAreNew` | agent/scripts/build_agent_management_sheet_v3.py:9106-9114 | a new Prepare yields a confirmation id, and a new auth call an auth context id, never seen before |
| `TransferWorkflow.SpentKept` | agent/scripts/build_agent_management_sheet_v3.py:9627-9635 | an idempotency key once sent can never be formed again, through counters, corrections and resets |
| `TransferRoutes.RoutesFollowTheRows` | agent/scripts/build_agent_management_sheet_v3.py:3425-3881 | at every step of both workflows, whatever happens, exactly one row of the route tables applies, and the run takes it |
| `TransferRoutes.CorrectionAsksAgain` | agent/scripts/build_agent_management_sheet_v3.py:3622-3748 | in every reachable state, however a target is chosen for correction (at the approval, as the only target, among several): the reset is all that can follow, it clears exactly the terms of that target with the confirmation and authentication built on them, keeps the Prepare counter, and the step that follows asks for that target; a target of the other workflow is a contract error |
| `TransferHistory.StateIsTheLastAnswers` | agent/scripts/build_agent_management_sheet_v3.py:8529-9295 | at every point of a run each key of the state holds what the last outcome about it said, resets included; so a Prepare is called with the accounts and the amount given last |
| `TransferHistory.WhatLedToExecute` | agent/scripts/build_agent_management_sheet_v3.py:3587-3831 | every run that is about to move money had its very terms prepared, the answer to that Prepare approved next, nothing but authentication since, and last the auth context it holds created and the user verified in it |
| `TransferHistory.EveryCallHasItsKey` | agent/scripts/build_agent_management_sheet_v3.py:8836-8844 | the keys sent are as many as the calls made, and each Prepare, auth-context and Execute call has its own, formed from the confirmation and the counter of its moment |
| `TransferHistory.PrepareAttemptCounts` | agent/scripts/build_agent_management_sheet_v3.py:8656-8664 | the Prepare counter is the number of Prepare attempts the run has started |
| `TransferHistory.AuthAttemptCounts` | agent/scripts/build_agent_management_sheet_v3.py:9007-9015 | the auth counter is the number of authentications started since the last reset |
| `TransferHistory.RunHasHistory` | agent/scripts/build_agent_management_sheet_v3.py:3425-3881 | every run has the history these results speak of |
| `TransferContract.ResetMappingDefinitions` | agent/scripts/build_agent_management_sheet_v3.py:9276-9292 | the generated reset rows are those of the field lists, step by step and in order |
| `TransferContract.AppendRows` | agent/scripts/build_agent_management_sheet_v3.py:10067-10083 | the inner loop appends one row for each field, with the value the field is cleared to |
| `TransferContract.ResetRowsAgree` | agent/scripts/build_agent_management_sheet_v3.py:9216-9273 | a reset row exists exactly for the keys a step clears: everything built on a confirmation, and the keys of its own target |
| `TransferContract.ResetFollowsTheRows` | agent/scripts/build_agent_management_sheet_v3.py:10007-10064 | a reset puts each key of a row to the row's value and leaves every other key, prepare_attempt among them, alone |
| `TransferContract.ResetIsAMerge` | agent/src/agent/state.py:12-19 | a reset step is the reducer's shallow merge of the generated rows into the state |
| `TransferContract.OutputsAreDeclared` | agent/scripts/build_agent_management_sheet_v3.py:8529-9214 | a step of either workflow writes nothing but the output fields its mapping rows declare |
| `InputRequests.WithKeyReadsBack` | agent/scripts/build_agent_management_sheet_v3.py:10161-10164 | read back, the rewritten output list has gained input_request_id and nothing else has changed |
| `InputRequests.ManagementSheet.AddInputRequest` | agent/scripts/build_agent_management_sheet_v3.py:10154-10181 | one step is treated exactly when exactly one row names it; otherwise nothing changes |
| `InputRequests.ManagementSheet.AddInputRequests` | agent/scripts/build_agent_management_sheet_v3.py:10154-10181 | after the pass each listed step has the key and one new mapping row, and all other rows are as they were |
| `ShapeValidators.ValidateYamlShape` | security/redteam/config.py:184-203 | accepts exactly the values that fit the depth limit and whose tree of positions has at most 10000 nodes and 1048576 text bytes, within one pop more than the node limit, also on shared and cyclic values |
| `Utf8.LengthOfEncoding` | security/redteam/config.py:196 | the length added up for a text is that of its UTF-8 encoding |
| `Utf8.DecodeUndoesEncode` | security/redteam/config.py:196 | decoding gives every text back, so the encoding loses nothing |
| `ShapeValidators.MappingsCount` | security/redteam/config.py:184-203 | a mapping counts for itself, its keys and its values in the YAML walk, and for itself and its values in the response walk |
| `ShapeValidators.ValidateResponseShape` | security/redteam/models.py:415-440 | accepts exactly the values that fit depth, width, text and key limits with at most 2000 nodes, within 2001 pops |
| `ShapeValidators.PushValues` | security/redteam/models.py:429-435 | the loop over a mapping pushes all values exactly when every text key is short enough |
| `ShapeValidators.FitsEveryPath` | security/redteam/config.py:190-194 | in a value that fits, no path is longer than the depth limit and every node it leads to is within the limits |
| `ShapeValidators.MisfitHasPath` | security/redteam/config.py:190-194 | a value that does not fit has an offending path |
| `ShapeValidators.CyclesAreRejected` | security/redteam/config.py:184-203 | a value that contains itself anywhere is never accepted |
| `ShapeValidators.Popped` | security/redteam/config.py:188-203 | one turn of either walk: each check rejects rightly, and what was counted plus what is pending remains the whole value, in whatever order |
| `BoundedRegex.UsesUnsupportedQuantifier` | security/redteam/models.py:36-44 | finds a star, a plus, or a question mark that does not follow a closing bracket, exactly when there is one |
| `BoundedRegex.SearchUnsafe` | security/redteam/models.py:33 | finds a back-reference, group or count exactly when one is written |
| `BoundedRegex.ValidateBoundedRegex` | security/redteam/models.py:47-57 | accepts exactly the patterns that pass length, construct and quantifier checks and compile, and names the check that failed |
| `BoundedRegex.AcceptedExactly` | security/redteam/models.py:33-57 | what passes is exactly the text of at most 200 characters without brackets, star, plus, numbered or named back-references, and with question marks after character classes alone |
| `BoundedRegex.AcceptedMatchesAreShort` | security/redteam/models.py:33-57 | every accepted pattern matches only strings no longer than the pattern, hence at most 200 characters |
| `BoundedRegex.StarIsUnbounded` | security/redteam/models.py:39-40 | without the quantifier exclusion two characters match strings of any length |
| `BoundedRegex.CountsOutgrowTheirText` | security/redteam/models.py:33 | without the exclusion of counts five characters match ninety-nine |
| `BoundedRegex.BackReferencesOutgrowTheirText` | security/redteam/models.py:33 | without the exclusion of back-references two characters match whatever was captured |
| `AttackGenerator.AttackGenerator.Generate` | security/redteam/runner/attacker.py:110-343 | generates v exactly when a retry is reached, every earlier one having gone on, whose first deciding draft below its limit wins with v as its normalized variation, the limit being the count of the plan in the first retry, one later, and never more than the variations left; every other outcome exactly so; each counter gains exactly what the retries begun and the drafts evaluated account for; every enum offered is non-empty and holds exactly the fresh variations |
| `AttackGenerator.OutcomeExactly` | security/redteam/runner/attacker.py:257-343 | a call has an outcome exactly when it meets that outcome in terms of plans, replies, drafts and the variations left, for each of the nine outcomes |
| `AttackGenerator.LimitIsAsked` | security/redteam/runner/attacker.py:259-300 | as many candidates are asked for as the plan says in the first retry and one in later ones, but no more than there are unused places in the pool |
| `AttackGenerator.CallCounts` | security/redteam/runner/attacker.py:110-343 | the attempts of a call are its successes, failures and rejections, plus one exactly when it leaks; it succeeds exactly when it generates; at most 1 + c + 2(m - 1) requests and c + m - 1 attempts |
| `AttackGenerator.CountedOnce` | security/redteam/runner/attacker.py:126-255 | a draft goes into exactly one of the success, failure, out-of-scope and duplicate counters unless its exception escapes, and then into none |
| `AttackGenerator.AttackGenerator.PlayRetry` | security/redteam/runner/attacker.py:257-340 | one turn of the loop: plan, enum, request and drafts lead to the specified ending, or to the used variations the next retry starts from |
| `AttackGenerator.AttackGenerator.BuildRequest` | security/redteam/runner/attacker.py:258-315 | the exits before a request (planning fails, enum missing, pool exhausted), and otherwise a count of candidates that is the one of the plan in the first retry and one later, cut to the unused places of the pool, with the non-empty enum offered |
| `AttackGenerator.AttackGenerator.PlayRound` | security/redteam/runner/attacker.py:316-340 | one round asks the model once, counts a bad reply as one failed attempt and otherwise evaluates the selected drafts |
| `AttackGenerator.AttackGenerator.EvaluateDrafts` | security/redteam/runner/attacker.py:336-340 | evaluates drafts up to the first that decides, and collects the rejected variations |
| `AttackGenerator.AttackGenerator.EvaluateDraft` | security/redteam/runner/attacker.py:162-255 | one attempt on a raw draft: it wins exactly when it is readable, passes the check, is classified and accepted; each counter moves exactly when the draft belongs in it, a duplicate into duplicates and every other rejection out of scope; the classifier is asked exactly when the check passed |
| `AttackGenerator.AttackGenerator.RecordRejection` | security/redteam/runner/attacker.py:126-160 | a rejection counts as a duplicate exactly for that reason and as out of scope for any other, and is recorded once |
| `AttackGenerator.AttackGenerator.RecordFailure` | security/redteam/runner/attacker.py:227-244 | a failure moves one counter and records one reason |
| `AttackGenerator.UsedExactly` | security/redteam/runner/attacker.py:273-285 | what is used before a retry is exactly the history and everything an earlier retry of the call rejected |
| `AttackGenerator.OffersAreFresh` | security/redteam/runner/attacker.py:287-315 | each enum offered is not empty and disjoint from everything used or rejected before, and lacks nothing else of the pool |
| `AttackGenerator.RemainingInOrder` | security/redteam/runner/attacker.py:293 | an enum lists the pool at its unused places |
| `AttackGenerator.PlacesExactly` | security/redteam/runner/attacker.py:293 | the places of an enum are exactly the unused ones of the pool |
| `AttackGenerator.PlacesIncrease` | security/redteam/runner/attacker.py:293 | and they stand in the pool's order |
| `AttackGenerator.GeneratedIsFresh` | security/redteam/runner/attacker.py:273-315 | when the model answers with items of the offered enums, verbatim, and normalization leaves every item of the pool as it is, what a constrained call generates is from the pool, not in the history and not among the variations rejected in any earlier retry |
| `AttackGenerator.WithdrawnExactly` | security/redteam/runner/attacker.py:282-285 | a rejected answer is itself withdrawn exactly when normalization leaves it as it is or it was used already, since the normalized variation is what is recorded |
| `AttackGenerator.RejectedIsWithdrawn` | security/redteam/runner/attacker.py:282-293 | from such a pool no enum offers again what an earlier retry answered and had rejected |
| `AttackGenerator.PaddedIsOfferedAgain` | security/redteam/runner/attacker.py:282-293 | a concrete call, with an item that has a space in front, in which the rejected item is offered again and what is generated is not in the pool |
| `Text.UnchangedExactly` | security/redteam/runner/attacker.py:408-436 | normalization leaves a text as it is exactly when it is trimmed, not in matching quotes, and does not repeat the template around something unless the template is its placeholder alone |
| `AttackGenerator.Campaign` | security/redteam/models.py:507-511 | from a fresh generator, over any sequence of calls, the telemetry is valid at the end exactly when no call leaks |
| `AttackGenerator.SomeCallLeaks` | security/redteam/runner/attacker.py:246-250 | such calls exist: one accepted draft whose intent validator raises |
| `Text.NormalizeUndoesFill` | security/redteam/runner/attacker.py:408-436 | a trimmed, non-empty variation is recovered from its filled template exactly when the filled text is not wrapped in matching quotes, or taking the quotes off leaves the variation and that does not itself repeat the template |
| `Text.TemplateDecides` | security/redteam/runner/attacker.py:408-436 | for a variation without quote marks at its ends the template alone decides: recovery fails exactly when the template stands in matching quotes and has more than blanks inside them besides its placeholder |
| `Text.BothPartsDecide` | security/redteam/runner/attacker.py:408-436 | where the template has text on both sides of its placeholder, recovery of any variation fails exactly when that text stands in matching quotes and either has more than blanks inside them or is repeated by the variation itself |
| `Text.BarePlaceholder` | security/redteam/runner/attacker.py:408-436 | where the template is its placeholder alone, recovery fails exactly for a variation in matching quotes |
| `Text.QuotesGetInTheWay` | security/redteam/runner/attacker.py:415-416 | so a template in quotes with any other text before its placeholder never gives its variation back |
| `Text.SplitUndoesJoin` | agent/scripts/export_workflow_contracts.py:54-59 | splitting recovers any list of trimmed, non-empty, comma-free keys joined with a comma and a space |
| `Text.SplitYieldsKeys` | agent/scripts/export_workflow_contracts.py:54-59 | splitting always yields such keys |
| `Text.SplitByPieces` | agent/scripts/export_workflow_contracts.py:54-59 | on any text: a piece without commas yields what trimming leaves of it, if anything, and a comma joins what its two sides yield |
| `MockLedger.BuildTransactionDataset` | mock-financial-service/src/financial_service/mock_data.py:1059-1134 | the walk, statement by statement, produces the specified books |
| `MockLedger.BalancesAreLedgerSums` | mock-financial-service/src/financial_service/mock_data.py:1108-1134 | the returned balances are the full ledger sums |
| `MockLedger.RunningBalancesExactly` | mock-financial-service/src/financial_service/mock_data.py:1108-1132 | all running balances are prefix sums exactly when no successful event moves a non-zero amount from an account to itself, the external source included |
| `MockLedger.BalancesTotalZero` | mock-financial-service/src/financial_service/mock_data.py:1108-1134 | the returned balances total zero |
| `MockLedger.EntriesAreCounted` | mock-financial-service/src/financial_service/mock_data.py:1105-1132 | the ledger has two entries for each successful transfer and none for failures or card events |
| `MockLedger.EntriesExactly` | mock-financial-service/src/financial_service/mock_data.py:1072-1132 | each successful transfer debits its own account, or the one placeholder for outside sources, and credits its receiver, under its own id, at the place given by the successes before it |
| `MockLedger.EntriesShowBalances` | mock-financial-service/src/financial_service/mock_data.py:1108-1132 | both entries of a transfer show what their accounts hold once the whole transfer is posted, self-transfers included |
| `MockLedger.IdsIncrease` | mock-financial-service/src/financial_service/mock_data.py:1066-1103 | transactions and charges together are the events, each under its own number, in increasing order |
| `Manifest.UniqueIndex` | agent/scripts/export_workflow_contracts.py:95-105 | fails exactly when a key is missing or repeated, with the problem of the first such row; otherwise finds each row, and only rows, by key |
| `Manifest.GroupRows` | agent/scripts/export_workflow_contracts.py:144-157 | fails exactly when a row has no registered workflow; otherwise each group holds its rows in sheet order |
| `Manifest.GroupsPartition` | agent/scripts/export_workflow_contracts.py:150-157 | the groups of distinct workflows together have as many rows as the sheet: none is lost and none filed twice |
| `Manifest.NothingIsLost` | agent/scripts/export_workflow_contracts.py:150-165 | the workflows of a manifest together hold every step, route and mapping row of the sheet, none lost and none twice |
| `Manifest.SplitSchema` | agent/scripts/export_workflow_contracts.py:122-131 | fails exactly when a row that is not common has no workflow; otherwise keeps the common rows in order |
| `Manifest.BuildManifest` | agent/scripts/export_workflow_contracts.py:108-186 | succeeds exactly on the workbooks that have all tabs, whose rows all find their place, whose enum rows all have a group and whose references all resolve, and otherwise names a problem the workbook has; each workflow then has the id and entry step of its catalog row and exactly the rows that name it, in sheet order, and the common rows are exactly those marked so |
| `Manifest.WorkflowsHold` | agent/scripts/export_workflow_contracts.py:144-186 | each workflow holds exactly the steps, routes, mapping rows and schema rows that name it, each as often as it stands in the sheet and in sheet order |
| `Manifest.GroupEnums` | agent/scripts/export_workflow_contracts.py:167-172 | fails exactly when an enum row has no group; otherwise each group holds its rows in sheet order |
| `Manifest.CollectStepIds` | agent/scripts/export_workflow_contracts.py:194-202 | fails exactly when a step id is missing or repeated, with the problem of the first such step |
| `Manifest.CheckStep` | agent/scripts/export_workflow_contracts.py:209-223 | accepts a step exactly when its mode, its contract and all its state keys are declared, and names the first of these that is not |
| `Manifest.ValidateWorkflow` | agent/scripts/export_workflow_contracts.py:189-249 | accepts a workflow exactly when every reference in it resolves |
| `Manifest.ValidateManifest` | agent/scripts/export_workflow_contracts.py:189-249 | succeeds exactly on well-formed manifests |
| `Manifest.WalksStayDeclared` | agent/scripts/export_workflow_contracts.py:225-231 | any walk along the routes of a validated workflow from its entry step stays on declared steps, except that it may end in END |
| `Manifest.ContractsAreFound` | agent/src/agent/workflow_contracts.py:36-56 | required_contract_ids never hits a missing contract on a validated manifest |
| `Manifest.RequiredExactly` | agent/src/agent/workflow_contracts.py:36-56 | the query finds exactly the contracts the steps of the workflow use, those of the asked type if one is asked for, and fails exactly for an unknown workflow, or with a type for an unknown contract |
| `Routing.MergeValidCandidates` | agent/src/agent/workflow_routing.py:355-364 | the nested loop merges the lists into the valid ids at their first occurrences |
| `Routing.MergedExactly` | agent/src/agent/workflow_routing.py:355-364 | merging keeps exactly the valid ids, each once |
| `Routing.MergedInOrder` | agent/src/agent/workflow_routing.py:355-364 | ids merged from a prefix stand before all others |
| `Routing.RouteWorkflow` | agent/src/agent/workflow_routing.py:480-529 | for every setting each status is given exactly: failed on contradictory answers, no match, ambiguous when the user has to choose, with everything valid that was named as choices, and resolved on agreement or a query swap, with source and reason; and exactly what a call that raised leads to, failing open included |
| `Routing.ResolvedExactly` | agent/src/agent/workflow_routing.py:386-472 | the policy resolves to a workflow exactly when classifier and verifier agree on it or one query replaces another with enough evidence |
| `Routing.DecidedExactly` | agent/src/agent/workflow_routing.py:386-472 | the policy fails, finds no match, asks the user or resolves exactly on the stated answers, with the stated candidates, source and reason |
| `Routing.MoneyMovesOnlyByAgreement` | agent/src/agent/workflow_routing.py:386-472 | a transfer or setting is resolved only when the classifier resolved to it and the verifier accepted |
| `Routing.ResolvedToNothing` | agent/src/agent/workflow_routing.py:431-437 | a classifier that resolves without a primary id, accepted by the verifier, gives a resolved decision that names nothing |
| `Routing.ChoicesExactly` | agent/src/agent/workflow_routing.py:355-383 | what the user is asked to choose from is exactly everything valid that was named, free of repetitions, in the order in which it was first named |
| `Routing.MergedByFirst` | agent/src/agent/workflow_routing.py:355-364 | merged candidates stand in the order of their first occurrence |

## Left out

- HTTP routers, session plumbing, trigger DDL, LLM calls, prompts, frontend, observability and scripts: thin wrappers or I/O.
- Timestamps, transaction ids as UUIDs, SHA-256 and account-number generation: abstracted as positions, injective values or parameters.
- Interleavings inside one ledger operation: the code relies on database isolation, so each operation is one step.
- Account and card statuses, aliases and the read-only listing queries: they take no part in the modelled operations.
- The `agent/workflows` graph code and the `agent/runtime` code: only the published tables are modelled.
- The values of input_request_id in workflow runs: they are cleared by resets, but no route or request in the tables depends on them; the pass that declares them is in `InputRequests`.
- Text.NormalizeUndoesFill: for a template with text on one side only and a variation with a quote mark at an end, the condition is stated on the text without its quotes; closed forms are given for all other cases.
- The contents of views and error payloads: a view is the id of the record it shows.
- Parsing of regular expressions and whether a pattern compiles: the compiler's verdict is an argument.
- The event generation and the sort before the mock ledger walk: the walk is proved for every event list, so for the sorted one.
- Schema rows of unregistered workflows: `build_manifest` drops them silently, and so does the model; no result is claimed about them.
- Rendering of the manifest and the spreadsheet reader: plain data copying; the tabs a workbook has and the rows read from them are arguments.
- Normalisation of the classifier's null placeholders and routing logs: string lookups without further properties.
- AttackGenerator.AttackGenerator.EvaluateDraft: does not compute the deterministic checks, the intent overrides or the candidate record, nor the counters of intents, fact mentions and response sizes; their verdicts are arguments.
- ShapeValidators.ValidateYamlShape: counts the UTF-8 bytes of valid Unicode text, because lone surrogates cannot be encoded and are not characters here.
