# TaLi bookkeeping: a verified model

TaLi is a bookkeeping assistant for small merchants. A merchant writes messages; an intake agent
parses them and asks for a YES; a ledger agent has each write reviewed and records it in one
database transaction; a CFO agent answers. This project models the logic behind that path in Dafny
and proves what it promises, for all inputs and all interleavings.

Money is in kobo, quantities in hundredths of a unit, dates are written yyyymmdd, clocks are
nondecreasing integers, and one merchant is modelled at a time.

| files | contents |
|---|---|
| Confirmation, ConfirmationLaws, ConfirmationLocks, ConfirmationRuns | the confirm, review and commit protocol as a step system: handlers, the pending row, retries, lost acknowledgements, crashes; exactly-once recording, mutual exclusion, retries, labels; runs that show each condition is needed |
| IntakeAgent | the confirmation gate as the program executes it, through the room of the agents and the ledger agent below |
| EventKeys, KeyLaws | row keys, the LIKE probe, and the processed-event marker |
| LedgerBooks, LedgerAgent, LedgerRunLaws | the tables and the effect of an entry; the ledger agent with its retry loop and faults; what any series of requests keeps |
| RecordLaws | what a message leaves in the tables, told from the message: rows, net cash, stock levels, debts; which calls take effect |
| StockLaws, DebtLaws | the redundant stock and debt records |
| Text, ItemResolver, ItemResolverLaws, ItemTierLaws | matching a typed product name to a stored one; plurals, words and parts |
| Broker, BrokerLaws, Cascade | reply collection under concurrency, and the nested dispatch of the agents |
| Statements, StatementLaws, CurrencyLaws | statement of account, profit and loss, cashflow, opening balance; the currencies and amounts that validated messages bring to the tables |
| Validators, ValidationMeaning, ValidatorLaws | the validation that a message passes three times; what an accepted item tells of its text |
| WebhookClaim, WebhookLaws | which delivery of a webhook message may run |
| Lockout, LockoutLaws, Logins | login lockouts and what they bound; login codes and sessions |
| IdMigration | integer ids turned into binary ones, and time-ordered new ids |
| Common | optional values, sums and filters |

`dafny verify dfyconfig.toml` checks everything.

## What the code does not promise

Some natural expectations are false of the code. For each, the model proves when it does hold and
gives a run or an input where it does not.

- A pending row is locked, cleared and reset by sender, not by row. A row that is cancelled or
  replaced while it is being published can be unlocked, published twice or cleared by the handler of
  the old row (`ConfirmationLocks.RunsAreExclusive`, `ConfirmationRuns.TwoPublishers`).
- The lock re-reads the row but keeps the event id that was loaded before. A row replaced in between
  is published under the old event; it can be recorded twice, or be confirmed and never recorded
  (`ConfirmationLocks.RunsAreWellLabelled`, `ConfirmationRuns.RowRecordedTwice`,
  `ConfirmationRuns.RowLost`). Each event is recorded exactly once all the same.
- A row can stay flagged with no handler, so that a YES is told it is being recorded until the row
  expires or is replaced: when the commit of the lock succeeds but its acknowledgement is lost, and
  when the final clear or reset of the row meets a database error, which is printed and otherwise
  ignored
  (`ConfirmationLocks.FlagsAreHeld`, `ConfirmationRuns.RowLeftFlagged`).
- The threshold review sees amounts of shorthand messages only: those are never recorded at or above
  the threshold (`LedgerRunLaws.LargeShorthandsAreNeverRecorded`), valid ones of compound messages are
  (`CurrencyLaws.LargeValidAmountsAreRecorded`).
- A second collector on the same correlation id can sleep through its reply
  (`BrokerLaws.SecondCollectorSleeps`); with one collector for each id it cannot
  (`BrokerLaws.WakesExactlyForReplies`).
- A person who is entered as customer and as supplier makes debt entries and balance disagree
  (`DebtLaws.DebtEntryKeepsNet`, `DebtLaws.SwitchingPartyBreaksEntries`); with one party they always
  agree (`LedgerRunLaws.OnePartyEntriesNetToBalance`).
- The stale limit of a webhook claim runs from receipt, so that a worker can be overtaken soon after
  its claim (`WebhookLaws.FreshClaimIsOvertaken`); it cannot while no message that is being processed
  is claimed beyond the limit (`WebhookLaws.YoungMessagesHaveOneWorker`).
- A worker that gives up on a slow message without a prompt to send marks it failed while it is still
  running, and it can be run a second time at once (`WebhookLaws.OverdueMessageRunsTwice`). Each message
  is run once at a time exactly while nobody claims one that is still running
  (`WebhookLaws.RunsHaveOneRunner`), as in runs with claims in time in which workers that give up have
  a prompt to send (`WebhookLaws.PromptedMessagesRunOnce`).
- The lockout of the merchants' portal checks the number as it is typed, but records failures under
  the stored number without having checked it. Each typing is bounded, an account is bounded if and
  only if its number is typed in one way (`LockoutLaws.BoundedIffOneTyping`), and a number in local and in
  stored form lets in six wrong codes at one moment (`LockoutLaws.LocalAndStoredFormLetInSix`).
- A text that is cut to its maximum length right after a space changes at the second validation
  (`ValidatorLaws.CutCurrencyChanges`); `ValidatorLaws.ValidationsAgree` says exactly when a message
  stays as it is.

Where `docs/idempotency_retry_rules.md` and the code differ, the model follows the code: a received
webhook event is claimed rather than dropped, the ledger checks `processed_events` rather than
`processed_messages` and does not touch `webhook_events`, and a sale with too little stock is recorded
with a negative level rather than rolled back. A failed item of a compound message is reported at once
even when its error is transient; the retry loop sees an error only when the rollback fails too, and
goes round again only when that error is a transient one.

## Model

| member | source | states |
|---|---|---|
| ConfirmationLaws.EventsAreRecordedExactlyOnce | app/agents/agent_2_ledger.py:149-167 | At every moment of every run (YES messages, retries, lost acknowledgements and crashes interleaved freely) the tables hold for each event either nothing or, once and in order, all entries of one request whose marker is there too; no two rows share a key; the probe tells the two cases apart |
| ConfirmationLaws.RecordsAreFinal | app/agents/agent_2_ledger.py:164-167 | Once an event is recorded, no later step of any handler changes what is recorded for it |
| ConfirmationLaws.OnlyTheMarkerRefuses | app/data/database.py:281-288 | The unique keys refuse a message if and only if its marker is already present: its own row keys never clash |
| ConfirmationLaws.CommitRefinesLedger | app/agents/agent_2_ledger.py:527-534 | A commit step changes key columns and markers exactly as the ledger agent changes its tables, and is enabled whenever the ledger could write the request |
| ConfirmationLaws.StepKeepsExactlyOnce | app/agents/agent_2_ledger.py:348-382 | Every step of every handler keeps the rows of each event equal to one whole committed request or none |
| ConfirmationLaws.ProbeIsExact | app/agents/agent_1_intake.py:974-995 | Over any tables reached by the protocol the recovery probe finds an event if and only if its marker is there |
| ConfirmationLaws.StepKeepsConfirmations | app/agents/agent_1_intake.py:914-937 | A handler that is going to confirm its row to the user, from a reply or from the probe, has its event in the tables |
| ConfirmationLaws.CommitsWereReviewed | app/agents/agent_2_ledger.py:137-147 | Each committed run was taken up by one handler, then passed a review with that very run, and only then was written and committed by the same handler, which did nothing else in between |
| ConfirmationLaws.LargeShorthandsNeverCommit | app/agents/compliance_agent.py:41-52 | With the threshold rule as reviewer, no run ever commits a shorthand amount at or above the threshold, whatever the retries |
| ConfirmationLaws.RunsAreSound | app/agents/agent_1_intake.py:845-945 | Row, run and event identities, open transactions, unique keys, reviews and confirmations stay consistent in every reachable state, and no handler makes more than four attempts |
| ConfirmationLocks.StepKeepsExclusive | app/agents/agent_1_intake.py:865-892 | From a state where each row has at most one publisher and held rows are flagged, a step keeps this if and only if it is not a reset of a row that another handler is publishing |
| ConfirmationLocks.RunsAreExclusive | app/agents/agent_1_intake.py:947-972 | Mutual exclusion holds at every moment of a run if and only if no handler of the run resets a row that another handler publishes |
| ConfirmationLocks.UndisturbedRuns | app/agents/agent_1_intake.py:865-892 | Only the pending row is held, flagged and by one handler, at every moment of a run, if and only if no row is cancelled or replaced while it is published |
| ConfirmationLocks.StepKeepsFlagHeld | app/agents/agent_1_intake.py:914-972 | A step leaves a flagged row without a handler if and only if its last publisher dies, or fails to clear or reset it because of a swallowed database error, or the lock of a row that nobody publishes becomes durable unnoticed |
| ConfirmationLocks.FlagsAreHeld | app/agents/agent_1_intake.py:831-843 | The same over whole runs, stolen locks or not: flagged rows have a publisher at every moment if and only if no step abandons one |
| ConfirmationRuns.RowLeftFlagged | app/agents/agent_1_intake.py:966-967 | A run in which nothing was recorded, the reset of the row failed, and the row stays flagged with no handler left |
| ConfirmationLocks.RetryIsPossible | app/agents/agent_1_intake.py:869-892 | While no handler holds it, a pending row can be locked by a new YES and is then published under its own event |
| ConfirmationLocks.DuplicatesAreTurnedAway | app/agents/agent_1_intake.py:863-905 | A YES that finds the row gone or flagged ends without changing anything; one whose lock fails ends as well, and leaves at most the flag behind |
| ConfirmationLocks.RunsAreWellLabelled | app/agents/agent_1_intake.py:856-858 | Every publisher and every committed run carries the event of the row it locked, throughout a run, if and only if no handler locks a row other than the one it loaded |
| ConfirmationLocks.EachRowIsRecordedOnce | app/agents/agent_1_intake.py:769-785 | With right labels a stored row is recorded under one event only, its own, with its own message |
| ConfirmationLocks.ClearedRowWasRecorded | app/agents/agent_1_intake.py:934-937 | With right labels, a handler that clears its row after anything but a rejection leaves that row completely recorded under its own event |
| ConfirmationLocks.ConfirmedRowsAreRecorded | app/agents/agent_1_intake.py:914-937 | In runs where rows are neither replaced nor cancelled while published and no other row than the loaded one is locked, a row that disappears without cancellation or rejection is recorded, once, with the confirmed message |
| ConfirmationRuns.TwoPublishers | app/agents/agent_1_intake.py:947-966 | A run in which a failing handler unlocks a row it does not hold, so that two handlers publish one row |
| ConfirmationRuns.RowRecordedTwice | app/agents/agent_1_intake.py:869-892 | A run in which a YES locks a newer row under the older event, so that this row is recorded twice |
| ConfirmationRuns.RowLost | app/agents/agent_1_intake.py:934-937 | A run in which such a YES clears the newer row as confirmed although it was never recorded |
| ConfirmationRuns.LostAcknowledgementIsRecovered | app/agents/agent_2_ledger.py:604-618 | A commit whose acknowledgement is lost is not repeated by the next attempt, and its row is still cleared as confirmed |
| ConfirmationRuns.RecordedEventIsConfirmed | app/agents/agent_1_intake.py:932-937 | An attempt at an event that is already recorded writes nothing and ends with the row being cleared |
| ConfirmationRuns.FailedReportGivesRowBack | app/agents/agent_1_intake.py:923-927 | A commit whose report fails is told as an error: the row can be locked again although its event stands recorded |
| ConfirmationRuns.LostReplyIsProbed | app/agents/agent_1_intake.py:932-945 | After a lost reply the row is cleared if the event is recorded and given back if it is not |
| ConfirmationRuns.RejectedRowIsCleared | app/agents/agent_1_intake.py:918-922 | A run that the reviewer rejects ends with its row cleared and the tables as they were |
| IntakeAgent.IntakeAgent.ApplyConfirmation | app/agents/agent_1_intake.py:845-945 | One YES or NO without interference, through broker, ledger, compliance and CFO: afterwards the row is gone or exactly as before, or, only when the last write to it failed, still flagged; it is gone if and only if the CFO told of a rejection or a success, or no reply came and the event is in the tables; after a success the event is processed, after a rejection nothing has changed; a request that can be written, without faults or a lost reply, is told as a success; and no reply is left in the broker |
| IntakeAgent.IntakeAgent.CheckEventCommitted | app/agents/agent_1_intake.py:974-995 | The three LIKE counts find something if and only if one of the tables has a row of the event |
| IntakeAgent.CountLike | app/agents/agent_1_intake.py:979-987 | The count is the number of keys that match the pattern, and is positive if and only if some key does |
| IntakeAgent.IntakeAgent.ResetRecordingFlag | app/agents/agent_1_intake.py:947-972 | Whatever row the sender has is left unflagged, and nothing else about it changes; on a database error, which is swallowed, the row stays as it is |
| IntakeAgent.DecidesAsTheSteps | app/agents/agent_1_intake.py:914-945 | The gate keeps the row exactly when a handler of the step system, seeing the same rows, would reset it |
| EventKeys.ItemKeyInjective | app/agents/agent_2_ledger.py:375 | Different events, kinds or positions never share a row key |
| EventKeys.ItemKeyIsNotAnEventId | app/agents/agent_2_ledger.py:208 | An item key never equals the bare event id that a shorthand row carries |
| EventKeys.ProbeMatchesOwner | app/agents/agent_1_intake.py:979 | The LIKE pattern of an event matches a row key if and only if the row belongs to that event |
| EventKeys.LikeBySign | app/agents/agent_1_intake.py:979-987 | LIKE: a percent sign stands for any text, an underscore for one character, and every other sign for itself |
| KeyLaws.ProbeAgreesWithMarker | app/agents/agent_1_intake.py:974-995 | While rows and markers belong together, the recovery probe holds exactly for processed events |
| KeyLaws.EntriesWriteTheirKeys | app/agents/agent_2_ledger.py:348-525 | A message that succeeds adds to every keyed table exactly the keys of its entries, in order and once |
| KeyLaws.NewEventsMeetNoDuplicates | app/data/database.py:511-522 | An event without a marker never meets a duplicate key |
| KeyLaws.RequestKeepsMarksBacked | app/agents/agent_2_ledger.py:527-534 | Behind every marker there stays a row in a table that the probe reads |
| LedgerAgent.LedgerAgent.HandleIntakePayload | app/agents/agent_2_ledger.py:102-665 | For every authorisation, verdict and series of faults, the tables stay as they were or take the whole request; the reply tells an unauthorised sender, a held request and a recorded one apart, and is never wrong about the tables; without a fault a request is reported as recorded if and only if it can be written; the CFO is sent a success, a rejection, an error or nothing by that reply |
| LedgerAgent.LedgerAgent.RunAttempts | app/agents/agent_2_ledger.py:149-153 | The four attempts leave the tables as if the first committing attempt, preceded only by retried errors, had been the only one |
| LedgerAgent.LedgerAgent.RunAttempt | app/agents/agent_2_ledger.py:154-602 | One transaction: it takes effect completely or not at all, and a reply that promises nothing was written is true |
| LedgerAgent.LedgerAgent.WriteCompound | app/agents/agent_2_ledger.py:348-525 | The three entry loops leave the open transaction holding all entries in order, or stop for a stated reason |
| LedgerAgent.LedgerAgent.ProcessInventory | app/agents/agent_2_ledger.py:697-828 | One stock entry, step by step, has the effect of its specification on items, movements, products and legacy log |
| LedgerAgent.LedgerAgent.ProcessDebt | app/agents/agent_2_ledger.py:830-951 | One debt entry, step by step, has the effect of its specification on entries, transactions, balance and log |
| LedgerRunLaws.CallIsAllOrNothing | app/agents/agent_2_ledger.py:348-534 | Every call leaves the tables unchanged or adds to each keyed table exactly the keys of its own entries, and its marker |
| RecordLaws.RefusedCallsChangeNothing | app/agents/agent_2_ledger.py:127-167 | A call that is unauthorised, held by the reviewer, already processed, empty, or has an entry that does not apply changes nothing |
| RecordLaws.AcceptedCallsWrite | app/agents/agent_2_ledger.py:604-640 | Any other call writes its whole request if one of its attempts meets no fault and those before it meet transient errors only |
| RecordLaws.EndedCallsChangeNothing | app/agents/agent_2_ledger.py:604-665 | A first attempt that ends in a lasting error before anything is durable leaves the tables as they were |
| RecordLaws.WritesAreReviewed | app/agents/agent_2_ledger.py:69-87 | A request is put up for review if and only if it has something to write, with its amount or its numbers of entries; a verdict of no, or a default of no, holds exactly those |
| RecordLaws.MutatingHasEntries | app/agents/agent_2_ledger.py:256-340 | A request is treated as one that writes if and only if it has an entry |
| RecordLaws.TxIsTold | app/agents/agent_2_ledger.py:352-392 | A transaction applies if and only if it has an amount and a new key; its row has its type, action, amount, currency and date, the legacy record its whole naira, and nothing else changes |
| RecordLaws.RequestIsTold | app/agents/agent_2_ledger.py:348-534 | The rows that a request adds to the transactions table are those of its transactions and debts, in order, each with the fields of its entry |
| RecordLaws.EntryHasOneRow | app/agents/agent_2_ledger.py:375 | For each transaction and debt of a request exactly one new row has its key, and that row has its fields |
| RecordLaws.MessageMovesCash | app/agents/agent_2_ledger.py:348-534 | The rows that a message adds net, in each currency, to what its transactions and debts bring in and take out |
| RecordLaws.CallsMoveCash | app/agents/agent_2_ledger.py:102-665 | From empty tables, after any series of requests with any faults, the transactions of a currency net to what the messages that took effect brought in and took out |
| LedgerRunLaws.FailingEntryLeavesNoTrace | app/agents/agent_2_ledger.py:395-415 | An entry that fails or asks for clarification leaves no trace of the entries before it |
| LedgerRunLaws.BooksAlwaysAgree | app/agents/agent_2_ledger.py:697-951 | After any series of requests with any faults, the three stock records agree, the debt records agree, and events are marked exactly when they have rows |
| LedgerRunLaws.ProbeIsExact | app/agents/agent_1_intake.py:974-995 | After any series of requests the probe finds an event if and only if it was processed |
| LedgerRunLaws.ProcessedEventsAreInert | app/agents/agent_2_ledger.py:159-167 | Repeating a processed event, with any payload, changes nothing |
| LedgerRunLaws.RuleHoldsLargeShorthands | app/agents/compliance_agent.py:41-52 | The threshold rule holds back exactly the shorthand requests with an amount at or above it |
| LedgerRunLaws.LargeShorthandsAreNeverRecorded | app/agents/agent_2_ledger.py:69-87 | With the rule wired, no shorthand row at or above the threshold exists after any series of requests |
| LedgerRunLaws.LargeCompoundAmountsAreRecorded | app/agents/agent_2_ledger.py:81-86 | The same amount as the one transaction of a compound message passes the rule and is recorded: its proposal carries counts only |
| CurrencyLaws.LargeValidAmountsAreRecorded | app/services/validators.py:56-75 | For every threshold up to the largest valid amount there is such a compound message that passes validation |
| StockLaws.MoveStockKeepsAgreement | app/agents/agent_2_ledger.py:748-820 | A stock entry keeps signed movements, product quantity and in/out/set replay equal for every item, also below zero |
| StockLaws.MoveStockLevels | app/agents/agent_2_ledger.py:762-783 | A stock entry sets the level of its own item as its action says and leaves every other level alone |
| RecordLaws.StockAppliesIff | app/agents/agent_2_ledger.py:704-716 | A stock entry applies if and only if it names a product, the product raises no question, and its key is new |
| RecordLaws.StockMovesTarget | app/agents/agent_2_ledger.py:715-790 | A stock entry moves the item that its product is matched to, or a new one of that name, as its action says, and no other item |
| RecordLaws.MessageMovesStock | app/agents/agent_2_ledger.py:418-470 | After a message each item stands where the entries that move it take it in turn, and the items are those of before and those that were moved |
| RecordLaws.MatchesAreItems | app/data/queries.py:449-553 | Over agreeing tables a product is only matched to, or asked about, items of the inventory |
| RecordLaws.NewItemsWereTyped | app/agents/agent_2_ledger.py:722-742 | Over agreeing tables a request adds an item only for a product that matches nothing, under the name that was typed |
| StockLaws.EntriesKeepStockAgreement | app/agents/agent_2_ledger.py:419-471 | Several entries in one message, in any mix, keep the three records equal |
| StockLaws.QueryStockLevels | app/data/queries.py:556-598 | The stock report lists every item of the first query and every product of the second, a product only if its name is not there yet, each with the level its movements give |
| DebtLaws.ApplyDebtKeepsAgreement | app/agents/agent_2_ledger.py:848-939 | A debt entry keeps each balance equal to the signed sum of its log and every log row starting where the preceding one ended |
| DebtLaws.LogIsChained | app/agents/agent_2_ledger.py:933-939 | A log row's previous balance is the new balance of the account's preceding row, or zero for the first |
| RecordLaws.DebtMovesBalance | app/agents/agent_2_ledger.py:855-917 | A debt entry applies if and only if it names a person and its key is new; it raises what its account owes by the stated amount, lowers it, or clears it, by its action, and leaves every other account |
| RecordLaws.DebtRowsCarryAmount | app/agents/agent_2_ledger.py:867-939 | Entry and log of a debt carry the stated amount, or for a full payment what was owed, on the side of the party, payments on the opposite side |
| RecordLaws.AccountsAreAlike | app/agents/agent_2_ledger.py:839-849 | Two debts are about one account if and only if their persons are the same but for case and surrounding whitespace, and so are their currencies |
| RecordLaws.MessageMovesDebts | app/agents/agent_2_ledger.py:472-522 | After a message each account owes what the entries about it make of it in turn |
| DebtLaws.EntriesNetToBalance | app/agents/agent_2_ledger.py:867-883 | An account's entries net to its balance with the sign of its book, less twice whatever was logged for the other party |
| DebtLaws.DebtEntryKeepsNet | app/agents/agent_2_ledger.py:848-939 | A debt entry on an account whose entries net to its balance keeps it so if and only if the account is new, is of the party that the message names, or the amount is nothing |
| DebtLaws.EntriesKeepOneParty | app/agents/agent_2_ledger.py:857-883 | A message whose entries on an account name one party keeps the entries of that account netting to its balance with the sign of that party |
| LedgerRunLaws.OnePartyEntriesNetToBalance | app/agents/agent_2_ledger.py:848-939 | From empty tables, after any series of requests with any faults whose debt entries on an account name one party, the entries of that account net to its balance with the sign of that party |
| DebtLaws.SwitchIsOtherParty | app/agents/agent_2_ledger.py:872-875 | An entry counts as logged for the other party exactly when its message named another party than the account's book |
| DebtLaws.SwitchingPartyBreaksEntries | app/agents/agent_2_ledger.py:910-917 | A person entered again as the other kind of party makes entries and balance disagree |
| ItemResolverLaws.StemTokenIdempotent | app/data/queries.py:364-380 | A second stemming changes nothing if and only if the text does not end in a gap and a lone s |
| ItemResolverLaws.StemTokenIdempotentOnWords | app/data/queries.py:364-380 | On the tokens that splitting yields, stemming is idempotent |
| Text.StripCutsSpace | app/data/queries.py:366 | Trimming cuts whitespace off both ends and nothing else |
| ItemTierLaws.PluralInS | app/data/queries.py:364-380 | The plural in s of a word of three letters or more is traced back to the word if and only if it does not look like another plural |
| ItemTierLaws.PluralInEs | app/data/queries.py:364-380 | A plural in es is traced back to the word if and only if the word ends in to, do, ch, sh, ss or x |
| ItemTierLaws.PluralInIes | app/data/queries.py:364-380 | A plural in ies is traced back to a word in y |
| ItemTierLaws.StemmedWordForWord | app/data/queries.py:509-514 | A name is a stemmed match if and only if its words and the typed ones have the same stems, word for word |
| ItemTierLaws.ContainedWordsOrParts | app/data/queries.py:529-537 | A name is a contained match if and only if it has every typed word up to plurals, or the typed text is part of it, or it is part of the typed text |
| ItemResolverLaws.TiersNested | app/data/queries.py:504-541 | An exact match is a stemmed match, and a stemmed match is a containment match |
| ItemResolverLaws.ResultIsNarrowestTier | app/data/queries.py:504-553 | The result is the only member of the narrowest tier that has any, a question about all members when that tier has several (about the stemmed ones when several are exact), and nothing when all are empty |
| ItemResolverLaws.OrderIndependent | app/data/queries.py:504-553 | The order in which the database returns the candidates does not matter |
| ItemResolverLaws.TypedBackNameResolves | app/data/queries.py:504-507 | Typing back a stored name picks its item if and only if no other stored name equals it up to trimming and case |
| ItemResolverLaws.AnswersResolve | app/data/queries.py:519-527 | With distinct names, any name copied from a question resolves to that item |
| ItemResolverLaws.GatheredAnswersResolve | app/data/queries.py:449-551 | Over the candidates that are gathered from items and products, a name copied from a question resolves to that item if and only if the inventory does not have two items of that name |
| ItemResolverLaws.StoredNamesResolve | app/data/queries.py:449-507 | Over the gathered candidates, the stored name of any of them resolves to it under the same condition: products never make a name ambiguous |
| ItemResolverLaws.GatheredAreStored | app/data/queries.py:449-496 | The candidates are stored names, and every stored name is among them, a product up to case and surrounding whitespace |
| ItemResolverLaws.QuestionsOfferCandidates | app/data/queries.py:539-551 | A question offers at least two names, all of them stored |
| ItemResolver.GatherCandidates | app/data/queries.py:436-500 | The two loops list all items and then the products whose names are new |
| BrokerLaws.RepliesAreConserved | app/agents/orchestrator.py:110-116 | For every interleaving, each posted reply is stored, overwritten by a later one to its id, or returned to exactly one collector |
| BrokerLaws.NoLeakNoDuplicate | app/agents/orchestrator.py:148-163 | A reply is returned at most once and only to a collector of the id it was posted under |
| BrokerLaws.SingleCollectorsAreWoken | app/agents/orchestrator.py:135-163 | While each id has one collector at a time, no wake-up is missed |
| BrokerLaws.WakesExactlyForReplies | app/agents/orchestrator.py:110-116 | While each id has one collector at a time, a waiting collector can wake if and only if its reply is stored |
| BrokerLaws.StepKeepsRegistered | app/agents/orchestrator.py:150-163 | Listening collectors stay registered if and only if no other collector of their id leaves |
| BrokerLaws.PostWakesTheRegistered | app/agents/orchestrator.py:112-115 | A post lets a waiting collector wake if and only if its event is set already or still registered |
| BrokerLaws.PostedReplyIsCollected | app/agents/orchestrator.py:155-161 | A collector alone on its id returns a reply posted before it returns, whether it wakes or times out |
| BrokerLaws.SecondCollectorSleeps | app/agents/orchestrator.py:158-161 | A run with two collectors on one id in which the second sleeps although its reply is stored |
| Broker.OrchestrationEngine.CollectReply | app/agents/orchestrator.py:135-163 | With nothing posted meanwhile, the reply that is there is returned and nothing is left behind under the id |
| Broker.OrchestrationEngine.PostReply | app/agents/orchestrator.py:110-115 | The reply is stored and exactly the event registered for its id is set |
| Broker.OrchestrationEngine.GetEvent | app/agents/orchestrator.py:69-73 | The registered event is returned, a new one registered only if there is none |
| Broker.OrchestrationEngine.ReadContext | app/agents/orchestrator.py:40-42 | The newest messages, at most the limit; the whole log for limit zero; for a negative limit all but that many oldest |
| Broker.OrchestrationEngine.Append | app/agents/orchestrator.py:36-38 | The message is added at the end of its own room only |
| Cascade.Room.Send | app/agents/orchestrator.py:80-129 | Nested dispatch terminates for every message; a terminal message with an id is stored and enters no handler; an event sent to the ledger is handled completely before the send returns |
| Cascade.Room.OnLedger | app/agents/agent_2_ledger.py:38-48 | While the ledger handles an event, its correlation id stays that of intake, every message to the CFO carries it, and only the answer under it is left in the store |
| Cascade.Room.ReviewGate | app/agents/agent_2_ledger.py:50-67 | The verdict collected under the fresh id is that of the wired reviewer, or the default without one; nothing else changes and no reply is left behind |
| Cascade.Room.Deliver | app/agents/compliance_agent.py:31-39 | Compliance and CFO answer once, terminally, under the id they were asked under |
| Cascade.Room.SendCollect | app/agents/agent_1_intake.py:235-247 | Intake's hand-off: the tables take the event as the wired reviewer decides, and intake collects the CFO's text for what the ledger reported, or nothing if it reported nothing |
| StatementLaws.ClosingBalancesAgree | app/services/report_renderer.py:316-414 | For a currency of an unfiltered period under the row limit, over any rows: the cashflow closes at the next opening balance; the statement closes at opening balance plus net profit; the two closings agree if and only if, for naira, rows without a currency net to nothing |
| CurrencyLaws.StoredCurrencies | app/services/validators.py:107-110 | After any series of requests that were validated as the ledger validates them, no stored currency is blank or longer than its column |
| CurrencyLaws.ReportsCloseAlike | app/services/report_renderer.py:316-414 | Over the tables that any series of validated requests leaves: the statement of account, the cashflow, the opening balance plus net profit, and the opening balance of the day after are one figure, for every currency of an unfiltered period under the row limit |
| StatementLaws.OpeningBalanceMoves | app/data/queries.py:336-361 | The opening balance after a period is the one before it plus what the period nets |
| StatementLaws.CumulativeIsNetToDate | app/data/queries.py:281-296 | The cumulative figure beside a month is the net of all rows of the currency up to that month |
| StatementLaws.NetProfitIsNetCash | app/services/report_renderer.py:184-200 | Net profit of a currency is the net cash of the rows shown under it |
| StatementLaws.ProfitAndLossTotals | app/services/report_renderer.py:162-200 | Revenue is the sum of the income rows, cost of goods sold that of the purchases, operating expenses that of all other expenses, and the two profits follow |
| StatementLaws.RevenueLines | app/services/report_renderer.py:168-178 | Each revenue line is the sum of the income rows of its category |
| StatementLaws.ExpenseLines | app/services/report_renderer.py:179-183 | Each expense line is the sum of the non-purchase expenses of its category |
| StatementLaws.TruncatedStatement | app/data/queries.py:230-232 | Beyond the row limit the statement closes right if and only if the dropped rows of the currency net to nothing |
| StatementLaws.OtherCurrenciesDoNotMatter | app/services/report_renderer.py:136-140 | Two tables that show the same rows under a currency give it the same opening balance, the same cashflow lines, the same net of the statement, and the same profit and loss lines and net profit, whatever other currencies they hold |
| Statements.AccountLines | app/services/report_renderer.py:321-339 | Each balance is the opening balance plus the net of the rows so far; money in and money out are the sums of the income and of the expense rows, and the closing balance is opening plus the one less the other |
| Statements.GroupRowsByCurrency | app/services/report_renderer.py:136-140 | Each shown currency has exactly its rows, in order, and no other currency appears |
| Statements.ComputeIncomeStatement | app/services/report_renderer.py:162-200 | Every currency that occurs gets the figures and totals of its own rows |
| Statements.QueryCashflow | app/data/queries.py:281-296 | Every currency gets its months in order, each with the running total of the lines so far |
| Statements.CashflowClosing | app/services/report_renderer.py:396-414 | The closing balance is the opening plus the last cumulative figure, the two totals are the sums of the monthly figures, and they net to the sum of the lines |
| WebhookLaws.StepKeepsOneWorker | app/agents/agent_router.py:152-180 | A step keeps every message to one worker if and only if it is not a stale claim on a message that another delivery works on |
| WebhookLaws.RunsHaveOneWorker | app/agents/agent_router.py:152-180 | At most one delivery of a message is between claim and final status throughout a run if and only if none overtakes a worker |
| WebhookLaws.YoungMessagesHaveOneWorker | app/agents/agent_router.py:152-180 | In every run in which a message that is being processed is only claimed while it is at most as old as the stale limit, each message has at most one worker at every moment and none is overtaken |
| WebhookLaws.YoungProcessedIsFinal | app/agents/agent_router.py:257-267 | In every such run a processed message stays processed and no delivery works on it again |
| WebhookLaws.ProcessedIsFinal | app/agents/agent_router.py:257-267 | While no worker is overtaken, a processed message stays processed and no delivery works on it again |
| WebhookLaws.StepKeepsOneRunner | app/agents/agent_router.py:152-180 | Counting workers and runs that their worker has given up: a step keeps each message to one run at a time if and only if it is not a successful claim on a message that another delivery is still running |
| WebhookLaws.RunsHaveOneRunner | app/agents/agent_router.py:339-384 | The same over whole runs |
| WebhookLaws.PromptedMessagesRunOnce | app/agents/agent_router.py:339-384 | In every run in which a message that is being processed is only claimed while it is at most as old as the stale limit, and a worker that gives up leaves the message processed (it sends the pending prompt), each message is run by one delivery at most at every moment |
| WebhookLaws.KeysAlwaysDiffer | app/agents/agent_router.py:97-123 | At every moment of every run the deliveries in flight have different request keys, all of them recorded |
| WebhookLaws.OneDeliveryAMinute | app/agents/agent_router.py:97-123 | In every run, once a message has come in, each later delivery of it in the same minute is turned away at the request key and changes nothing, stale claims or not |
| WebhookLaws.FreshClaimIsOvertaken | app/agents/agent_router.py:162-170 | A run in which a new claim on an old message is overtaken a minute later, because the limit runs from receipt |
| WebhookLaws.OverdueMessageRunsTwice | app/agents/agent_router.py:344-384 | A run in which a slow message, marked failed by its worker, is run twice at the same time |
| WebhookClaim.Gateway.Route | app/agents/agent_router.py:95-300 | One delivery alone: it runs exactly when its request key is new, fewer than three active jobs of the user are counted, and its row is claimable or missing; then only that row changes, to the final status. A delivery that is turned away because of too many jobs has used up its request key |
| WebhookClaim.Gateway.ClaimEvent | app/agents/agent_router.py:162-171 | The atomic update claims exactly received, failed and stale rows |
| LockoutLaws.FailureRateIsBounded | app/admin/auth.py:20-64 | For a key that is both checked and recorded by each attempt, every half-open interval of one window holds at most 2 MAX - 2 admitted failures |
| LockoutLaws.CountsAndLocks | app/admin/auth.py:20-64 | A failure counts on within its window and starts again after it; from the last allowed failure on the key is locked for exactly the length of a lock; a check drops a record that is over and no other |
| LockoutLaws.AdministratorsAreBounded | app/admin/auth.py:15-64 | At most 8 admitted failures in 15 minutes per client address and user name |
| LockoutLaws.FailuresSpanAWindow | app/admin/auth.py:53-62 | Any 2 MAX - 1 admitted failures in a row span at least a window |
| LockoutLaws.BoundIsReached | app/admin/auth.py:42-64 | A run of attempts reaches that bound, for all limits |
| LockoutLaws.EachTypingIsBounded | app/portal/auth.py:210-262 | For each text that a merchant types as the number, every window holds at most 2 MAX - 2 wrong codes that were let in under that text, whatever else is typed |
| LockoutLaws.BoundedIffOneTyping | app/portal/auth.py:210-262 | The bound holds for a merchant account in every series of wrong codes, typed in ways that are found to be the account, if and only if its number is typed in one way only |
| LockoutLaws.TwoTypingsExceed | app/portal/auth.py:257-259 | Two typings of one number let in MAX wrong codes each, at one moment |
| LockoutLaws.LocalFormIsLookedUp | app/portal/auth.py:107-135 | For a registered Nigerian number, its local form and its stored form are both found to be that account |
| LockoutLaws.EveryFormFindsTheAccount | app/portal/auth.py:107-135 | A Nigerian number stored in one of its three forms, and in no other, is found by typing any of them |
| LockoutLaws.LocalAndStoredFormLetInSix | app/portal/auth.py:210-262 | So six wrong codes are let in at one moment for every such account, where one typing allows four in ten minutes |
| Lockout.AttemptTable.CheckLockout | app/admin/auth.py:20-39 | A key is locked exactly until its lock ends; an expired record is dropped; other keys are untouched |
| Lockout.AttemptTable.RecordFailedAttempt | app/portal/auth.py:71-93 | The record counts on or starts again, and the key is reported locked exactly when the maximum is reached; other keys are untouched |
| Lockout.AttemptTable.EnterWrongCode | app/portal/auth.py:210-262 | A wrong code is let in unless the typed text is locked or is found to be no account; then a failure is recorded under the stored number of the account and, if it differs, under the typed text |
| ValidatorLaws.ValidationsAgree | app/services/validators.py:276-323 | Validating a stored message again changes texts at most, and none exactly when no cut left whitespace and no optional text is blank; the third validation gives what the second gave |
| ValidatorLaws.TxAgain | app/services/validators.py:27-119 | A stored transaction validates again to itself with its texts cleaned once more: type, action, amount, category and date are kept |
| ValidatorLaws.StockAgain | app/services/validators.py:156-178 | A stored stock entry validates again to itself |
| ValidatorLaws.DebtAgain | app/services/validators.py:181-216 | A stored debt validates again to itself but for its currency text, which changes only when a cut left whitespace |
| ValidatorLaws.QueryAgain | app/services/validators.py:122-153 | A stored query validates again to itself but for its currency text |
| ValidatorLaws.DumpIsFolded | app/services/validators.py:295-323 | Folding leaves a message that was validated before alone |
| ValidatorLaws.CutCurrencyChanges | app/services/validators.py:107-110 | A currency text that the second validation changes |
| ValidationMeaning.TxAcceptedIff | app/services/validators.py:40-91 | A transaction is accepted if and only if it says income or expense, its date is absent or in the last year, and its amount is absent or in range |
| ValidationMeaning.TxTells | app/services/validators.py:40-119 | Type, action, date, amount and currency of an accepted transaction are those of its text: words up to case and whitespace, today for no date, the nearest hundredth, the first ten letters in capitals |
| ValidationMeaning.TxTextsTell | app/services/validators.py:91-119 | Item and description are the first 255 characters of their trimmed texts, an empty item is none, and a blank category is Miscellaneous |
| ValidationMeaning.CentsAreNearest | app/services/validators.py:75 | Rounding goes to the nearest hundredth, and from the middle to the even one |
| ValidationMeaning.StockTells | app/services/validators.py:156-178 | A stock entry is accepted if and only if its action is one of three words, it names a product and its quantity is not negative, and keeps just these |
| ValidationMeaning.DebtTells | app/services/validators.py:181-216 | A debt is accepted if and only if action and party are known words, it names a person, and its amount is absent or positive, and keeps just these |
| ValidationMeaning.QueryTells | app/services/validators.py:122-153 | A query is refused if and only if it names an unknown type; it keeps its kind, type, category and those bounds that are dates |
| ValidationMeaning.FoldedHolds | app/services/validators.py:295-323 | A single transaction, debt, movement or query stands when its list is empty, and otherwise the list stands as it is |
| Logins.OneCodeOneSession | app/auth.py:139-161 | In any series of operations each phone has at most one unused login code, from whichever issuer, and each sender at most one active session |
| Logins.RedeemedOnce | app/portal/auth.py:231-251 | No code row is redeemed twice in any series of operations |
| Logins.RedeemsOne | app/auth.py:188-215 | An entered code redeems at most one row, one of its own phone with that code that was unused and in time and is used from then on |
| Logins.RedeemsIffAnswered | app/auth.py:188-215 | An entered code is accepted if and only if some row has that code and that phone, is unused and in time, and only that row is redeemed |
| Logins.EnteredCodeChanges | app/auth.py:188-258 | A code that is not accepted changes nothing; one that is uses up its row, and at the chat replaces the sessions of the sender by one of the user |
| Logins.OtherChanges | app/auth.py:139-185 | A new code retires the unused ones of its phone; a code is attached to an unused token in time and to nothing else; sessions are opened and ended by sender |
| Logins.TokenLogsIn | app/auth.py:139-258 | A login by token succeeds: the code attached in time and entered in time opens the session of the user, the only active one of the sender |
| Logins.OtpLogsInOnce | app/portal/auth.py:160-251 | A login at the portal succeeds with the code that was requested, and does not with the same code again |
| IdMigration.MigrationMatchesApplication | scripts/migrate_int_to_uuid.py:119-128 | The SQL conversion of an integer id gives the bytes that the application computes from its decimal text |
| IdMigration.MigratedInjective | scripts/migrate_int_to_uuid.py:124 | Different ids below 128 bits get different bytes |
| IdMigration.ForeignKeysSurvive | scripts/migrate_int_to_uuid.py:136-139 | A foreign key holds after the migration if and only if it held before |
| IdMigration.UniqueKeysSurvive | scripts/migrate_int_to_uuid.py:119-128 | A key column is unique after the migration if and only if it was before |
| IdMigration.Uuid7HasVersionAndVariant | app/services/uuid_utils.py:5-22 | A new identifier starts with its milliseconds and has version 7 and the variant of section 5.7 of RFC 9562 |
| IdMigration.Uuid7KeepsRandomBits | app/services/uuid_utils.py:11-21 | All random bits but those that carry version and variant are in the identifier |
| IdMigration.SameIdentifier | app/services/uuid_utils.py:5-22 | Equal identifiers have the same milliseconds and the same random bits |
| IdMigration.Uuid7SortsByTime | app/services/uuid_utils.py:5-22 | New identifiers of different milliseconds sort by time |

## Left out

- Confirmation.Take: one step is one database transaction or one local decision; isolation inside a transaction, row lock waits and the ten-minute expiry of a row are not modelled (an expired row is simply never loaded).
- Confirmation.Enabled: fresh row ids, event ids and correlation ids stand for random UUIDs; collisions are not modelled.
- Confirmation.NextRow: a question about the statement format uses the same pending row; those rows are not modelled.
- ConfirmationLaws.CommitRefinesLedger: the interleaved model keeps keys, entries and markers; balances and levels are proved with transactions run one at a time, because the stock and debt reads take no locks.
- LedgerAgent.LedgerAgent.HandleIntakePayload: category ids, business ids, descriptions, units of items and the `transaction_state` column are not modelled; the reviewer is a parameter (the rule, any other verdict, or none in time).
- LedgerAgent.LedgerAgent.RunAttempt: database faults are injected at one point of each attempt; reports and queries run after the commit only as a possible fault.
- LedgerBooks.ApplyStock: DECIMAL range and rounding are not modelled; the table lookups compare names exactly, without the collation of the database.
- EventKeys.Like: LIKE is case-sensitive here and has no escape character; event ids contain neither letters in two cases nor wildcards.
- Text.Lower: text is ASCII; Unicode case mapping is not modelled.
- StockLaws.QueryStockLevels: which rows the two SELECTs return under their limits is a parameter.
- Broker.Take: timeouts are steps that may happen at any moment while waiting; how long a thread waits is not modelled.
- Cascade.Room.Send: handlers that raise and messages without a correlation id terminate here as well, but what they leave in the store is not stated; human decisions posted from outside are not modelled.
- Statements.Ordered: the row query is a relation (a sorted permutation of the selected rows); filters other than the period, the order of categories by amount and all layout are not modelled.
- Statements.IsMonthly: grouping by the database compares currencies exactly, without collation.
- Validators.Validate: a message with reports, statements, intents and confidence is reduced to its transactions, stock entries, debts and queries; floating-point amounts are real numbers; dates are days.
- WebhookClaim.Take: database errors while claiming, which let a delivery run without a claim, are not modelled; the count of active jobs is not part of the state, so a throttled delivery may be dropped whatever it is (WebhookClaim.Gateway.Route takes the count as a parameter).
- Lockout.Run: attempts come one after another, for one account at a time (those for other accounts use other keys); attempts in flight at the same time, successes and memory loss at a restart are not modelled.
- Lockout.NormalizePhone: digits are ASCII digits.
- Lockout.FindMerchant: the database compares numbers exactly, and a failing query is not modelled.
- CurrencyLaws.ReportsCloseAlike: the other writer of transactions, `record_transaction` in app/data/queries.py, is not modelled; it too is given naira or a validated currency only.
- Logins.After: operations run one after another and on values, because the code writes these tables with single SQL statements; expiry is by a time parameter.
- IdMigration.MigratedColumn: a column is converted as a whole; the order of the ALTER statements and partial failures are not modelled. UuidToBin covers texts of decimal digits, not UUID texts or the md5 fallback.
- The portal stock writer changes product quantities without movements, so it does not keep the stock agreement.
- The portal statement summary adds all currencies together, so it does not match the reports per currency.
- The CFO's wording of replies, alert thresholds, its own duplicate check and optional rephrasing by a language model.
- Parsing of message text, shorthand patterns, the abuse throttle and onboarding questions: they decide which message is sent, and nothing recorded depends on them beyond the validated message itself.
- The portal's daily cashflow bins, registration codes, channel binding tokens and password checks.
