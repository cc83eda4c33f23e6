# Shadowbook, modelled and proved in Dafny

Shadowbook is a double-entry ledger that shadows a simulated legacy core. This project models its five cores and
proves what they promise, over every input, every reachable state or every interleaving of a protocol's steps:

1. **Delivery** (`Delivery`, `DeliveryGuarantees`, `DeliveryMoney`, `DeliveryRegressions`, `Consumer`, `Measure`): the four
   consumer modes as one step machine -- produce, poll, commit (landed, refused, unacknowledged, regressed), apply, abort,
   crash -- with per-partition logs, any number of sessions, the inbox and the postings.
2. **Write path** (`Money`, `Books`, `Posting`, `PostingGuarantees`, `PostingService`, `Relay`, `RelayGuarantees`,
   `RelayRuns`, `RelayService`, `Balance`, `BalanceGuarantees`, `Holds`, `BalanceService`, `Eod`, `EodGuarantees`,
   `EodCharges`, `EodEngine`, `EodDates`, `EodBooks`, `ZeroSum`): PostgreSQL as atomic transactions over tables with unique
   keys, where an insert that meets an uncommitted key waits; the transactional outbox; checkpointed balances; end of day.
3. **Exact arithmetic** (`DayCount`, `Classify`): interest rounded once, and the classifier that recovers the day-count
   basis from two independently rounded results.
4. **Extracts and grains** (`Text`, `Dates`, `DateText`, `Sorting`, `Extracts`, `Ingest`, `ExtractGuarantees`,
   `ExtractCuts`, `ExtractColumns`, `Grains`, `GrainGuarantees`, `GrainLabels`): the text file printed and parsed, tampering
   and cuts, three views of one difference, and what each break says.
5. **Calendar, legacy stream and chaos schedules** (`Calendar`, `BusinessDays`, `CivilDays`, `LegacyStream`, `LegacyCore`,
   `LegacyInterest`, `LegacyDays`, `LegacyQuirks`, `LegacyTransforms`, `Chaos`, `ChaosQuorum`): business dates on civil
   dates, the legacy core with each quirk against the documented rule, and broker schedules.

Where the source changes state the model does too: `Consumer`, the posting `Service`, the balance and relay services,
`ExtractInbox`, `USFederal`, the legacy `Core` and the end-of-day `Engine` are classes whose methods are proved to be
steps of the machines the theorems are about. `Options` holds the shared option type.

## What the proofs found

- `PostingIDFor` joins principal and key with a slash, so two different pairs can share a posting id; the second is then
  refused for good. `PostingGuarantees.SameIdExactlyWhen` says which pairs, `PostingGuarantees.AllowListIsCollisionFree`
  which allow-lists are safe; the default one is.
- A checkpointed balance can be wrong for good in three ways: a row under the watermark dated after the checkpoint, one
  written between its two reads, and one that drew a lower id in a transaction that commits later.
  `BalanceGuarantees.CheckpointedRead` gives the exact error in every reachable state.
- At-most-once delivery needs one session at a time (`DeliveryRegressions.TwoSessionsDuplicate`) and commits that do not
  regress below what was booked, nor below what a live session has committed and may still book
  (`DeliveryRegressions.HarmlessRegression`, `DeliveryRegressions.LiveSessionDuplicates`,
  `DeliveryGuarantees.FailoverLosesAndDuplicates`).
- Outbox order holds exactly when no row commits after a younger row of its partition was logged, or was claimed and goes
  on to land (`RelayGuarantees.OrderExactlyWhenNeverLate`).  Ids that become visible in order are enough
  (`RelayGuarantees.OrderWhenVisibleInOrder`); a row that commits while a younger one is in flight is already too late
  (`RelayRuns.CommitDuringClaimBreaksOrder`).  Nothing is lost either way.
- The default allow-list lets clients post as `eod`. One that does can give an account a second charge or stop a run
  (`EodGuarantees.ImitationDoubles`, `EodGuarantees.RefusedExactlyWhen`).
- The classifier's thresholds are 121 (366 over 360), 1082 (365 over 360) and 731 (366 over 365) minor units of shadow
  interest, and none can be lowered (`Classify.ThresholdsAreSharp`).
- An extract cut at any byte is refused or marked, with one exception: for a day with no transactions the separator before the
  empty control total may be missing (`ExtractCuts.CutIsNoticed`). The header date reads back only from year 1000 on.
- When 1 January is a Saturday its observed date lies in the previous year but in the new year's table, so that Friday is
  a business day; no other observed holiday is missed (`BusinessDays.ObservedHolidaysAreClosed`).
- An end-of-day run that stops is never resumed: its date stays claimed and its missing interest and fees are never
  posted (`EodGuarantees.NeverResumed`).
- `chaos.Validate` ignores times while `Run` sorts by them, so an accepted schedule that is not in time order can take
  two brokers down (`Chaos.ValidatedButUnordered`); so can a start that fails (`Chaos.FailedStartLosesQuorum`).
  `ChaosQuorum.TimesDecide` and `ChaosQuorum.FailuresDecide` say exactly when.
- A legacy core runs one window (legacy-sim/src/legacy_sim/run.py:38-43), so what it carries out of the window is never
  extracted; `LegacyStream.EmittedExactlyOnce` says that this is all the window leaves out.
- Q8 shows in a reported balance on exactly the third day after an open day (`LegacyQuirks.EarlyReleaseShows`,
  `LegacyDays.WindowAvailable`), and Q9 in no total at all (`LegacyTransforms.TotalsSurvive`).
- `RoundHalfEven` and `RoundHalfUp` on int64 are wrong exactly where `DayCount.Sound` fails: a doubled remainder that wraps,
  a MinInt64 denominator under a numerator of less than half its size, and most MinInt64 numerators.

## Model

| member | source | states |
|---|---|---|
| `Money.AddIsExactOrReports` | internal/money/money.go:63-73 | over wrapping int64, Add returns the true sum or reports overflow exactly when the true sum leaves int64 |
| `Money.NegIsExact` | internal/money/money.go:79-81 | Neg is the true negation on every amount New can build, in the same currency |
| `Money.AddLeavesTheDomainOfNeg` | internal/money/money.go:63-81 | Add of two legal amounts can give MinInt64, on which Neg is not the negation |
| `Money.Sum` | internal/money/money.go:88-100 | the loop's result is the true total when every prefix fits and the currencies agree, and an error otherwise |
| `Books.DriftConcat` | internal/ledger/store/queries.go:227-245 | the drift query is additive over the entries table |
| `Books.PairBalanced` | internal/ledger/consumer/consumer.go:271-279 | an amount booked against suspense nets to zero in its currency and every other |
| `Delivery.StepWellFormed` | internal/ledger/consumer/consumer.go:117-189 | every event of the machine keeps sessions, positions, batches and committed offsets consistent with the logs |
| `Delivery.CommitReachesPosition` | internal/ledger/consumer/consumer.go:136-142 | committing a polled batch moves each partition to the session's position and nothing further |
| `Delivery.StepKeepsOnce` | internal/ledger/consumer/consumer.go:199-286 | one step keeps at most one posting per message id and the inbox equal to the applied ids |
| `Delivery.ExactlyOneEffectPerMessage` | internal/ledger/consumer/consumer.go:151-183 | modes C and D, every run: each message id has at most one posting, the inbox is exactly the applied ids, and the two are equal in number |
| `Delivery.StepLosesNothing` | internal/ledger/consumer/consumer.go:151-183 | one step of modes B, C, D keeps every record below a committed offset booked |
| `Delivery.CommittedIsBooked` | internal/ledger/consumer/consumer.go:299-312 | modes B, C and D, every run: every record below a committed offset has a posting, through failed commits and ended sessions |
| `DeliveryGuarantees.EveryModeBalances` | internal/ledger/consumer/consumer.go:271-279 | per-currency zero-sum in every reachable state of every mode, duplicates included |
| `DeliveryMoney.BalancesFollowRecords` | internal/ledger/consumer/consumer.go:271-279 | every run of every mode, through faults and duplicates: each account's balance in each currency is the sum, over the postings, of what their records are worth to it -- the amount to the account named, the opposite to the currency's suspense account; each posting has exactly two entries, of its own id, and a record that parses |
| `DeliveryMoney.MoneyGoesToTheNamedAccount` | internal/ledger/consumer/consumer.go:272-277 | from empty tables: an account that is no suspense account holds exactly the amounts of the booked records that name it, and the suspense account has fallen by all that is booked in its currency |
| `DeliveryMoney.CaughtUpBalances` | internal/ledger/consumer/consumer.go:245-285 | modes C and D, caught up after any run: when the records of one message id are deliveries of one movement, every balance is what the logs are worth to the account, each message id once |
| `DeliveryGuarantees.ExactlyOnceWhenCaughtUp` | internal/ledger/consumer/consumer.go:245-285 | modes C and D: once offsets reach the ends of the logs the booked ids are exactly the logs' ids, each once |
| `DeliveryGuarantees.NeverLosesBelowCommitted` | internal/ledger/consumer/consumer.go:151-183 | from an initial state, no run of modes B, C, D leaves a committed record unbooked |
| `DeliveryGuarantees.AtMostOnceWhileSteady` | internal/ledger/consumer/consumer.go:132-149 | mode A books each record at most once in every run with durable commits and one live session, skipped batches included |
| `DeliveryGuarantees.FailoverLosesAndDuplicates` | README.md:74-79 | a run of mode A with a regressed commit that loses a record and books another twice while the books balance |
| `DeliveryRegressions.AtMostOnceExactly` | internal/ledger/consumer/consumer.go:132-149 | with at most one session alive, in whatever phase, every future with durable commits and one session at a time books each record at most once if and only if none is booked twice, every booked record lies below its committed offset, and so does, unbooked, every record the session applies before it meets a malformed one |
| `DeliveryRegressions.HarmlessRegression` | README.md:74-79 | a lost commit is harmless if and only if the offsets left lie above everything booked and above every record of the batch in hand that the live session may still book; idle and polled sessions add nothing |
| `DeliveryRegressions.LoneRunsAreOrderly` | internal/ledger/consumer/consumer.go:117-189 | runs of one session at a time, any commits lost on the way, keep the hypotheses of that condition, so it is exact after any of them |
| `DeliveryRegressions.LiveSessionDuplicates` | README.md:74-79 | a durable run after which a regression that lies above everything booked, nothing, still lets a record be booked twice, because the session had committed it and not booked it |
| `DeliveryRegressions.TwoSessionsDuplicate` | internal/ledger/consumer/consumer.go:132-149 | a run with two live sessions and durable commits that books one record twice |
| `DeliveryRegressions.RunKeepsSourced` | internal/ledger/consumer/consumer.go:199-286 | postings come from applicable records under ids already minted |
| `Consumer.Consumer.Poll` | internal/ledger/consumer/consumer.go:117-130 | polling is the machine's poll event on the session |
| `Consumer.Consumer.Commit` | internal/ledger/consumer/consumer.go:132-149 | a commit that lands, fails transiently or fails for good is a run of the machine; only the last ends the session |
| `Consumer.Consumer.ApplyNext` | internal/ledger/consumer/consumer.go:199-286 | one record: claimed or a duplicate, posted or failed, exactly as the apply event says; it fails exactly on a database error or a refused transaction, and a failure leaves a posting only if its commit had landed |
| `Consumer.Consumer.ApplyAll` | internal/ledger/consumer/consumer.go:151-183 | the loop stops at the first apply error; applied and duplicate records counted before it are those with clean outcomes, and the postings grow by the applied ones, and by one more only if the failed record's commit had landed |
| `Consumer.Consumer.RunOnce` | internal/ledger/consumer/consumer.go:117-189 | each mode's order of commit and apply is a run of the machine, so its invariants hold of the loop |
| `Measure.Measure` | internal/harness/ablation/run.go:630-664 | the loops fill the artefact the report function specifies: counts clamped at zero, contamination, the invariant flag |
| `Measure.DedupModesReportTheTruth` | internal/harness/ablation/run.go:630-664 | modes C and D: the artefact is never contaminated; its duplicated is zero, its lost the true number of sent ids never applied, its applied the ids booked, its invariant held |
| `Measure.UndedupedModesReportTheNet` | internal/harness/ablation/run.go:630-664 | modes A and B: the artefact's lost minus duplicated is true, neither overstates, both are true exactly when one of the true figures is zero; it is contaminated exactly when an inbox left by another run exceeds what was sent |
| `Posting.Validate` | internal/ledger/posting/posting.go:127-153 | accepts exactly the requests whose key, kind and entry count are right and whose entries truly sum to zero without leaving int64; each error names its cause |
| `PostingGuarantees.OneEffectPerKey` | internal/ledger/posting/posting.go:161-243 | any interleaving of Post calls leaves at most one posting, one entry set and one outbox row per (principal, key), all matching the stored response |
| `PostingGuarantees.SameKeySameAnswer` | internal/ledger/posting/posting.go:161-278 | every success under one key has the same body and returns the same posting id and entry ids; another body gets the mismatch |
| `PostingGuarantees.ReplayIsFinal` | internal/ledger/posting/posting.go:247-278 | a visible claim already holds its final response, so the reload loop ends at its first look |
| `PostingGuarantees.WritePathBalances` | internal/ledger/posting/posting.go:127-153 | per-currency zero-sum in every reachable state of concurrent Post calls |
| `PostingGuarantees.NoDeadlock` | internal/ledger/store/queries.go:94-122 | while a call is unfinished some call can take a step that is not a rollback: waiting on claims never deadlocks |
| `PostingGuarantees.PostingIdsCollide` | internal/ledger/posting/posting.go:51-53 | two different pairs with one posting id |
| `PostingGuarantees.SameIdExactlyWhen` | internal/ledger/posting/posting.go:51-53 | two pairs share an id if and only if they are equal or the longer principal is the shorter, a slash and a rest that opens the shorter's key before the other key |
| `PostingGuarantees.AllowListIsCollisionFree` | internal/ledger/posting/posting.go:51-53 | an allow-list is free of collisions for all keys if and only if no member followed by a slash opens another |
| `PostingGuarantees.SlashFreeIdsAreDistinct` | internal/ledger/posting/posting.go:51-53 | with slash-free principals, equal posting ids mean equal pairs |
| `PostingGuarantees.CollidingKeysNeverBothPost` | internal/ledger/posting/posting.go:161-243 | of two keys that share an id, at most one ever holds a claim |
| `PostingService.Service.InsertLegs` | internal/ledger/store/queries.go:140-157 | the entry inserts draw consecutive ids in request order |
| `PostingService.Service.ReplayLoop` | internal/ledger/posting/posting.go:247-278 | the bounded reload loop answers with the stored claim: mismatch, stored result or failure |
| `PostingService.Service.Post` | internal/ledger/posting/posting.go:161-243 | invalid requests change nothing; valid ones leave exactly what the specification of a lone Post leaves, as a run of the machine |
| `Balance.MaxEntryId` | internal/ledger/store/queries.go:404-410 | the highest id among the visible entries counted, or zero when there is none |
| `Balance.Latest` | internal/ledger/store/queries.go:204-214 | the checkpoint of greatest date on or before the read, or none exactly when none covers it |
| `BalanceGuarantees.CheckpointedRead` | internal/ledger/store/queries.go:204-223 | after any run of transactions and checkpoint jobs, ids drawn before commit, a checkpointed balance is the plain sum less exactly its checkpoint's error -- inherited, dated later, written between the reads, made visible later -- and equals it if and only if that error is zero |
| `BalanceGuarantees.FirstCheckpointStays` | internal/ledger/store/queries.go:389-402 | after any run an account-day has at most one checkpoint; an insert adds exactly the job's balance and watermark where it has none and leaves the table alone where it has one |
| `BalanceGuarantees.CommitPublishesAll` | internal/ledger/posting/posting.go:204-236 | a commit makes exactly the rows its transaction wrote visible, all at once, in order and under ids drawn in that order, whatever others did meanwhile |
| `BalanceGuarantees.ErrorIsInherited` | internal/ledger/balance/balance.go:100-114 | a new checkpoint inherits exactly the error of the balance it read |
| `BalanceGuarantees.CheckpointsAgreeWithThePlainSum` | internal/ledger/balance/balance.go:100-114 | over every run in which no watermark covers a row dated after its checkpoint, written between its reads, or made visible later, every balance is the plain sum |
| `BalanceGuarantees.NothingOpenNothingLate` | migrations/0002_postings_entries.sql:18-30 | the third proviso can be checked at the watermark read: if no open transaction holds a row of the account under it, none ever comes into view |
| `BalanceGuarantees.ForwardDatedEntryIsSwallowed` | internal/ledger/store/queries.go:393-410 | a run whose balance is short by a forward-dated entry, for all amounts |
| `BalanceGuarantees.WriteBetweenTheReadsIsLost` | internal/ledger/balance/balance.go:100-114 | a run whose balance is short by a write between the two reads, for all amounts |
| `BalanceGuarantees.LateCommitIsLost` | internal/ledger/posting/posting.go:204-236 | a run whose balance is short by a row that drew the lower id and committed after the checkpoint, for all amounts |
| `Holds.ExpiryIsInvisibleAfterwards` | internal/ledger/store/queries.go:368-387 | expiring holds at t changes a total read at an instant if and only if a hold lapsed between that instant and t; reads at or after t never change |
| `BalanceService.Service.PlaceHold` | internal/ledger/balance/balance.go:60-81 | with any postings and any holds placed, released or expired by others between the ledger read, the hold total and the insert: admitted exactly when covered by what was available as it looked, and overdrawn exactly when the ledger's fall, the rise of open holds and the new hold together exceed that |
| `BalanceService.Service.ExpireDue` | internal/ledger/store/queries.go:368-378 | releases exactly the due holds and counts them |
| `BalanceService.Service.WriteCheckpoint` | internal/ledger/balance/balance.go:100-114 | the two reads and the insert with any statements of other callers in between are a run of the machine; the insert is refused exactly when the account-day has a checkpoint by then |
| `RelayGuarantees.AtLeastOnce` | internal/ledger/outbox/relay.go:52-85 | over any run of postings, claims, landing records, marks and claims given up anywhere, in whatever order ids become visible: every sent row is in its log, nothing else is logged, and no committed row leaves the outbox |
| `RelayGuarantees.OrderExactlyWhenNeverLate` | internal/ledger/outbox/relay.go:52-85 | first occurrences per partition are a prefix of outbox order throughout a run if and only if no row commits after a younger row of its partition was logged, or was claimed and lands before that claim ends |
| `RelayGuarantees.AtLeastOnceInOrder` | internal/ledger/store/queries.go:268-296 | both from empty tables |
| `RelayGuarantees.OrderWhenVisibleInOrder` | internal/ledger/outbox/relay.go:3-7 | when ids become visible in order within a partition, its order holds throughout, through every fault and with postings between claim, produce and mark |
| `RelayRuns.LateVisibilityBreaksOrder` | internal/ledger/store/queries.go:268-288 | for any two ids, a run in which the lower commits after the higher was relayed: both are sent, in the wrong order |
| `RelayRuns.CommitDuringClaimBreaksOrder` | internal/ledger/outbox/relay.go:53-79 | a run in which the lower id commits between the claim and the produce of the higher one, when nothing was logged at all, with the same end |
| `Relay.OldestAre` | internal/ledger/store/queries.go:268-271 | a claim takes exactly the smaller of the limit and the number of unsent rows, and those of least id |
| `RelayService.DrainDoes` | internal/ledger/outbox/relay.go:52-85 | of any drain, whatever commits in between: exactly the claimed rows turn sent if produced and marked, none otherwise, rows that arrive are added and every other row is unchanged |
| `RelayService.Service.Drain` | internal/ledger/outbox/relay.go:52-85 | one drain, with postings committing between claim, produce and mark, any part of the batch landing, and any mark outcome, is a run of the machine; on success its count is the smaller of the limit and the number of unsent rows, and exactly that many, the least by id, turn sent |
| `RelayService.Service.DrainAll` | internal/ledger/outbox/relay.go:88-116 | fault-free draining terminates with every row sent, and with the logs' first occurrences equal to the outbox where nothing was late |
| `RelayService.AllLand` | internal/broker/broker.go:85-104 | taken record by record, a batch lands whole: each partition gets its share in order and the batch can be marked |
| `EodGuarantees.ChargedAtMostOnce` | internal/ledger/accrual/accrual.go:58-124 | over any interleaving of runs, replays, stops and other callers, none of whom posts such a charge under another key: at most one posting per kind, account and date, and no date is claimed twice |
| `EodGuarantees.AtMostOnceExactly` | internal/ledger/accrual/accrual.go:231-247 | any callers, any principals: one posting per key, and where the engine's charge is on the books it is the only one of its kind, account and date if and only if every such charge that another caller sent under a key of its own was refused: its key claimed with another body or its id taken |
| `EodGuarantees.ImitationDoubles` | internal/ledger/httpapi/api.go:125-133 | a caller posting under the engine's principal with a key of its own gives an account a second charge |
| `EodGuarantees.ChargesAreDue` | internal/ledger/accrual/accrual.go:81-103 | with no outside posting under the principal, everything under it is interest of a claimed trigger day dated its calendar first, or a fee of a claimed month end |
| `EodGuarantees.RefusedExactlyWhen` | internal/ledger/accrual/accrual.go:231-247 | a charge is refused, and stops its run, exactly when its key is claimed with another body or its id is taken; otherwise exactly it is on the books |
| `EodGuarantees.ChargeIsValid` | internal/ledger/posting/posting.go:127-153 | every charge of a known currency other than MinInt64 passes validation |
| `EodGuarantees.DocumentedHasOneTrigger` | internal/ledger/accrual/accrual.go:81-89 | a calendar first has one trigger day |
| `EodGuarantees.KeysAreDistinct` | internal/ledger/accrual/accrual.go:184-221 | distinct account-months and account-dates never share a key, nor does interest with a fee |
| `EodDates.KeysNameCharges` | internal/ledger/accrual/accrual.go:184-221 | two charges of the documented schedule share a key exactly when they are of one kind, on one account, for one month or one day |
| `EodDates.TriggerDays` | internal/ledger/accrual/accrual.go:81-103 | interest triggers on a business day with none before it in its month, and is dated that month's first |
| `EodDates.BothTrigger` | legacy-sim/src/legacy_sim/generator.py:352-355 | the ledger and the legacy core trigger interest on the same days under any quirks |
| `EodDates.ChargesAreInTime` | internal/ledger/accrual/accrual.go:234-237 | a charge is valued and stamped on its date at 16:00 under the end-of-day principal, and the cut-off rule leaves it on that date when it is a business day |
| `EodDates.MonthEndDays` | internal/ledger/accrual/accrual.go:93-103 | fees fall on exactly the day whose number is its month's length |
| `EodDates.TermsAre` | internal/ledger/accrual/accrual.go:155-159 | interest posted on a first covers exactly the days of the month before, over 366 in that month's leap year and 365 otherwise |
| `EodGuarantees.NeverResumed` | internal/ledger/store/queries.go:416-419 | once nobody works on a claimed date, neither its fees nor, on a trigger day, its interest is posted again |
| `EodGuarantees.PostingsStay` | internal/ledger/store/queries.go:127-137 | postings are never changed or removed |
| `EodEngine.Engine.PostCharge` | internal/ledger/accrual/accrual.go:231-247 | one charge through Post: refused with nothing changed or posted, and on success exactly it is on the books |
| `EodEngine.Engine.SumDays` | internal/ledger/accrual/accrual.go:169-178 | the day loop sums the positive daily balances of the month |
| `EodCharges.SameInterest` | internal/ledger/accrual/accrual.go:152-191 | interest depends only on balances before the date it is posted on |
| `EodCharges.InterestLeavesBefore` | internal/ledger/accrual/accrual.go:231-247 | and posting it leaves all of those alone, accepted or refused |
| `EodCharges.FeeLeavesOthers` | internal/ledger/accrual/accrual.go:194-228 | one account's fee changes no other account's fee, suspense accounts bearing none |
| `EodCharges.PostedMoves` | internal/ledger/accrual/accrual.go:231-247 | a posting moves every account's balance by what its legs net to it, from its business date on, and no balance before |
| `EodBooks.BalancesFollowPostings` | internal/ledger/store/queries.go:204-223 | over any interleaving of runs and other callers, from empty tables: each balance on each date is the sum of the entries on the account of the postings dated by then, each posting once |
| `EodCharges.FeeLowersBalance` | internal/ledger/accrual/accrual.go:217-225 | over a fee phase an account's balance falls by exactly its fee from the month end on, and not at all if it was claimed before |
| `EodCharges.InterestRaisesBalance` | internal/ledger/accrual/accrual.go:180-189 | over an interest phase it rises by exactly its interest from the calendar first on |
| `EodEngine.Engine.PostInterest` | internal/ledger/accrual/accrual.go:152-191 | on success every bearing account has exactly the posting of its interest on the positive daily balances of the month before, as the books stood when the phase began, with the count and total of those; every account's balance rises by its interest from the calendar first on and suspense falls by it |
| `EodEngine.Engine.PostFees` | internal/ledger/accrual/accrual.go:194-228 | likewise the fees, each against the available balance as the phase began: every account's balance falls by its fee from the month end on, and suspense rises by it |
| `EodEngine.Engine.WriteCheckpoints` | internal/ledger/accrual/accrual.go:105-114 | every account-day reached has a checkpoint afterwards and the count is that of the new ones |
| `EodEngine.Engine.Run` | internal/ledger/accrual/accrual.go:58-124 | a replayed date is refused and changes nothing; a successful run has expired the due holds, put every due interest and fee, computed from the books and the holds left, on the books, moved every account's balance by exactly those, checkpointed every account and reports the counts and totals of exactly those |
| `ZeroSum.EodBalances` | internal/ledger/accrual/accrual.go:231-247 | per-currency zero-sum over any interleaving of end-of-day runs |
| `ZeroSum.DriftPermutes` | internal/ledger/store/queries.go:227-245 | the drift of a table does not depend on the order of its rows |
| `ZeroSum.BooksAlwaysBalance` | internal/ledger/store/queries.go:227-245 | the entries of any delivery run, any run of concurrent posts and any end-of-day runs, interleaved in one table, net to zero in every currency |
| `DayCount.RoundingIsUnique` | internal/bizdate/daycount.go:71-123 | ties-to-even and ties-to-away each name one integer |
| `DayCount.RoundHalfEvenIsTiesToEven` | internal/bizdate/daycount.go:71-101 | RoundHalfEven is the nearest integer, the even one on a tie, for every sign of numerator and denominator |
| `DayCount.RoundHalfUpIsTiesToAway` | internal/bizdate/daycount.go:104-123 | RoundHalfUp is the nearest integer, the one away from zero on a tie |
| `DayCount.HalfUpVersusHalfEven` | legacy-sim/src/legacy_sim/quirks.py:196-202 | the two differ if and only if the quotient is an exact tie above an even magnitude, and then by one unit away from zero |
| `DayCount.GoRoundHalfEven` | internal/bizdate/daycount.go:71-101 | over all of int64 the code is the mathematical rounding if and only if: without MinInt64, the doubled remainder fits; over MinInt64, the numerator is at least half its size; for a MinInt64 numerator, the denominator is 1 or a negative one that leaves less than a half. What it returns with MinInt64 is stated as well |
| `DayCount.GoRoundHalfUp` | internal/bizdate/daycount.go:104-123 | likewise for half-up |
| `DayCount.InterestFor` | internal/ledger/accrual/accrual.go:145-150 | interest is the product rounded once if and only if the product lies in int64 short of MinInt64, or is the one product 2^63 whose lost sign and wrap cancel |
| `Classify.ScanOrder` | reconcile/src/reconcile/classify.py:72-83 | which rule wins, given the ones before it |
| `Classify.LabelsAre` | reconcile/src/reconcile/classify.py:86-115 | a fee exactly when the difference is a configured amount; otherwise round:1 exactly at a difference of one, scale:100 exactly when one side is a hundred times the other up to sign, and the difference itself when nothing fits |
| `Classify.BasisFitsExactly` | reconcile/src/reconcile/classify.py:53-59 | a pair of bases fits exactly when one amount before rounding lies within a unit of both sides and they differ with one sign |
| `Classify.BasesTried` | reconcile/src/reconcile/classify.py:73-83 | which bases a basis label can name, and that none tried before it fits |
| `Classify.CrossProductsAgree` | reconcile/src/reconcile/classify.py:39-61 | two nearest roundings of one product agree across their denominators within half the tolerance |
| `Classify.BasisRecovered` | reconcile/src/reconcile/classify.py:35-115 | for every product, whichever nearest rounding each side used, the label names exactly the two denominators from the threshold on, unless the delta is a fee |
| `Classify.ThresholdsAreSharp` | reconcile/src/reconcile/classify.py:35-115 | one unit below each threshold some interest is mislabelled |
| `Classify.QuirkIsNamed` | legacy-sim/src/legacy_sim/quirks.py:188-194 | Q3 and Q6 end to end: the label names the quirk's denominators, and with neither the sides agree |
| `Classify.RoundingQuirkIsNamed` | reconcile/src/reconcile/classify.py:35-36 | half-up against half-even is equal or exactly round:1 |
| `Extracts.RenderTxnExtract` | legacy-sim/src/legacy_sim/extracts.py:89-101 | the loops produce the specified bytes, or nothing where scale_of raises |
| `Extracts.BytesAreDeterministic` | legacy-sim/src/legacy_sim/extracts.py:89-101 | the bytes do not depend on the order transactions are handed over in, ties in (posted_at, txn_id) aside |
| `Extracts.SortKeepsMap` | legacy-sim/src/legacy_sim/extracts.py:35-37 | sorting the control-total items changes the text and not the mapping |
| `Ingest.ParseControlTotal` | reconcile/src/reconcile/ingest.py:26-36 | the loop reads the specified mapping or the first error |
| `Ingest.ReadRows` | reconcile/src/reconcile/ingest.py:120-144 | the movements of the lines in order, cut rows skipped, or the first error |
| `Ingest.TotalsOf` | reconcile/src/reconcile/ingest.py:147-151 | the dictionary loop computes the specified totals |
| `Ingest.ExtractInbox.Offer` | reconcile/src/reconcile/ingest.py:160-176 | the status of a delivery given the recorded bytes, and the new record |
| `DateText.IsoRoundTrip` | reconcile/src/reconcile/ingest.py:140-141 | a date's ISO text reads back as the date |
| `DateText.CompactRoundTrip` | legacy-sim/src/legacy_sim/extracts.py:46-46 | the header date reads back if and only if its year has four digits |
| `ExtractGuarantees.DetailReads` | reconcile/src/reconcile/ingest.py:120-144 | a detail row of separator-free fields is one solid line that reads back as its movement |
| `ExtractGuarantees.TrailerReads` | legacy-sim/src/legacy_sim/extracts.py:35-37 | a trailer reads back as its count and mapping |
| `ExtractGuarantees.TotalsAgree` | legacy-sim/src/legacy_sim/extracts.py:82-86 | the writer's control total and the reader's totals are one mapping |
| `ExtractGuarantees.VerdictOnRows` | reconcile/src/reconcile/ingest.py:39-100 | for any rows under a trailer written for any claim: movements are exactly the rows present, accepted if and only if number and per-currency totals match, truncated exactly when short |
| `ExtractGuarantees.RoundTrip` | legacy-sim/src/legacy_sim/extracts.py:89-101 | every list of clean transactions renders, and parses as accepted with exactly the sorted movements, count and totals |
| `ExtractGuarantees.MissingRowsAreNoticed` | reconcile/src/reconcile/ingest.py:79-87 | deleting any non-empty set of detail rows yields truncated, the rest read exactly |
| `ExtractGuarantees.MissingTrailerIsNoticed` | reconcile/src/reconcile/ingest.py:56-71 | without its trailer a file is truncated with declared count -1 and all its movements |
| `ExtractGuarantees.TruncationIsNoticed` | legacy-sim/src/legacy_sim/extracts.py:135-146 | truncate_extract at any fraction is marked truncated exactly when it cut a row and otherwise returns the same bytes |
| `ExtractGuarantees.InboxHoldsTheLatest` | reconcile/src/reconcile/ingest.py:154-176 | after any run of deliveries the inbox holds, per identity, exactly the bytes delivered last |
| `ExtractGuarantees.OfferVerdict` | reconcile/src/reconcile/ingest.py:160-176 | late only for the first delivery of an identity, duplicate exactly for a repeat of the last bytes, corrections keep their status |
| `ExtractCuts.FieldCut` | reconcile/src/reconcile/ingest.py:26-36 | a control-total field cut anywhere does not read as the same mapping |
| `ExtractCuts.TrailerTextCut` | reconcile/src/reconcile/ingest.py:73-75 | which cuts of a trailer leave its claim intact |
| `ExtractCuts.CutIsNoticed` | reconcile/src/reconcile/ingest.py:39-100 | the first n characters of a file are accepted if and only if they lack only the final newline (or, on an empty day, that and one separator), and then all movements are read |
| `ExtractColumns.DetailColumns` | legacy-sim/src/legacy_sim/extracts.py:53-67 | a row is its ten columns: ids, currency, amount, the currency's exponent, the posting instant to the millisecond, both dates, and the kind |
| `ExtractColumns.HeaderColumns` | legacy-sim/src/legacy_sim/extracts.py:40-50 | the header is its six columns, from which date, sequence number and seed read back |
| `ExtractColumns.InstantReads` | legacy-sim/src/legacy_sim/extracts.py:62-62 | an instant's text, taken apart again, gives the instant to its millisecond |
| `ExtractColumns.HeaderTaken` | reconcile/src/reconcile/ingest.py:47-52 | a header of any columns: accepted, a format error or a value error, and which |
| `ExtractColumns.RowTaken` | reconcile/src/reconcile/ingest.py:124-143 | a row of any columns: read, passed over when it has not ten, a format error or a value error |
| `ExtractColumns.SegmentTaken` | reconcile/src/reconcile/ingest.py:31-35 | a control-total segment: read as currency and number, a format error or a value error |
| `Grains.IndexById` | reconcile/src/reconcile/grains.py:35-36 | the last movement of each id, and no other id |
| `Grains.TransactionGrain` | reconcile/src/reconcile/grains.py:20-128 | the loop over sorted ids yields the specified breaks |
| `Grains.AccountTotals` | reconcile/src/reconcile/grains.py:144-151 | per account and currency the net of the day's movements, a key exactly where there is one |
| `Grains.CurrencyTotals` | reconcile/src/reconcile/grains.py:198-204 | per currency likewise |
| `Grains.AccountDayGrain` | reconcile/src/reconcile/grains.py:131-187 | the loop over sorted account-currencies yields the specified breaks |
| `Grains.ControlTotalGrain` | reconcile/src/reconcile/grains.py:190-225 | the loop over sorted currencies yields the specified breaks |
| `Grains.AllGrains` | reconcile/src/reconcile/grains.py:282-312 | the three grains of a date, the sides themselves as windows |
| `GrainGuarantees.Partition` | reconcile/src/reconcile/grains.py:144-151 | movements split by distinct keys add up to the whole |
| `GrainGuarantees.AccountDaysConserve` | reconcile/src/reconcile/grains.py:131-187 | a currency's account-day deltas add up to the difference of the books on the day |
| `GrainGuarantees.ControlTotalConserves` | reconcile/src/reconcile/grains.py:190-225 | so does the control-total delta |
| `GrainGuarantees.TransactionsConserve` | reconcile/src/reconcile/grains.py:39-128 | so do the transaction deltas once each by-id timing break is restored to its signed amount |
| `GrainGuarantees.GrainsConserve` | reconcile/src/reconcile/grains.py:282-312 | for every date and currency the three grains report the same money, given ids unique per side and matched ids agreeing on currency |
| `GrainGuarantees.QuietDay` | reconcile/src/reconcile/grains.py:39-128 | a date has no transaction break if and only if every id dated it is on both sides with one amount |
| `GrainGuarantees.SilenceMeansAgreement` | reconcile/src/reconcile/grains.py:282-312 | no date has a transaction break if and only if both sides hold the same id-to-(amount, date) map |
| `GrainGuarantees.TimingPair` | reconcile/src/reconcile/grains.py:84-112 | a movement dated differently on the two sides gives exactly two breaks over all dates, with opposite offsets, zero deltas and both amounts |
| `GrainLabels.MatchIsNearest` | reconcile/src/reconcile/classify.py:138-161 | the same money found is the nearest in date within two days, the least id among those; none is found exactly when the window has none |
| `GrainLabels.MissingMeansMissing` | reconcile/src/reconcile/grains.py:84-127 | every break that says a record is missing on a side: that side's day and window lack its id and any such money on a date nearby, the other side's day holds it, and only its amount is present |
| `GrainLabels.LegacyAlone` | reconcile/src/reconcile/grains.py:84-127 | conversely, a legacy movement whose id the shadow lacks gives exactly one break: missing on the shadow when there is no such money nearby, and timing by the signed offset of a nearest one when there is |
| `GrainLabels.ShadowAlone` | reconcile/src/reconcile/grains.py:84-127 | and the mirror image for a shadow movement |
| `GrainLabels.BothPresent` | reconcile/src/reconcile/grains.py:42-82 | an id both sides hold on the day is silent exactly when the amounts agree, and otherwise gives one break with both and legacy less shadow |
| `GrainLabels.AccountDayBreaksSay` | reconcile/src/reconcile/grains.py:131-187 | every account-day break states both nets of an account-currency that day; a zero net is timing on that side, and a defect that equals a whole shadow movement of the account is named so |
| `GrainLabels.ControlTotalBreaksSay` | reconcile/src/reconcile/grains.py:190-225 | every control-total break states both nets of a currency that day, labelled as a matched pair |
| `Dates.CivilOfOrdinal` | legacy-sim/src/legacy_sim/calendar.py:66-77 | day numbers and civil dates are inverse: the date of a date's number |
| `Dates.OrdinalOfCivil` | legacy-sim/src/legacy_sim/calendar.py:66-77 | and the number of a number's date |
| `Calendar.NthWeekdayIs` | internal/bizdate/holidays.go:36-49 | the nth-weekday rule gives the right weekday in the nth, or last, seven days of the month |
| `Calendar.FindNthWeekday` | internal/bizdate/holidays.go:36-49 | the walking loops compute it |
| `Calendar.HolidaysIn` | internal/bizdate/holidays.go:69-81 | the loop builds the year's table |
| `Calendar.SomeDayIsOpen` | internal/bizdate/calendar.go:65-81 | of any 39 consecutive days at least 25 are weekdays and two years' tables close at most 22, so a business day comes within 39 days |
| `BusinessDays.NextAndPrevAre` | internal/bizdate/calendar.go:75-90 | next is the least later business day and previous the greatest earlier one, on either calendar |
| `BusinessDays.NextAndPrevAreInverse` | internal/bizdate/calendar.go:75-90 | on business days next and previous undo each other |
| `BusinessDays.DatesAreLeast` | legacy-sim/src/legacy_sim/quirks.py:96-112 | both date rules choose the least business day on or after the day the cut-off assigns |
| `BusinessDays.QuirksOffAgree` | legacy-sim/src/legacy_sim/calendar.py:154-161 | with Q2 and Q5 off the legacy rule equals the documented one for every instant |
| `BusinessDays.AssignmentIsMonotone` | internal/bizdate/calendar.go:111-126 | business dates never run backwards in the instant, under any quirk setting |
| `BusinessDays.EarlyCutOffMoves` | legacy-sim/src/legacy_sim/quirks.py:96-112 | Q2 changes an instant's date if and only if it lies in the last millisecond before the cut-off of a business day |
| `BusinessDays.ColumbusDayMoves` | legacy-sim/src/legacy_sim/quirks.py:90-94 | Q5 changes an instant's date if and only if it would have rolled past a Columbus Day it could have landed on |
| `BusinessDays.BusinessDaysBetweenAre` | internal/bizdate/calendar.go:129-137 | exactly the business days of the range, increasing, each the next of the one before |
| `BusinessDays.ObservedNewYearIsOpen` | internal/bizdate/calendar.go:65-72 | a New Year's Day observed in the previous year is missed by the lookup |
| `BusinessDays.ObservedHolidaysAreClosed` | internal/bizdate/calendar.go:65-72 | of all observed holidays of all years the lookup misses exactly the New Year's Days that fall on a Saturday |
| `CivilDays.WeekdayIsZeller` | internal/bizdate/calendar.go:65-72 | the weekday of every civil date is the one Zeller's congruence gives from year, month and day |
| `CivilDays.HolidaysAreFederal` | internal/bizdate/holidays.go:21-81 | the lookup says holiday exactly on the federal holidays as observed, each stated by month, day and weekday (Thanksgiving the Thursday of 22 to 28 November, and so on), New Year's Day observed in the old year aside |
| `CivilDays.ColumbusIsFederal` | legacy-sim/src/legacy_sim/quirks.py:90-94 | the name that Q5 looks for is on exactly the Mondays of 8 to 14 October |
| `CivilDays.BusinessDaysByDate` | internal/bizdate/calendar.go:65-72 | a business day is a Monday to Friday that is no federal holiday, or with Q5 a Columbus Day, for every civil date |
| `BusinessDays.USFederal.Holidays` | internal/bizdate/calendar.go:49-56 | the cache always holds the years' tables |
| `BusinessDays.USFederal.Next` | internal/bizdate/calendar.go:75-81 | the unbounded loop terminates at the next business day |
| `BusinessDays.USFederal.Prev` | internal/bizdate/calendar.go:84-90 | and its mirror at the previous one |
| `BusinessDays.USFederal.FirstBusinessDayOfMonth` | internal/bizdate/calendar.go:100-106 | the least business day on or after the first |
| `BusinessDays.USFederal.DateFor` | internal/bizdate/calendar.go:111-126 | the cut-off rule |
| `BusinessDays.USFederal.Between` | internal/bizdate/calendar.go:129-137 | the loop lists the open days of the range |
| `LegacyStream.TruncationIsRoundOne` | legacy-sim/src/legacy_sim/quirks.py:128-151 | Q10 leaves an amount equal or short by exactly one yen, never over, and the classifier labels the difference round:1 |
| `LegacyStream.DayConserves` | legacy-sim/src/legacy_sim/generator.py:322-333 | a day's input is what lands, what is carried and exactly the records dated before it, which are lost |
| `LegacyStream.StreamKeeps` | legacy-sim/src/legacy_sim/generator.py:322-333 | on any calendar: nothing is lost or duplicated when each day's records belong to it or to the next open day |
| `LegacyStream.EmittedExactlyOnce` | legacy-sim/src/legacy_sim/generator.py:457-470 | with Q9, Q10, Q11 off and the other quirks free, every transaction generated or carried into a window is emitted exactly once on its own business date or carried out, dated the next day the core will open |
| `LegacyCore.LedgerIsOpeningPlusEmitted` | legacy-sim/src/legacy_sim/generator.py:335-336 | each account's ledger is its opening balance plus everything emitted |
| `LegacyCore.Core.PostInterestFor` | legacy-sim/src/legacy_sim/generator.py:377-418 | interest on every account in turn against its daily sum, once per month, with the sums cleared |
| `LegacyCore.Core.PostFees` | legacy-sim/src/legacy_sim/generator.py:420-453 | fees on every account in turn against the ledger the earlier fees left |
| `LegacyCore.Core.Report` | legacy-sim/src/legacy_sim/generator.py:361-374 | reported positions are opening plus emitted, less open holds; daily sums grow by the positive balances |
| `LegacyCore.Core.RunDay` | legacy-sim/src/legacy_sim/generator.py:322-375 | the day's transactions are what lands, then exactly the interest and fees due; ledger, holds, carried records, daily sums and the last accrued month after it are those of the specified day, and reported positions are opening plus emitted less open holds, under any hooks |
| `LegacyCore.Core.RunWindow` | legacy-sim/src/legacy_sim/generator.py:457-470 | the day loop realises the stream over the days the core considers open, and reports the history of specified days, each on the books the last one left |
| `LegacyCore.WindowEmitsExactlyOnce` | legacy-sim/src/legacy_sim/generator.py:457-470 | the core's own day results, under the real hooks: every transaction is reported exactly once on its own date or still carried |
| `LegacyInterest.WindowInterest` | legacy-sim/src/legacy_sim/generator.py:351-418 | over a window: interest falls exactly on trigger days, each accrues a month of its own, and from one accrual to the next a bearing account is charged the interest on its positive reported ledgers in between, once |
| `LegacyInterest.FirstInterest` | legacy-sim/src/legacy_sim/generator.py:377-418 | the first accrual is on the sums the core came with and the ledgers reported so far |
| `LegacyInterest.RealMonthsApart` | legacy-sim/src/legacy_sim/generator.py:377-395 | on the real calendar, under any quirks, no two trigger days accrue one month |
| `LegacyDays.WindowFees` | legacy-sim/src/legacy_sim/generator.py:420-453 | over a window: no fee but at a month's end, and there one to each account that owes one by its ledger before the fee and what open holds leave of it; the reported ledger is that ledger less the fee |
| `LegacyDays.WindowAvailable` | legacy-sim/src/legacy_sim/generator.py:335-374 | a window of a core without holds: each reported available balance is the ledger less 25000 for each open day of the three before, or with Q8 of the two before |
| `LegacyQuirks.EarlyRelease` | legacy-sim/src/legacy_sim/quirks.py:229-233 | Q8 releases a hold earlier exactly from midnight of the third day to the hour it was placed, and never later; without it the expiry is the ledger's own 72 hours |
| `LegacyQuirks.EarlyReleaseShows` | legacy-sim/src/legacy_sim/generator.py:335-350 | so a hold placed at 18:00 is missing at the cut-off of exactly the third day on |
| `LegacyQuirks.HoldTotalsAgree` | legacy-sim/src/legacy_sim/generator.py:361-374 | over holds already placed the core's total and the ledger's hold query agree |
| `LegacyQuirks.DocumentedFee` | legacy-sim/src/legacy_sim/generator.py:420-453 | with Q1, Q4 and Q7 off the core's fee is the one the ledger charges plus the shared service fee |
| `LegacyQuirks.FeeQuirks` | legacy-sim/src/legacy_sim/quirks.py:212-225 | what Q1, Q4 and Q7 each change of a fee, exactly |
| `LegacyQuirks.FeeThreshold` | internal/ledger/accrual/accrual.go:204-216 | the ledger's minimum-balance fee is charged exactly below the minimum |
| `LegacyQuirks.DocumentedInterest` | legacy-sim/src/legacy_sim/generator.py:393-401 | with Q1, Q3 and Q6 off the core's interest is what the ledger's int64 code computes, while the product stays in range |
| `LegacyQuirks.InterestQuirks` | legacy-sim/src/legacy_sim/quirks.py:188-202 | from the threshold on, Q3 and Q6 give the core's own interest the label of their denominators, and without them the two agree |
| `LegacyQuirks.InterestIsInTime` | legacy-sim/src/legacy_sim/generator.py:404-416 | interest is stamped at 16:00, valued and dated on one day, and the date rule leaves it there on a business day |
| `LegacyQuirks.FeesAreInTime` | legacy-sim/src/legacy_sim/generator.py:440-452 | likewise fees, at 16:30 |
| `LegacyQuirks.InterestIdsDiffer` | legacy-sim/src/legacy_sim/generator.py:404-416 | interest has one id exactly for one account and month |
| `LegacyQuirks.FeeIdsDiffer` | legacy-sim/src/legacy_sim/generator.py:440-452 | a fee has one id exactly for one account and day |
| `LegacyQuirks.FeeIsNoInterest` | legacy-sim/src/legacy_sim/generator.py:404-452 | and the two never share one |
| `LegacyInterest.AccruedMonths` | legacy-sim/src/legacy_sim/generator.py:385-390 | the month accrued is the one before: the month after it begins where the trigger day's begins |
| `LegacyQuirks.TriggersAreFirst` | legacy-sim/src/legacy_sim/generator.py:352-355 | interest triggers on a business day with none before it in its month |
| `LegacyQuirks.MonthEnds` | legacy-sim/src/legacy_sim/generator.py:357-359 | fees fall on exactly the day whose number is the month's length |
| `LegacyQuirks.InterestDates` | legacy-sim/src/legacy_sim/quirks.py:204-208 | Q12 moves the interest date exactly when the calendar first is no business day |
| `LegacyTransforms.YenAreTruncated` | legacy-sim/src/legacy_sim/quirks.py:127-151 | Q10 changes only amounts of yen rows that carry hundredths, and those lose less than one yen toward zero |
| `LegacyTransforms.RepeatsAreDropped` | legacy-sim/src/legacy_sim/quirks.py:153-171 | Q11 keeps nothing that repeats a payment kept within the window, and drops nothing else |
| `LegacyTransforms.ReversalsDelete` | legacy-sim/src/legacy_sim/quirks.py:173-184 | Q9 removes exactly the reversals and what they name, and nothing when none names anything |
| `LegacyTransforms.TotalsSurvive` | legacy-sim/src/legacy_sim/quirks.py:173-184 | Q9 is invisible to totals: when each reversal undoes a transaction of its own, every account's total in every currency survives the deletion |
| `LegacyTransforms.QuirksInTurn` | legacy-sim/src/legacy_sim/quirks.py:116-125 | a day's stream under any setting: Q10 cuts first, Q11 judges repeats by the amounts so cut and in time order, Q9 deletes by what is left, and a quirk that is off changes nothing |
| `Chaos.Validate` | internal/harness/chaos/chaos.go:124-163 | accepts exactly the schedules whose every step makes sense, that keep at most one broker down throughout and none at the end, in the order written |
| `Chaos.Scale` | internal/harness/chaos/chaos.go:179-191 | the loop scales every event and keeps the order |
| `Chaos.EventsKeepTheirPlace` | internal/harness/chaos/chaos.go:179-191 | a scaled event keeps its fraction of the run to within a nanosecond, toward the start; without a positive duration, or at the schedule's own, nothing moves |
| `Chaos.ScalingKeepsTheShape` | internal/harness/chaos/chaos.go:179-191 | scaling keeps soundness both ways and time order, so the stable sort leaves the result unchanged |
| `Chaos.Run` | internal/harness/chaos/chaos.go:90-121 | the records are a prefix of the stable time order, failures recorded and not fatal |
| `Chaos.QuorumIsKept` | internal/harness/chaos/chaos.go:90-121 | a sound time-ordered schedule, scaled and run to any point, keeps at most one broker really down and none at the end, provided no start fails |
| `ChaosQuorum.QuorumExactly` | internal/harness/chaos/chaos.go:90-121 | whatever was executed and whatever failed, at most one broker was ever down if and only if between effective kills of two brokers the first was started |
| `ChaosQuorum.TimesDecide` | internal/harness/chaos/chaos.go:90-93 | a schedule in any written order: a run without failures keeps quorum if and only if, by its own times, of two kills of different brokers the earlier is followed by a start of its broker before the later |
| `ChaosQuorum.FailuresDecide` | internal/harness/chaos/chaos.go:105-118 | a run of a sound time-ordered schedule keeps quorum if and only if no start failed after its kill with another broker killed before the first is started |
| `Chaos.ValidatedButUnordered` | internal/harness/chaos/chaos.go:90-163 | an accepted schedule that takes two brokers down once sorted |
| `Chaos.FailedStartLosesQuorum` | internal/harness/chaos/chaos.go:90-121 | a failed start followed by the next kill leaves two brokers down |

## Left out

- The franz-go and kfake clients, Docker control, HTTP API, Prometheus metrics, flag parsing, migrations runner and the
  Jinja report: foreign calls and presentation. Loss of data inside the broker cluster is excluded.
- Protobuf, canonical JSON, SHA-256 and UUIDv5 are injective functions: a body stands for its hash, a text for its id.
- SQL statements other than the ones named are not modelled; the deferred zero-sum trigger of the database is not
  relied on, the proofs show it never fires.
- Holds.ExpiryIsInvisibleAfterwards: holds have positive amounts, as the table's constraint demands.
- PostingService.Service.Post: one call with no other transaction open; concurrency is the subject of PostingGuarantees.
- PostingGuarantees.NoDeadlock: fairness of the database's lock queue is not modelled.
- EodGuarantees.ChargedAtMostOnce: a Post is one step, which PostingGuarantees.OneEffectPerKey justifies.
- EodEngine.Engine.Run: balances are plain sums, BalanceGuarantees.CheckpointedRead says by what a checkpointed read
  differs; nobody else posts while the loops run, interleavings are the subject of EodGuarantees; what a checkpoint row
  holds is Balance's subject; run durations are left out.
- RelayService.Service.Drain: a record whose produce was reported failed does not land later, a mark does not land after
  the next claim, and one relay runs at a time, as in cmd/ledger/main.go:117.
- ExtractGuarantees.RoundTrip: currencies are the registered ones, since rendering raises for any other; header years
  below 1000 are excluded because they print unpadded and do not read back.
- Ingest.ParseControlTotal: int() is modelled on decimal digits with an optional minus; its other spellings count as errors.
- Ingest.ReadRows: int(), date.fromisoformat and strptime are modelled on decimal digits with an optional minus,
  YYYY-MM-DD and eight digits; their other spellings count as errors.
- BAL extracts with parse_balances, the balance grain that compares closing ledger and available balances, extract file
  names and the byte encoding of the files.
- ExtractGuarantees.TruncationIsNoticed: the fraction is a rational; float rounding is not modelled.
- Chaos.ScalingKeepsTheShape: the factor is a rational followed by truncation, not a float64; clocks and sleeping are
  left out of Chaos.Run beyond where it is interrupted.
- Timezones: one civil zone; instants are in microseconds.
- LegacyStream.EmittedExactlyOnce: the generator's hashed amounts and accounts are any transactions stamped on the day.
- The legacy quirks Q9 and Q11 are transformations of a day's stream, stated exactly; the breaks the reconciler makes of a
  whole window of them are not proved.
- BreakLedger ageing, quirk discovery, window reachability, load pacers, latency percentiles and drain waiting: folds over
  results or wall-clock code.
