# TraceX verification model

A Dafny model of the parts of TraceX whose correctness is hardest to see: the ordered process pool, the
UTXO ledger with its checker, generator and replication, the rank statistics and causal features of the
studies, the review queue, the feature store, confidence calibration, and the durable event log and job
control. `dafny verify dfyconfig.toml` checks all of it.

## What is modelled

- **Process pool** (`ProcessPool`, `PoolInvariant`, `PoolTheorems`, `PoolLiveness`, `PoolLeaving`,
  `PoolFairRun`, `PoolBlocked`, `Frames`). `imap` is a step
  system: P drivers with a program counter each, the consumer with its own, a semaphore, the draw lock, the
  condition and the results table; the scheduler is arbitrary. Safety is an invariant over all runs; liveness is
  over infinite fair schedules, with a decreasing measure. The pipes are imperative, byte by byte.
- **Ledger** (`Ledger`, `LedgerValue`, `ScaleFixture`, `InjectedLedger`, `InjectionShapes`, `SliceSweeps`,
  `DailySweeps`, `Injection`, `Merging`, `MergedLedger`).
  The checker is a method proved equal to a declarative invariant; conservation of value follows. The injector is a
  class whose methods draw arbitrary values of the ranges the generator draws from; every run of it gives a ledger
  the checker accepts. The merge into the base fixture and the replication keep acceptance.
- **Statistics** (`Ranks`, `RankAuc`, `Spearman`, `Clustering`). Two different loops over ties are proved against one
  definition of the mid-rank. Reals stand for floats; the square root is a parameter.
- **Causal features** (`Causal`, `CausalHistory`, `CausalSplit`). The incremental address state equals a definition
  by strictly earlier times. Rows hold the arguments of the logarithms.
- **Review queue** (`ReviewQueue`), **feature store** (`FeatureStore`), **calibration** (`Calibration`).
- **Control plane** (`CaseEvents`, `JobControl`). Step systems again: each step is one transaction on a locked row.

## Where the code and its promise part

- A job that is `None` is taken for the end of the input (app/engine/process_pool.py:118): it is never delivered,
  and its driver returns. The sequential theorems therefore exclude `None` jobs. A run past one finishes only by
  being closed or for want of workers (`PoolBlocked.NoneJobNeverDelivered`), and where the results behind it fill the
  window it waits forever: `PoolBlocked.NeverFinishesExactly` says when, `PoolBlocked.WaitsForever` gives an input.
- The replication writes an empty `prev_txid` back unrenamed. Two or more copies are valid exactly when no canonical
  input has one (`ScaleFixture.ReplicationExactly`).
- An episode whose exclusive end is 0 looks up index -1 and comes out as everything from its start
  (`Merging.EpisodeMembersKept` has the exact condition).
- The calibration script shrinks its maps so that no finding is reported as certain, but the report rounds to six
  places afterwards: from 1414 findings on a fitted 0 can be reported as 0 (`Calibration.ShrinkingSurvivesRounding`).
- The import pipeline writes state and lease at its checkpoints, and completes the job, without asking whose claim
  is current (app/engine/ingestion/pipeline.py:303-305, 495, 600-605). Request keys stay apart in all runs exactly
  when no worker goes longer than the lease without writing it (`JobControl.KeysCollideExactly`), which the
  operator can compare before starting: the longest stage against `TRACEX_LEASE_SECONDS`.
- The failure handler of a worker compares worker ids only, and the default id is the host name, the same for two
  processes on one host. The handler is safe, and a claim retried at most once, in all runs exactly when no two
  processes share an id or leases hold as above (`JobControl.HandlerSafeExactly`, `JobControl.OneRetryPerClaim`).
- A market payment that is alone at its sweep before there is a hot output, and a purchase alone in its week, leave
  the list of received payments without being swept: they are never spent
  (`InjectionShapes.LonePayment` is an input; `Injection.Injector.HotSweeps` and
  `Injection.Injector.WeeklySweeps` say exactly which payments these are, and
  `InjectionShapes.AllSweptExactly` when there are none). The ledger stays valid.

## Model

| member | source | states |
|---|---|---|
| PoolTheorems.SequentialRun | app/engine/process_pool.py:82-88 | the reference: the sequential map, what it yields and how it ends within n turns |
| PoolTheorems.StepInv | app/engine/process_pool.py:97-161 | every step of every thread keeps the whole invariant (slots, lock, carried indices, results, end of input, liveness of the threads) |
| PoolInvariant.DriverInv | app/engine/process_pool.py:97-134 | a driver step, whichever it is, keeps the invariant |
| PoolInvariant.ConsumerInv | app/engine/process_pool.py:139-161 | so does a step of the consumer |
| PoolTheorems.ReachableInv | app/engine/process_pool.py:97-161 | the invariant holds in every state of every schedule |
| PoolTheorems.YieldsInOrder | app/engine/process_pool.py:139-156 | at any moment of any schedule the yielded values are exactly the first ones of the sequential map, in job order |
| PoolTheorems.EndsAsSequential | app/engine/process_pool.py:97-156 | however scheduled, a finished `imap` ended as the sequential map: end of input, the source's own exception, or WorkerError at the smallest failing index; "no worker left" only at a None job |
| PoolTheorems.SchedulesAgree | app/engine/process_pool.py:81-161 | any two schedules run to the end, neither standing at a None job, yield the same and end the same |
| PoolTheorems.WindowKept | app/engine/process_pool.py:89-95 | before `finally`, free slots, holding drivers and waiting results add up to two a worker where no window (or 0) is requested, else to the request, but at least to the workers; jobs drawn and not popped, None jobs aside, are never more than that |
| PoolTheorems.NotClosedUnlessAsked | app/engine/process_pool.py:139-161 | `imap` is on its way to end as closed only if the caller closed it at a yield |
| PoolTheorems.DrawnOnce | app/engine/process_pool.py:104-117 | a draw gives out an index nobody drew before, to the driver that draws; no other step touches that record |
| PoolTheorems.PostedOnce | app/engine/process_pool.py:111-132 | an entry is posted for an index that has none, and fits it; no other step posts |
| PoolTheorems.PoppedOnce | app/engine/process_pool.py:143-149 | a pop takes the next index; a popped index was posted and is never in the results again |
| PoolInvariant.SomeoneAlive | app/engine/process_pool.py:142-148 | when the consumer asks whether a thread is alive and its job is not None, one is: the branch cannot fire by mistake |
| PoolTheorems.NoDeadlock | app/engine/process_pool.py:98-148 | while the consumer waits for a job that is not None, its result is there, the end is known, or some driver can step |
| PoolLiveness.StepDecreases | app/engine/process_pool.py:97-161 | every step that is not idle polling lowers a measure |
| PoolLiveness.NeverStuck | app/engine/process_pool.py:141-148 | a fair schedule never polls forever without progress |
| PoolLiveness.EventuallyFinishes | app/engine/process_pool.py:81-161 | every fair schedule of a finite source without None jobs brings `imap` to its end |
| PoolLiveness.FairRunsAreSequential | app/engine/process_pool.py:81-161 | every fair schedule not closed early computes the sequential map |
| PoolFairRun.FairRunExists | app/engine/process_pool.py:97-161 | every pool has a fair run, so the liveness theorems speak of something |
| PoolBlocked.NoneJobNeverDelivered | app/engine/process_pool.py:118-122 | a None job at index k ends its driver: nothing from k on is ever yielded, and a finished run was closed or found no worker left |
| PoolBlocked.SequentialExactly | app/engine/process_pool.py:118-148 | a finished run that was not closed ended as the sequential map iff it does not stand at a None job |
| PoolBlocked.FinishesOrBlocks | app/engine/process_pool.py:97-161 | where the sequential map ends or meets a None job, every fair schedule brings `imap` to its end or to where it waits forever |
| PoolBlocked.NeverFinishesExactly | app/engine/process_pool.py:118-148 | a fair run never finishes iff it comes to a state with no free slot, every driver returned or waiting for one, and the consumer polling for an entry that is not there |
| PoolBlocked.BlockedAtNone | app/engine/process_pool.py:118-122 | what it then waits for is a None job |
| PoolBlocked.WaitsForever | app/engine/process_pool.py:118-148 | an input and a schedule that come there: two workers, a window of 2, a None job and two jobs behind it |
| PoolLeaving.LeavingDecreases | app/engine/process_pool.py:157-161 | after `finally` every driver step brings the threads nearer to their return |
| PoolLeaving.EveryDriverLeaves | app/engine/process_pool.py:157-161 | with the P extra releases each driver has returned, or can step, or waits for the draw lock another driver holds; none waits for a slot |
| PoolLeaving.DriversReturn | app/engine/process_pool.py:157-161 | once `imap` is over, every run that is fair outside jobs comes to rest, and there each driver has returned, or is inside its job or next(source), or waits for the draw lock of a driver inside next(source) |
| PoolLeaving.AllDriversReturn | app/engine/process_pool.py:157-161 | if jobs and draws end too, all drivers return |
| Frames.UnpackPack | app/engine/process_pool.py:32-54 | an 8-byte big-endian header reads back as the length it was packed from |
| Frames.PackUnpack | app/engine/process_pool.py:32-54 | and every header is the packing of its length |
| Frames.HeaderIsBigEndian | app/engine/process_pool.py:32-41 | a header is eight bytes, the most significant first |
| Frames.HeaderLimit | app/engine/process_pool.py:32-41 | only a payload of 2^64 bytes or more is refused |
| Frames.FramesRoundTrip | app/engine/process_pool.py:39-54 | any payload sequence, framed and concatenated, reads back as itself |
| Frames.ReadsWholeFrames | app/engine/process_pool.py:46-54 | the first n bytes of a stream yield exactly the payloads that are whole in them; a cut frame is EOFError, never a shorter payload |
| Frames.TakeTruncated | app/engine/process_pool.py:47-53 | a truncated frame raises end-of-file |
| Frames.Stream.Send | app/engine/process_pool.py:39-43 | appends one frame; a length beyond the header is refused and writes nothing |
| Frames.Stream.Receive | app/engine/process_pool.py:46-54 | takes exactly one frame off the pipe or reports EOFError |
| Frames.Serve | app/engine/process_pool.py:188-201 | writes one reply per whole request, in request order, until the requests end |
| Frames.KthReplyAnswersKthRequest | app/engine/process_pool.py:123-126 | the k-th reply on the pipe answers the k-th request, also when either pipe is cut short |
| Ledger.Verify | generator.py:882-921 | accepts exactly the valid ledgers, in one pass, and returns the counts; the error is e iff there is a first row the ledger is not valid with and e is the first fault in that row |
| Ledger.ErrorExactly | generator.py:895-919 | the same of the fold: a txid of an earlier canonical row; or the first input that is not sound, spending what an earlier row or input spends, or, if none does, what an earlier row made with another amount; or inputs all made before that hold less than the outputs |
| Ledger.OneFaultOfRow | generator.py:895-919 | a row has one first fault, so two different errors never fit |
| Ledger.AcceptsExactlyValid | generator.py:889-920 | the checker's fold accepts iff, duplicates ignored, txids are distinct, no outpoint is spent twice, inputs carry the amounts of the outputs they name and no fully resolved transaction creates value; its maps are then the declarative books |
| Ledger.CountsAreRight | generator.py:887-921 | transactions and duplicates add up to the rows, and unresolved is the number of inputs naming an outpoint no earlier row created |
| Ledger.NothingUnresolved | generator.py:903-906 | that number is 0 iff every named outpoint was created before |
| Ledger.RowsFailEarly | generator.py:889-920 | once a prefix is refused, the whole is refused with the same error |
| Ledger.ReadInputs | generator.py:898-913 | goes through iff every input fits the books, and then has spent exactly the named outpoints; the error is the one of the first input that does not fit: a double spend if its outpoint is spent, else the wrong amount |
| Ledger.ReadOutputs | generator.py:914-917 | the output loop registers every output and sums the values |
| LedgerValue.UnspentAtMostMinted | generator.py:898-919 | conservation: for non-negative amounts the unspent value of an accepted ledger is at most what transactions with no inputs or an unresolved one minted |
| LedgerValue.InputsMoveValue | generator.py:898-913 | reading inputs takes exactly the counted value out of the unspent outputs |
| LedgerValue.OutputsAddValue | generator.py:914-917 | registering outputs adds at most their sum to the unspent value: nothing for an outpoint that was spent before it was made |
| ScaleFixture.Replicate | scripts/scale_fixture.py:64-86 | copies x rows are written; the row at k * n + i is row i, duplicate or not, with its outputs and amounts, its txid and every non-empty prev_txid renamed for copy k, null and empty ones as they were |
| ScaleFixture.CopyTakesRows | scripts/scale_fixture.py:66-86 | after any accepted copies, each prefix of the next copy fares exactly as the same prefix of the original |
| ScaleFixture.ReplicationPreservesValidity | scripts/scale_fixture.py:66-86 | copies of a valid ledger are a valid ledger with `copies` times the transactions, duplicates and unresolved prevouts |
| ScaleFixture.SpendsResolveInOwnCopy | scripts/scale_fixture.py:74-78 | an outpoint is on the books of its own copy exactly when the original was at the same row |
| ScaleFixture.ReplicationExactly | scripts/scale_fixture.py:74-78 | two or more copies are valid iff no canonical input has an empty prev_txid |
| ScaleFixture.EmptyPrevBreaks | scripts/scale_fixture.py:74-78 | an empty prev_txid is written back unrenamed, so two copies spend one outpoint |
| InjectedLedger.AddDisciplinedExactly | generator.py:238-250 | a further transaction keeps the discipline (distinct ids, inputs made strictly before, spent once, value = outputs + fee) iff its id is new, its inputs are unspent and strictly earlier, and its value is accounted for |
| InjectedLedger.AddTransaction | generator.py:232-250 | and the unspent outputs move by exactly its inputs and outputs |
| InjectedLedger.RowHolds | generator.py:580-597 | the row names every outpoint spent with its amount and every amount made; a minting one has a single null input |
| InjectedLedger.SortedLedgerAccepted | generator.py:640-659 | sorted by moment, ties in any order, disciplined transactions are a ledger the checker accepts with no duplicate and no unresolved prevout |
| InjectedLedger.MakerIsEarlier | generator.py:640 | in time order the maker of every input comes strictly first |
| Injection.Injector.Fund | generator.py:232-236 | appends one minting transaction; its outputs are new and unspent |
| Injection.Injector.Token | generator.py:180-188 | the next token is no txid issued so far |
| Injection.Injector.Deposit | generator.py:253-259 | a new token is appended to the deposits and returned; the ledger is untouched |
| Injection.Injector.Receive | generator.py:261-264 | the exchange takes over unspent outputs, each once |
| Injection.Injector.Append | generator.py:234-249 | one transaction more; one that spends rightly keeps the books |
| Injection.Injector.Spend | generator.py:238-250 | refuses exactly the calls that would create value, changing nothing; otherwise appends the inputs, outputs and the whole difference as fee, for any inputs; unspent, strictly earlier ones keep the discipline |
| Injection.Injector.TimeOf | generator.py:299-304 | the moment of the transaction that made an output |
| Injection.Injector.Payment | generator.py:318-324 | a payer is funded the given time before, with the price and the extra, and spends exactly that; the change is the extra less the fee |
| Injection.Injector.Payments | generator.py:317-326 | each payment spends its own funding, made before by a time of the range, to one of the targets at a price of the range, and keeps what the funding held beyond it, less the fee; all within the time span, new, different and unspent |
| Injection.Injector.SortByTime | generator.py:327 | the stable sort by the moment of the making transaction: a permutation, ascending, equal moments in the order they came |
| Injection.Injector.Sweep | generator.py:338-346 | a batch is spent whole, less the fee, into one output to the given address |
| Injection.Injector.Consolidate | generator.py:328-346 | round i spends the output of the round before and then exactly its slice of the victims, for a fee of 4 000; together every victim payment |
| Injection.Injector.Round | generator.py:334-346 | one round: its slice, after the output held, 1 to 18 hours after the latest of them |
| InjectionShapes.RoundSizeIsLeast | generator.py:331 | the size of a slice is the least, but at least 2, with which the rounds take all victims |
| Injection.Injector.Peel | generator.py:347-363 | 4 to 8 transactions, each spending exactly the change of the one before into two outputs, 4 to 600 minutes later and for a fee in range |
| Injection.Injector.Hop | generator.py:350-363 | one peel spends the whole output into two; the first lands at the exchange iff a deposit was opened for it |
| Injection.Injector.CoinJoin | generator.py:364-382 | the mix, 10 to 240 minutes later, spends the operator's output first, with three to six participants, into equal outputs of the greatest multiple of 100 000 in half of that output, but at least that, and a change, for 600 an input |
| Injection.Injector.Mix | generator.py:371-379 | the equal outputs, the change and the fee take exactly what the inputs hold |
| Injection.Injector.Participants | generator.py:368-370 | every participant is funded 1 to 24 hours before the mix with 20 000 to 3 000 000 beyond the equal output |
| Injection.Injector.Ransomware | generator.py:307-392 | the payments, within three days, the chain of rounds over the victims in order of time, the chain of hops, the mix and the cash-out 2 to 48 hours after it follow each other, each spending what the one before left; every victim payment is spent; 35 to 100 transactions in all |
| Injection.Injector.Launder | generator.py:347-388 | the hops, the mix and the cash-out, each spending what the one before left |
| Injection.Injector.DarknetMarket | generator.py:395-450 | 40 to 120 payments, each with its funding, inside the span; the sweeps are exactly those of `HotSwept`; in the end a payment is unspent iff not due before the last sweep or alone at its own while no sweep had two; the payout, if any, spends the last hot output and ends the scenario |
| Injection.Injector.Layering | generator.py:452-485 | the source is minted and fanned out 1 to 72 hours later into 10 to 25 equal pieces, and each is respent whole and cashed out whole, within the minutes drawn |
| Injection.Injector.Respends | generator.py:469-481 | each piece in turn is respent and cashed out; every piece is spent |
| Injection.Injector.Respend | generator.py:469-481 | the piece is spent, later its one output |
| Injection.Injector.FanOut | generator.py:461-468 | the source is spent into equal pieces of the quotient, the remainder of the division and the reserve as fee |
| Injection.Injector.Extortion | generator.py:487-521 | 5 to 12 payments to one address within 600 minutes, each with its funding; one sweep of exactly these for 2 000, 10 to 60 minutes after the latest, and the cash-out of what it made to a new deposit address for 1 000, 2 to 30 hours after the latest |
| Injection.Injector.SweepAndCashOut | generator.py:505-517 | the sweep spends the whole batch for 2 000, the cash-out its output for 1 000 |
| Injection.Injector.BenignMerchant | generator.py:523-554 | 30 to 80 purchases, each with its funding, inside two weeks; the consolidations are exactly those of `WeekSwept`; in the end a purchase is unspent iff not due before the third consolidation or alone in its week |
| Injection.Injector.WeeklySweeps | generator.py:541-552 | one consolidation for each week with two purchases, in order of the weeks, of exactly the purchases of that week in order of time, to one treasury, for 3 000, half a day to two days after; a purchase is left unspent iff it is not due before the third consolidation or was alone in its week |
| Injection.Injector.ConsolidateWeek | generator.py:547-552 | a batch of two is consolidated whole; a smaller one is left |
| Injection.Injector.BenignPayroll | generator.py:556-573 | two months for one employer, each a funding and the salaries paid from exactly that |
| Injection.Injector.Payday | generator.py:562-570 | 15 to 40 salaries, multiples of 100 000 in range, are paid, a day after their funding with their sum and the fee of 50 000; the spend is not refused |
| Injection.Injector.Payout | generator.py:436-446 | one transaction, one to twelve hours later, spends exactly the hot output, whatever the shares; it is not refused |
| Injection.Injector.CashOut | generator.py:382-388 | the output, less the fee, moves to a newly opened deposit address, and the exchange receives it |
| Injection.Injector.HotSweeps | generator.py:416-434 | one sweep for each turn at which something is due and two payments were due by then, in order of the turns, each spending the hot output of the one before and exactly the payments of its turn in order of time, for 3 500, 5 to 90 minutes after the cursor; a payment is left unspent iff it is not due before the last sweep or was alone at its own while no sweep so far had two |
| Injection.Injector.SweepSlice | generator.py:420-434 | one turn: the sweep is made iff it has two inputs, and its output is the next hot output; else nothing happens and its batch is dropped |
| InjectionShapes.AllSweptExactly | generator.py:420-434 | every payment due is swept iff the earliest one is not alone in its slice |
| InjectionShapes.LonePayment | generator.py:420-434 | a disciplined ledger of forty payments with their fundings, of which neither the market nor the merchant ever sweeps the first |
| Injection.Injector.Earlier | generator.py:423-424 | the split by cursor is exact and keeps the order: nothing lost, nothing twice |
| Injection.Injector.FinishExchange | generator.py:266-297 | nothing happens without an exchange; else 40 to 89 customer deposits come on top, and then exactly the daily sweeps of all deposits |
| Injection.Injector.SweepDays | generator.py:280-295 | the transactions appended are the sweeps of the batches of `Batches` over the ascending days, in order: each of a whole batch into the hot wallet, for 3 000, a whole 5 to 179 minutes after its latest deposit; what waits in the end is unspent, all else spent |
| Injection.Injector.SweepDay | generator.py:292-295 | one batch goes to the hot wallet, soon after its latest deposit |
| DailySweeps.DayOfExactly | generator.py:284 | the day of a moment is d iff it lies in the d-th 24 hours from the start |
| DailySweeps.BatchesByDay | generator.py:285-291 | a batch has at least two deposits: all those of one day, in the order they came, but for at most one of an earlier day that waited; at most one waits in the end |
| DailySweeps.BatchesJoin | generator.py:285-291 | the batches one after the other, and what waits, are all deposits day by day: none lost, none twice |
| DailySweeps.SortedDays | generator.py:286 | the days, each once, ascending |
| Injection.Injector.Customers | generator.py:272-277 | 40 to 89 deposits, each minted to a deposit address opened for it and received by the exchange |
| Injection.Injector.AddCustomer | generator.py:273-277 | one of them |
| Injection.Injector.ByDay | generator.py:282-284 | every day with deposits has exactly its own, in the order they came |
| DailySweeps.DaySwept | generator.py:283-295 | after a day's sweep exactly the waiting deposits and those of later days are unspent |
| Injection.Injector.Scenario | generator.py:636-638 | every kind of scenario keeps the discipline and appends as many transactions as its draws allow, at least and at most |
| Injection.Injector.Run | generator.py:635-640 | every run of the injector, sorted by moment, is a ledger the checker accepts with no unresolved prevout; it ends with the daily sweeps of all deposits, and at most one exchange deposit is unspent in its books |
| Merging.BuildPart | generator.py:646-706 | positions of both streams weave bijectively onto 0..N-1, an injected transaction stands before a base one iff that or an earlier base one is strictly later; each base transaction takes along the run of rows with its txid, and these stand to the injected rows as it does; where each base transaction has one row, the row at every position is that of its transaction; the rows left over follow at the end |
| Merging.WriteWhile | generator.py:602-607 | `take_while`: exactly the next rows as long as their txid is wanted, in order |
| Merging.MergeIsStable | generator.py:679-699 | for a base in time order the merge is the stable sorted one, base first on ties |
| Merging.EpisodeMembersKept | generator.py:729-734 | a base transaction lies in the remapped episode iff it lay in the original: exactly when the end is at least 1 or the start is past the base |
| Merging.EpisodeIsTight | generator.py:731-732 | the bounds are those of its first and last base transaction, or the number of all transactions past the base |
| Merging.RemapGroups | generator.py:735-738 | the remapped bounds of every split group, or the KeyError of one starting at no base transaction |
| Merging.GroupsTile | generator.py:735-738 | adjacent groups stay adjacent, keep their base transactions and run from the first base position to N |
| Merging.OneGroupEach | generator.py:735-738 | every position from the first base transaction on lies in exactly one remapped group |
| MergedLedger.WovenLedgerValid | generator.py:679-706 | weaving two row streams without a common txid: the checker accepts the whole iff it accepts both |
| MergedLedger.WovenCounts | generator.py:679-706 | and its transactions, duplicates and unresolved prevouts are those of the two streams added up |
| MergedLedger.PartAccepted | generator.py:635-706 | an accepted base fixture merged with a run of the injector is accepted, and the run adds its transactions to the counts, and nothing else |
| Ranks.PermutedSum | scripts/evaluate_scenarios.py:49-53 | a sum over a permutation is the sum |
| Ranks.ArgSortSorts | scripts/evaluate_scenarios.py:50 | the argsort is a permutation, sorted, ties by index |
| Ranks.MidRankOfBlock | scripts/phase5b_compare.py:217-222 | the middle of the ranks of a tied block is (number below) + (number equal + 1) / 2 |
| Ranks.MidRanksTotal | scripts/phase5b_compare.py:213-224 | the ranks sum to n(n+1)/2 whatever the ties |
| Ranks.MidRanksKeepOrder | scripts/phase5b_compare.py:213-224 | the ranks order the values as they are and tie exactly the equal ones |
| Ranks.SameOrderSameRanks | scripts/phase5b_compare.py:213-224 | ranks depend on the order of the values only |
| Ranks.OppositeOrderRanks | scripts/phase5b_compare.py:213-224 | reversed values get the ranks from the other end |
| RankAuc.TiedMean | scripts/evaluate_scenarios.py:54-57 | the mean of the ordinal ranks of a tie is the mid-rank |
| RankAuc.AveragedRanks | scripts/evaluate_scenarios.py:49-57 | the tie-averaged rank array holds the mid-ranks |
| RankAuc.Ordinal | scripts/evaluate_scenarios.py:51-52 | place k of the order gets rank k + 1 |
| RankAuc.Tied | scripts/evaluate_scenarios.py:55-57 | count and total of the ranks tied at a value |
| RankAuc.SetTied | scripts/evaluate_scenarios.py:57 | exactly the tied entries change |
| RankAuc.Auc | scripts/evaluate_scenarios.py:46-58 | the rank formula is the Mann-Whitney count over n m: pairs won plus half the ties; NaN iff a side is empty |
| RankAuc.RankSum | scripts/evaluate_scenarios.py:58 | the positive ranks less m(m+1)/2 are exactly the pairs won |
| RankAuc.AucRange | scripts/evaluate_scenarios.py:58 | an AUC is in [0, 1] and its reverse is the complement |
| Spearman.RankRuns | scripts/phase5b_compare.py:213-224 | the nested while loops compute the mid-ranks, the same as the ranks of the AUC |
| Spearman.EndOfRun | scripts/phase5b_compare.py:218-220 | the last place of a run of equal values |
| Spearman.SetRun | scripts/phase5b_compare.py:222-223 | exactly the run gets the average |
| Spearman.CovarianceBounded | scripts/phase5b_compare.py:229-231 | cov squared is at most the product of the variances |
| Spearman.CorrelationBounded | scripts/phase5b_compare.py:229-234 | the correlation lies in [-1, 1] |
| Spearman.CorrelationIs | scripts/phase5b_compare.py:228-234 | Pearson's formula, from the sums of products of deviations; 1 where a variance is 0 |
| Spearman.Rho | scripts/phase5b_compare.py:207-234 | the correlation of the mid-ranks, in [-1, 1]; 1 below two values; an error iff the lengths differ |
| Spearman.SameOrderIsOne | scripts/phase5b_compare.py:207-234 | lists in the same order score 1 |
| Spearman.OppositeOrderIsMinusOne | scripts/phase5b_compare.py:207-234 | lists in opposite order score -1, except all-equal ones, which score 1 |
| Clustering.GroupBy | scripts/evaluate_scenarios.py:127-138 | every key once, with all its addresses in order |
| Clustering.GroupsCountPairs | scripts/evaluate_scenarios.py:130-145 | counting inside the groups counts each pair of one group exactly once |
| Clustering.CountPairs | scripts/evaluate_scenarios.py:131-134 | the loops over combinations count each pair of a list once |
| Clustering.CountGroups | scripts/evaluate_scenarios.py:130-145 | grouping and counting counts the pairs of equal key |
| Clustering.PairsPermuted | scripts/evaluate_scenarios.py:131-145 | the counts do not depend on any order |
| Clustering.PairsOfAny | scripts/evaluate_scenarios.py:139-140 | a list of m addresses holds m (m - 1) / 2 pairs |
| Clustering.CountPredicted | scripts/evaluate_scenarios.py:139-144 | predicted pairs by that formula, group by group, and those of one wallet by the loop |
| Clustering.Count | scripts/evaluate_scenarios.py:127-146 | the four counters are numbers of unordered pairs |
| Clustering.CountersCount | scripts/evaluate_scenarios.py:127-146 | each counter is the size of a set of pairs, spelled out on wallets and predicted entities |
| Clustering.CountsAreFractions | scripts/evaluate_scenarios.py:147-151 | recall and precision are at most 1 |
| Clustering.RecallMeetsPrecision | scripts/evaluate_scenarios.py:130-146 | without an empty entity both numerators count the same pairs |
| Causal.TimeGroups | scripts/ml_controlled_study.py:104-113 | each group is the ascending list of all indices at its time, times ascend and every index is in one |
| Causal.TotalOfSame | scripts/ml_controlled_study.py:136-139 | a history does not depend on the order of transactions |
| Causal.HistoryMeans | scripts/ml_controlled_study.py:127-139 | a history is the number of strictly earlier transactions that pay the address, the sum of what they pay it, and the latest of their times |
| Causal.RowSums | scripts/ml_controlled_study.py:125-130 | activity and value are the sums of the histories over the distinct known addresses |
| Causal.RowGap | scripts/ml_controlled_study.py:131-132 | the gap is the largest one of the addresses with a last payment, 0 without one |
| Causal.RowShare | scripts/ml_controlled_study.py:133 | the share is the number of known addresses paid before over their number |
| Causal.RowIsCausal | scripts/ml_controlled_study.py:117-140 | a row depends on its own transaction and the multiset of strictly earlier ones only |
| Causal.DeletingKeepsRow | scripts/ml_controlled_study.py:117-140 | deleting a transaction at the same or a later time leaves a row as it was |
| CausalHistory.GroupKnown | scripts/ml_controlled_study.py:121-139 | the pending updates of a group carry the state from its time to the next |
| CausalHistory.GroupRows | scripts/ml_controlled_study.py:122-135 | the rows of one group, from the state before it, and the updates it leaves pending |
| CausalHistory.ApplyPending | scripts/ml_controlled_study.py:136-139 | the updates are applied in order |
| CausalHistory.Rows | scripts/ml_controlled_study.py:116-140 | the incremental state yields, for every transaction, the declarative row of strictly earlier times |
| CausalSplit.KeepPrior | scripts/ml_controlled_study.py:211-217 | exactly the claims of strictly earlier parents are kept; every other claim becomes -1, and what was no claim stays as it was |
| CausalSplit.NoCycle | scripts/ml_controlled_study.py:211-217 | where all claims are prior, following parents never returns to a transaction |
| CausalSplit.KeptHasNoCycle | scripts/ml_controlled_study.py:211-217 | and so in what `causal_facts` keeps |
| CausalSplit.Masks | scripts/ml_controlled_study.py:220-231 | the boundary is the time of the row four fifths into the order of time: earlier reference rows train, it and the others calibrate; the two partition the reference and at most the cut trains; it fails exactly for under two rows or when the rows up to the cut share one time |
| ReviewQueue.BeforeIsTotal | app/api/group_routes.py:95 | the order is strict and total |
| ReviewQueue.QueueHasOneOrder | app/api/group_routes.py:95-96 | so the ordered query has exactly one answer |
| ReviewQueue.ClassOrder | app/api/group_routes.py:61-62 | inside a band and family the queue follows score, then id |
| ReviewQueue.StatusOrder | app/api/group_routes.py:59-60 | every escalated group stands before every one that needs data review, and that before all others |
| ReviewQueue.ScoreOrder | app/api/group_routes.py:61-62 | in a status and family a higher score stands first, and of equal ones the lower id |
| ReviewQueue.FamiliesTakeTurns | app/api/group_routes.py:57-66 | families of a status take turns: a group stands before another iff fewer of its own family stand before it, or as many and its family comes first |
| ReviewQueue.NoFamilyStarves | app/api/group_routes.py:57-66 | in any prefix, inside a band, no family is more than one ahead of another that still waits |
| ReviewQueue.WaitIsBounded | app/api/group_routes.py:57-66 | a group of family rank r stands before (groups in earlier bands) + r (families in its band) |
| ReviewQueue.QueueAndBacklog | app/api/group_routes.py:93-108 | queue and backlog split the groups that are not triaged, confirmed or dismissed, with the sizes reported, and the queue grows with the capacity |
| FeatureStore.Writer.Write | app/engine/feature_store.py:91-94 | appends to what was written, across buffering and flushing |
| FeatureStore.Writer.Flush | app/engine/feature_store.py:96-114 | the count stays the number of rows in the file |
| FeatureStore.Writer.ClosePart | app/engine/feature_store.py:116-120 | a finished part holds everything written and its number |
| FeatureStore.Writer.AppendPart | app/engine/feature_store.py:122-131 | copies the part in order; the count stays right iff the caller's count is; the version is the first that is not empty |
| FeatureStore.Writer.Publish | app/engine/feature_store.py:133-151 | the store holds everything written in order and records its number and the first version that is not empty |
| FeatureStore.Collect | app/engine/feature_store.py:116-151 | parts written by workers and collected by one writer come out as all parts in order, rightly counted |
| FeatureStore.IterRows | app/engine/feature_store.py:182-244 | with the whole-file skip, exactly the slice [offset, offset+limit) of legacy rows and all files |
| FeatureStore.ReadRows | app/engine/feature_store.py:191-219 | reading on row by row reaches the page of what was read, and stops with the page of everything once it is full |
| FeatureStore.ReadFile | app/engine/feature_store.py:228-232 | the same batch by batch |
| FeatureStore.PagesReassemble | app/engine/feature_store.py:182-244 | consecutive pages up to the count are all rows, once, in order |
| FeatureStore.FeatureCount | app/engine/feature_store.py:167-173 | the number of rows the reader would yield |
| FeatureStore.RewriteBatch | app/engine/feature_store.py:271-285 | row by row the transform's result, and the number changed |
| FeatureStore.RewriteOrCopy | app/engine/feature_store.py:269-285 | a batch without any of the entities is copied |
| FeatureStore.RewriteVectors | app/engine/feature_store.py:252-292 | the exception of the first row the transform fails on leaves the store as it was; else the same rows in the same places, each as the transform says, and the number of rows it changed |
| FeatureStore.RewriteKeepsPages | app/engine/feature_store.py:252-292 | no page changes its rows or order by a rewrite |
| Calibration.BisectRight | app/engine/confidence.py:40 | the place after all knots up to the value |
| Calibration.InterpolateBounded | app/engine/confidence.py:33-42 | the value lies between the first and the last y |
| Calibration.InterpolateMonotone | app/engine/confidence.py:33-42 | a higher score never gets a lower value |
| Calibration.KnotsAreHit | app/engine/confidence.py:33-42 | strictly increasing knots are hit exactly |
| Calibration.InterpolateIsLinear | app/engine/confidence.py:33-42 | between two knots the value lies on the line through them, outside it is that of the first or last |
| Calibration.Calibrate | scripts/calibrate_confidence.py:153-185 | (p + 1) / (n + 2) for under 30 or one-sided findings, else every threshold moved to (y n + p / n) / (n + 1); either way a rising map strictly inside (0, 1) |
| Calibration.NeverCertain | app/engine/confidence.py:112-115 | before rounding no calibrated value is 0 or 1, and confidence rises with the score |
| Calibration.ReportsCertainty | app/engine/confidence.py:118 | after rounding to six places a map reports 0 or 1 somewhere iff its lowest value is at most half a millionth or its highest that close to 1 |
| Calibration.RoundsToNearest | app/engine/confidence.py:118 | the reported value is the nearest of six places, the even one of two |
| Calibration.ShrinkingSurvivesRounding | scripts/calibrate_confidence.py:180-183 | the shrinking keeps every reported value off 0 and 1 exactly up to 1413 findings |
| CaseEvents.SequencesAreGapless | app/events.py:22-35 | under any interleaving of writers, commits and rollbacks the committed sequences are 1..n, visible in that order |
| CaseEvents.WriterStep | app/events.py:22-35 | an open transaction numbers its events on from the committed ones |
| CaseEvents.LockExcludes | app/events.py:22-35 | while a transaction holds the case row no other begins, appends, commits or rolls back |
| CaseEvents.TransactionLands | app/events.py:22-35 | whenever the row is free a whole transaction can run: a commit makes exactly its events visible, numbered on; a rollback leaves nothing |
| CaseEvents.FollowerMissesNothing | app/api/routes.py:1021-1038 | a follower, started at any sequence, also a negative one, has emitted exactly the events after its start up to its last, each once, in order |
| CaseEvents.NothingLandsBehind | app/api/routes.py:1021-1038 | no event commits later at or before what a follower resumed at or has passed |
| CaseEvents.QueryCatchesUp | app/api/routes.py:1024-1033 | one query and its emissions bring a follower up to everything committed when it asked |
| CaseEvents.AnswerIsSuffix | app/api/routes.py:1024-1030 | the ordered query is the rest of the log |
| JobControl.KeysCollideExactly | app/api/analysis_routes.py:88-92 | over all runs request keys never collide iff no worker goes longer than the lease without writing it |
| JobControl.StaleCompletionCollides | app/engine/ingestion/pipeline.py:600-605 | otherwise a run exists in which a stale completion lets a key be inserted twice |
| JobControl.KeysStayBehind | app/api/analysis_routes.py:88-96 | while leases hold, keys are at most the attempt, or the next one while queued, and a finished job has none for its next attempt |
| JobControl.OneRetryPerClaim | workers/runner.py:97-120 | one claim retries in place at most once, in all runs, iff worker ids are unique or leases hold |
| JobControl.SharedIdRetriesTwice | workers/runner.py:92-120 | otherwise a run exists in which a claim is retried twice |
| JobControl.HandlerSafeExactly | workers/runner.py:84-96 | the failure handler leaves a job that moved on alone, in all runs, iff worker ids are unique or leases hold |
| JobControl.SharedIdBreaks | workers/runner.py:92-96 | two processes under one id, and a lease that ran out: a run in which the stale one fails the other's job |
| JobControl.BuildTwice | app/api/group_routes.py:131-154 | in any state a repeated build adds nothing and lists the job again |
| JobControl.EnqueuedExactly | app/api/group_routes.py:134-148 | a build adds a grouping request for the next attempt exactly for a completed job, or a failed one whose newest open request is for grouping; a retry adds one for the whole run |
| JobControl.PendingIsNewest | app/jobs/grouping.py:116-119 | the pending request is the newest up to the attempt that is not fulfilled |
| JobControl.WritesExactly | app/engine/ingestion/pipeline.py:600-605 | a renewal extends the lease whoever holds it; a completion frees the job and fulfils exactly the requests it was made for |
| JobControl.ClaimSeesRequest | app/jobs/service.py:152-184 | the claim after a retry or a build of a completed job sees that request as the newest pending one: the whole run or grouping only |

## Left out

- One `imap` at a time per pool and only the driver failures caught at app/engine/process_pool.py:127; any other exception in a driver is not modelled.
- Pickling, subprocess control and `close`: a payload is its pickled bytes.
- Python's wait timeout: a waiting consumer may wake at any time.
- Address formats, scripts, labels, network fields and truth records of the generator; moments count microseconds, and amounts drawn from float ranges are arbitrary integers.
- Injection.Injector.Payout: does not say that the change is positive, because the generator does not ensure it.
- The order in which base rows of one transaction carry inputs and outputs files; only the ingestion rows are merged.
- The base fixture generator, merging of parts, manifests and file hashes.
- Hash functions: txids are an injective function of the token, and the keyed rename is assumed injective on (copy, txid).
- Address renaming and time shifting in the replication: the checker does not read them.
- The rounding of reported rates, the coverage and risk parts of the evaluation.
- Clustering.Count: does not sort the addresses of a group before pairing them, because no count depends on the order.
- The motif burst series, its exponentially weighted rate, the graph table and network features of the study: further prefix-only loops of the kind proved for the address history.
- Learned models, isotonic regression and logarithms: fitted thresholds come in ascending and in [0, 1].
- Floating-point rounding, except the six places of the reported confidence.
- The SQL engine: queries are sets and sequences; the legacy feature rows are one fixed sequence.
- Parquet encoding and batches beyond their sizes; temporary files and the atomic swap.
- Isolation in SQLite, which has no row lock: the event theorems need the lock on the case row.
- What the import pipeline computes: its checkpoints, stage starts and completion are steps that any process at work may take.
- The grouping progress, which on PostgreSQL checks and extends the lease while groups are prepared: it rules out some runs of the model, but not the stretch from its last check to the commit.
- One clock for all workers and the database.
- The deletion of a job while a worker holds it.
- Error codes, stages, audit records and heartbeats of jobs.
- Authentication, request validation, the frontend, deployment and benchmark scripts: plumbing or easy guards.
