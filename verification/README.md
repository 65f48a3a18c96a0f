# Verified model of the hosted agent worker

A Dafny 4.11 model of the state machines in `backend/agents/worker.js`, and of two scripts beside it, with proofs
about whole runs. `dafny verify dfyconfig.toml` checks everything.

What the worker is told is an input everywhere: the clock, the server, the escrow, storage, the language model and the
network may answer anything, in any order. The properties are about what the worker does with their answers.

| file | what it models |
|---|---|
| `WorkSlot.dfy`, `DeferredAccepts.dfy` | the one work slot that polls, task events and open passes compete for, as the stretches of code between two awaits, and the bounded queue of deferred events |
| `OpenRecord.dfy`, `OpenBounds.dfy`, `OpenEnds.dfy`, `OpenForgetting.dfy`, `OpenEscrow.dfy`, `OpenPass.dfy`, `OpenPasses.dfy` | the open-submission pass: what is remembered of one task, its whole history, what ends it and how long it waits, the escrow that takes its submission, the class whose maps hold the records of all tasks, and any number of its passes |
| `RollingCap.dfy`, `OpenCandidates.dfy`, `OpenBoard.dfy`, `ResultFit.dfy` | its hourly cap, its choice of tasks, the paged board and the cut of a long result |
| `OpenJudge.dfy`, `Ranking.dfy`, `Tournament.dfy`, `Scorecard.dfy`, `JudgeTask.dfy` | judging one task, from the server's list to the pick and its scorecard |
| `JudgeRecord.dfy`, `JudgeHistory.dfy`, `JudgeEnds.dfy`, `JudgeBounds.dfy`, `JudgePicks.dfy`, `JudgeOutages.dfy`, `JudgeRuns.dfy`, `JudgePass.dfy`, `JudgePasses.dfy` | the judging pass: one task's record, its whole history event by event, what ends it, what it costs, when its picks are signed, that history with everything a judgement is told, the class whose maps hold the records of all tasks, and any number of its passes |
| `EscrowTx.dfy` | which transactions built by the server may be signed, and what a lookup of an earlier one says |
| `SponsoredGas.dfy` | the worker and the relayer that may pay a task's gas |
| `JsonScanner.dfy` | the brace scanner that finds a JSON object in a model's output |
| `OgFunding.dfy` | paying for 0G Compute: wallet, ledger and provider sub-account |
| `EarningsBackfill.dfy`, `EarningsTotals.dfy`, `AdaptiveScan.dfy` | the earnings backfill beside the live backend, its sums, and its scan of block ranges |
| `Decimal.dfy` | parsing and printing amounts with 6 decimals |
| `Sorting.dfy`, `Wrappers.dfy` | stable sorting by a number; optional values |

Objects with fields the source updates (`OpenState`, `JudgeState`, `Runtime`, `Queue`, `Sponsor`, `ComputeAccount`) are
classes whose methods follow its statements. Each method is proved to do what a function on one task's record, or on
the object's view, says; the lemmas about runs are about those functions. A run is a list of what happened; a lemma
about runs holds for all of them. `OpenPasses.RunPasses` and `JudgePasses.RunPasses` show that any number of passes of
the class leave each task's record where such a run leads.

## Where the code does not do what it says or what one would expect

* A status that cannot be read after a failed sponsored request falls through to the agent's own gas
  (`backend/agents/worker.js:5917-5923`), although the comment above it says to hold: the two transactions may both land
  (`SponsoredGas.UnreadableStatusPaysTwice`).
* The marker of a sponsored call can stay set with nothing out, and then blocks the task (`SponsoredGas.StaleMarkerBlocks`).
* A result let go at its deadline leaves its task open to another run when the board moves the deadline
  (`OpenForgetting.MovedDeadlinesRunWithoutEnd`). The budget of 2 runs holds if and only if all deadlines the board
  gives are closer together than the time a run is given (`OpenForgetting.TwoRunsExactlyWithinTheMargin`), and so does
  that the submission on-chain is of the last result made (`OpenEscrow.SubmissionIsTheResultExactlyWithinTheMargin`).
* "Two complete reads in a row" ignores reads in part: one that lists the task in between does not count for it
  (`OpenForgetting.SeenInPartIsForgottenAllTheSame`).
* The comment on storage outages (`backend/agents/worker.js:5404-5406`) says a task waits while its storage waits last; such
  a pass does not use one up, so they need not run out (`JudgeOutages.OutageNeverSpendsAnAttempt`). The model calls stay bounded.
* A list read in part that misses a task drops its unsigned pick, which costs one more judgement each time: 3 and
  one for each such drop is the bound, and it is reached (`JudgeBounds.JudgingIsBounded`, `JudgeOutages.MissedReadsJudgeWithoutEnd`).
* The judge's list is read by offset over a list that changes, and is not deduplicated: a task named twice has its
  pick found twice and sent twice as it was found. The second sending knows nothing of the first, so it signs while the
  first transaction may land, and drops its hash (`JudgePicks.NamedTwiceSignsTwice`); a winner just refused costs a
  second attempt, and a pick just landed is held again (`JudgePicks.FindingTwiceUndoes`). Safety holds if and only if
  no list names a task more than once (`JudgePasses.SafeExactlyWhenNamedOnce`).
* A sent pick whose task is off the list is let go at the 25th lookup, pending or not; a task listed again is then
  judged and signed for a second time while the first transaction may land (`JudgePicks.LettingGoSignsTwice`).
* What is remembered is kept under the list's own text for a task, while the escrow's is compared in lower case: a task
  listed under two texts has two records and two signatures (`JudgePicks.TwoTextsSignTwice`). The three conditions
  together are exact (`JudgePicks.SafeExactlyWhen`).
* The list of submissions is deduplicated on the submitter's text in lower case, while the escrow is asked about an
  address: completeness holds if and only if no two kept texts are the same address, and two texts of one address
  hide a committed submission (`OpenJudge.OneAddressUnderTwoTexts`).
* With durable credit rows the backfill's 30-second wait is not needed; without them it is what exactness rests on
  (`EarningsBackfill.MarkerAloneNeedsTheWait`). A chain left out of a scan loses its payouts from the row.

## Model

| member | source | states |
|---|---|---|
| `WorkSlot.EveryRunIsSafe` | backend/agents/worker.js:2679-2711 | in every interleaving of timers, socket events and finished work, at most one activity holds the slot, exactly when the flag says so; whenever it is free, no poll is due and nothing is queued unless a task is held for gas |
| `WorkSlot.DuePollRunsNext` | backend/agents/worker.js:7110-7122 | a poll that came due while the slot was held is what runs when the holder ends, before any deferred event, and nothing starts in between |
| `WorkSlot.EveryPollRuns` | backend/agents/worker.js:2679-2690 | from the events alone: a poll that fires while the slot is held runs when the holder ends, with nothing started in between, and one that fires on a free slot starts at once |
| `WorkSlot.EveryEventStartsOrWaits` | backend/agents/worker.js:7124-7143 | an event not turned away takes a free slot with its own hint, or is queued with it while the slot is held |
| `WorkSlot.NoWaitingTaskIsLost` | backend/agents/worker.js:7083-7143 | a queued task stays queued until it is started, turned away, or pushed out by a new one at a full queue |
| `WorkSlot.HeldForGasNothingIsTaken` | backend/agents/worker.js:7110-7122 | while a task is held for gas nothing is taken from the queue |
| `WorkSlot.OpenPassStartsExactly` | backend/agents/worker.js:4699-4703 | the open timer starts a pass exactly on a free slot with no poll due and nothing queued |
| `WorkSlot.DeferredEventRunsNext` | backend/agents/worker.js:7110-7143 | when a holder ends with no poll due and nothing held for gas, the oldest deferred event that is not turned away starts; only turned-away events are dropped |
| `WorkSlot.DrainTakesTheOldestWelcome` | backend/agents/worker.js:7110-7143 | the mutual recursion of drain and accept ends on the queue's length and comes to one of four outcomes, stated without it |
| `WorkSlot.Runtime.Drain` | backend/agents/worker.js:7110-7122 | the drain, on the runtime's own variables, does what the specification does |
| `WorkSlot.Runtime.AcceptEvent` | backend/agents/worker.js:7124-7143 | accepting an event queues it while the slot is held, turns it away, or takes the slot |
| `WorkSlot.Runtime.StartPoll` | backend/agents/worker.js:2679-2690 | a poll that finds the slot held leaves itself due; else it takes the slot and is no longer due |
| `WorkSlot.Runtime.StartOpenPass` | backend/agents/worker.js:4699-4703 | an open pass starts only on a free slot with no poll due and no event waiting |
| `WorkSlot.Runtime.FreeSlot` | backend/agents/worker.js:4719-4722 | freeing the slot hands it on in the same stretch of code |
| `DeferredAccepts.QueueRefinesArrivals` | backend/agents/worker.js:7083-7108 | after any history the queue is the end of the sequence of distinct arrivals, in first-arrival order and within its limit; every arrival not in it was taken or pushed out at a full queue |
| `DeferredAccepts.QueueKeepsLatestHints` | backend/agents/worker.js:7083-7108 | each queued task carries the hint of the latest event for it |
| `DeferredAccepts.Queue.Add` | backend/agents/worker.js:7088-7100 | adding keeps an entry's place, replaces its hint, and evicts the oldest for a new task at a full queue |
| `OpenPass.OpenState.Pass` | backend/agents/worker.js:4604-4691 | one pass over the kept maps: a task counts as on the board exactly when some entry names it; an unsent result is sent whenever one exists, else, by what is kept after the board's read, the candidates are checked best first until one is run or crashes keep the worker off, five were checked or none is left, and the others' reasons logged; every task's record follows its history by a board read and at most one event that the history allows; at most one result is unsent afterwards, of no task that is done |
| `OpenPass.StartsExactly` | backend/agents/worker.js:4557-4581 | a pass records a start exactly when it called the model, and at most one |
| `OpenPasses.RunPasses` | backend/agents/worker.js:4604-4720 | after any number of passes, what is remembered of every task is where a run of its own leads, made of the passes' events, each read being of its own board; and the model was called exactly at the starts of an execution under the hourly cap |
| `OpenPasses.ForgottenOnlyOnceGoneTwice` | backend/agents/worker.js:4318-4332 | whatever the passes are told, a task is never forgotten unless two whole boards in a row are without it; so never while every whole board lists it |
| `OpenPass.OpenState.SendOpenResult` | backend/agents/worker.js:4468-4554 | what sending a result leaves behind, for every answer of the lookup, the wallet, the server and the escrow, and that no other task is touched |
| `OpenPass.OpenState.PruneOpenState` | backend/agents/worker.js:4318-4341 | what a board read makes of every task, named or not |
| `OpenPass.OpenState.NoteOpenFailure` | backend/agents/worker.js:4290-4299 | a failed run waits 15 minutes, or ends the task at the second failure or a final one |
| `OpenEnds.DoneExactlyOnceFinished` | backend/agents/worker.js:4282-4309 | in every run a task is done if and only if something it was told finished it and it was not forgotten since: an end the escrow or the server states, a crash on it, a second failed run, a final failure, or a result sent, too late, settled or tried 12 times; and the failures remembered are the failed runs since it was last forgotten |
| `OpenEnds.CheckedAgainExactlyAfterTheWait` | backend/agents/worker.js:4289-4297 | after a failed run, or a check that could not be decided, the task can be checked again exactly from 15 minutes later on, unless that finished it |
| `OpenEnds.DoneIsLeftAlone` | backend/agents/worker.js:4182-4190 | until it is forgotten, a finished task is neither checked nor sent for |
| `OpenEnds.SentExactly` | backend/agents/worker.js:4468-4554 | a send ends the task exactly for one of the stated reasons; else the result is kept with one try more and the one transaction that may still land |
| `OpenEnds.CheckedExactly` | backend/agents/worker.js:4631-4691 | for every way a check can go: whether the task is done, when it is free again, its failures counted, its result kept |
| `OpenPass.OpenState.OpenRunsLeft` | backend/agents/worker.js:4271-4274 | exactly the starts of the last hour are kept, and four less their number are left |
| `OpenBounds.OpenRunsAreBounded` | backend/agents/worker.js:4289-4309 | from any fresh start, an unsent result held or not, until the task is forgotten: at most 2 model runs and 1 result, plus one of each for every result let go at its deadline |
| `OpenBounds.SendsAreBounded` | backend/agents/worker.js:4301-4309 | in every run, forgotten tasks included, a result is sent at most 12 times, and no done task holds an unsent one |
| `OpenBounds.ForgettingStartsAfresh` | backend/agents/worker.js:4319-4340 | forgetting leaves exactly such a fresh start, its unsent result with the tries it had |
| `OpenBounds.TwoRunsWithinTheMargin` | backend/agents/worker.js:4556-4596 | from any fresh start, while the deadlines given are all closer together than the margin and the clock does not run backwards: at most 2 runs, and at most one result, held or made |
| `OpenForgetting.TwoRunsExactlyWithinTheMargin` | backend/agents/worker.js:4335-4340 | for any set of deadlines: every history with deadlines from it has at most 2 runs, and every one at most 1 result, if and only if any two of them are closer than the margin |
| `OpenForgetting.MovedDeadlinesRunWithoutEnd` | backend/agents/worker.js:4335-4340 | a result let go at its deadline is not marked done: for every n there is a run in which the board moves the deadline and the task is run n times, with no attempt counted |
| `OpenEscrow.OneSubmissionOfAResultMade` | contracts/contracts/BlindEscrow.sol:1010-1030 | whatever is forgotten, moved or mined late and in any order, the submitOpen the escrow takes commits the evidence of a result this agent made; that it takes one at most is its own rule |
| `OpenEscrow.SubmissionIsTheResultExactlyWithinTheMargin` | backend/agents/worker.js:4468-4553 | until a task is forgotten, all that was signed, and so what the escrow takes, commits the one last result: if and only if any two of its deadlines are closer than the margin |
| `OpenEscrow.HeldResultIsWhatIsTaken` | backend/agents/worker.js:4319-4340 | and so it goes on after a task was forgotten with its result unsent and its calls still pending |
| `OpenBounds.PruningIsApart` | backend/agents/worker.js:4318-4341 | a board read lets an unsent result go exactly when its deadline has passed; forgetting a task keeps its unsent result |
| `OpenForgetting.ForgottenAfterTwoCompleteReads` | backend/agents/worker.js:4311-4332 | a task is forgotten only on a complete read without it, after another one with no complete read listing it in between |
| `OpenEnds.TwoWholeBoardsForget` | backend/agents/worker.js:4318-4341 | and two complete reads in a row without it leave nothing of it but an unsent result |
| `OpenForgetting.SeenInPartIsForgottenAllTheSame` | backend/agents/worker.js:4319-4332 | a read in part that lists the task between the two does not save it |
| `OpenBounds.NothingSignedWhileOneMayLand` | backend/agents/worker.js:4475-4553 | in every run, forgotten tasks included: whenever an unsent result's submitOpen is signed again, every one signed for it before has since been looked up and found failed or unknown, and the new one commits the same evidence hash, on this task |
| `RollingCap.EveryHourHoldsFourStarts` | backend/agents/worker.js:4270-4274 | in any execution with a monotone clock, every half-open hour holds at most 4 starts, although the start is recorded after the check |
| `RollingCap.CapCountsTheLastHour` | backend/agents/worker.js:4270-4274 | and the cap holds back no more than it must: what a pass counts is exactly the starts of the hour before it |
| `RollingCap.FiveStartsAnHourApart` | backend/agents/worker.js:4272-4272 | an hour that counts both of its ends can hold five |
| `OpenCandidates.PickIsBestFirst` | backend/agents/worker.js:4182-4202 | the candidates are the eligible entries, sorted; the first pays the most per competitor and then closes soonest; no done, unsent or waiting task is among them |
| `OpenCandidates.CandidateExactly` | backend/agents/worker.js:4149-4193 | an entry is a candidate if and only if it names a task not done, unsent or waiting, every fact is for it, and its deadline is a run away |
| `OpenCandidates.SkippedForTheFirstReason` | backend/agents/worker.js:4149-4173 | an entry is skipped for the first reason true of it, and for none when none is |
| `OpenCandidates.TiesKeepTheirOrder` | backend/agents/worker.js:4195-4200 | the sort is stable: candidates that rank alike stay in the board's order |
| `OpenCandidates.CompetitorsAre` | backend/agents/worker.js:4194-4194 | the competitors are this agent and one for every whole submission counted, never fewer |
| `OpenCandidates.BeforeIsByShare` | backend/agents/worker.js:4195-4201 | comparing cross products of integers orders entries exactly as reward per competitor, then deadline |
| `OpenCandidates.BeforeIsStrictWeakOrder` | backend/agents/worker.js:4195-4201 | the comparison is irreflexive, asymmetric and transitive, and so is not comparing: the sort is well defined |
| `OpenCandidates.NoEntryIsLost` | backend/agents/worker.js:4182-4202 | every entry is a candidate, skipped with a reason, or silently left out for one of the three stated causes |
| `OpenCandidates.SkippedExactly` | backend/agents/worker.js:4182-4193 | what is skipped aloud is exactly every entry not silently left out that a reason is against, with that reason |
| `OpenCandidates.PickOpenCandidates` | backend/agents/worker.js:4182-4202 | the loop computes that selection and the reasons |
| `OpenBoard.ReadOpenBoard` | backend/agents/worker.js:4355-4372 | the pages are read at the offsets of what came before; the read is called complete exactly when it reached the board's end, and fails exactly when a page before it does |
| `OpenBoard.StandingBoardIsReadWhole` | backend/agents/worker.js:4355-4372 | a board that stands still is read in its order without gap or repeat, and its end is found on the page that holds it |
| `OpenBoard.BoardEndsExactly` | backend/agents/worker.js:4363-4370 | a read ends, complete, exactly at a page that is empty, gives no total or reaches it |
| `OpenBoard.KeptInTheOrderMet` | backend/agents/worker.js:4363-4368 | the tasks kept stay in the order they were met |
| `OpenBoard.EachTaskIsKeptOnce` | backend/agents/worker.js:4363-4368 | a task met on two pages is kept once |
| `OpenBoard.KeptIsFirst` | backend/agents/worker.js:4363-4368 | under its first entry |
| `OpenBoard.NoTaskIsLost` | backend/agents/worker.js:4363-4368 | and no task read is lost |
| `ResultFit.FitOpenResultData` | backend/agents/worker.js:4084-4098 | a result that fits is unchanged; otherwise the longest code-point prefix whose encoded size with the note is within the cap, one code point more being over it, when the note alone fits |
| `ResultFit.CutSizeGrows` | backend/agents/worker.js:4089-4096 | the cut's size grows with every code point kept, which the binary search relies on |
| `ResultFit.TextBytesAreTheBytes` | backend/agents/worker.js:4085-4085 | the size counted is the number of bytes of the text, escaped as JSON.stringify does and encoded in UTF-8 (section 3 of RFC 3629) |
| `ResultFit.WholeOutputNeverFits` | backend/agents/worker.js:4090-4097 | keeping the whole output with the note never fits when the result did not |
| `EscrowTx.CheckUnsigned` | backend/agents/worker.js:4239-4255 | nothing is wrong with a transaction from the server exactly when it is this wallet's, on this chain, to the escrow, without value, and the wanted call; selectWinnerByVerifier is checked alike (4962-4983) |
| `OpenJudge.KeptListIsTheCommittedSet` | backend/agents/worker.js:5334-5351 | once as many listed entries are committed as the escrow counts, the kept list is exactly the committed addresses, one each, if and only if no two entries name the same address |
| `OpenJudge.OneAddressUnderTwoTexts` | backend/agents/worker.js:5334-5351 | two texts of one address, both kept by the deduplication, fill a list of two while a committed submission is not on it |
| `OpenJudge.FetchOpenSubmissions` | backend/agents/worker.js:5526-5540 | the pages are followed by their cursors; a list returned holds each lower-case submitter once, from all pages or as many as are asked for, and there is none when pages are left at the limit |
| `OpenJudge.ServedListIsReadWhole` | backend/agents/worker.js:5526-5540 | a list served page by page is read in its order, each entry once, whole exactly once no page is left |
| `OpenJudge.DedupedNamesOnce` | backend/agents/worker.js:5527-5537 | each submitter read is listed exactly once, in lower case |
| `OpenJudge.LatestIsKept` | backend/agents/worker.js:5527-5537 | and what is kept of a submitter is the last entry it was listed with |
| `OpenJudge.KeptInTheOrderListed` | backend/agents/worker.js:5527-5537 | in the order the submitters were first listed |
| `OpenJudge.VerifyOpenResults` | backend/agents/worker.js:5614-5641 | a result may be judged exactly when it is the committed one and, if stored in full, on the stored content itself; the check waits exactly when such content is missing and not given up on |
| `OpenJudge.FailedRootsExactly` | backend/agents/worker.js:5614-5641 | the roots reported are exactly those of committed results that could not be downloaded and are not given up on |
| `OpenJudge.JudgeableSubmissions` | backend/agents/worker.js:4810-4834 | the readable submissions that pass the checks, or all readable ones when none passes, in order, under different labels; everyone else in the exclusion rows with the reason |
| `OpenJudge.OthersAreListedWithWhy` | backend/agents/worker.js:4810-4826 | a row is among the exclusions if and only if it is of a submission not judged, with why: as the check found it, unreadable, or failing the task's checks |
| `OpenJudge.ShownIsTheBeginning` | backend/agents/worker.js:4828-4833 | the judge reads a text as it is, or its first 6000 characters and that there are more |
| `Ranking.CheckRanking` | backend/agents/worker.js:4842-4861 | an answer is used if and only if it reads as a ranking scoring every candidate once from 0 to 10 whose winner, if any, nobody outscores |
| `Ranking.NoneIsNamedExactly` | backend/agents/worker.js:4853-4858 | no winner is named exactly when none is given, or the text is blank, null or none, in either case and between any white space |
| `Tournament.JudgeInRounds` | backend/agents/worker.js:4873-4892 | the loop computes the rounds as specified and ends, for batches of at least two |
| `Tournament.JudgementIsWhatRankingsSay` | backend/agents/worker.js:4873-4892 | in terms of the rankings alone: the entrants of each round are exactly the candidates the rankings of the batches before name, in batch order; the winner is the one the last round names, nobody when it names none; a failure ends at the first ranking that fails |
| `Tournament.FailsExactlyWhenARankingDoes` | backend/agents/worker.js:4880-4881 | a judgement fails if and only if some ranking asked for on its way does |
| `Tournament.PickWonEveryRound` | backend/agents/worker.js:4873-4892 | the pick is one of the candidates and in every round was named the winner of its batch with nobody scored higher; every round has fewer entrants than the last |
| `Tournament.EveryRoundScoresEachOnce` | backend/agents/worker.js:4876-4889 | every round scores each of its entrants exactly once |
| `Tournament.CallsAreOnePerBatch` | backend/agents/worker.js:4879-4885 | the ranking calls are one per batch, of which at most one per round is partial |
| `Tournament.FullBatchesAreBounded` | backend/agents/worker.js:4879-4885 | (b - 1) times the full batches of all rounds is at most the number of candidates |
| `Tournament.CallsAreBounded` | backend/agents/worker.js:4873-4892 | no judgement, failed or not, takes more calls than that bound allows |
| `Tournament.ThirteenCallsAtMost` | backend/agents/worker.js:4738-4742 | 13 model calls at most with batches of 6 and 60 submissions |
| `Scorecard.BuildScorecard` | backend/agents/worker.js:4909-4949 | whichever size tier is used, the notJudged counts add up to all those excluded, each reason's count and names are true, and the most common reasons come first; the tier is the first of which the card fits, naming as many reasons and submitters as it allows |
| `Scorecard.GroupByWhy` | backend/agents/worker.js:4911-4917 | one group for each reason, holding exactly those excluded for it in order, the counts adding up |
| `Scorecard.CardScoresEachJudged` | backend/agents/worker.js:4919-4935 | the card's scores are one for each judged submission, under its own submitter |
| `JudgeTask.ConsideredAreEarliest` | backend/agents/worker.js:5353-5355 | at most 60 are considered, none refused, and nobody passed over comes before one of them |
| `JudgeTask.UnconsideredAreListedWithWhy` | backend/agents/worker.js:5359-5363 | those never considered are listed as refused winners, or as beyond the first 60, each under its own reason |
| `JudgeTask.PrepareJudging` | backend/agents/worker.js:5321-5382 | nothing is judged while the list is padded, a committed submission is missing, or a stored result is waited for; else the candidates are, in order, exactly the considered submissions whose committed result can be read and passes the checks, or all that can be read when none passes; candidates and exclusions together are the kept list |
| `JudgeTask.Judge` | backend/agents/worker.js:5321-5475 | end to end, from what it is told: an unusable list, a wait on storage or nothing to read exactly when that is so; otherwise a winner exactly when the last round of rankings names one candidate, who was not refused and won its batch in every round; nobody exactly when it names none; a failure exactly when the last ranking asked for failed, and a yield exactly when paid work waited for it; at most 13 calls; the card accounts for everyone kept, each under the reason it was left out for, and for the escrow's count exactly when no address is listed twice |
| `JudgeTask.PaidWorkIsYieldedTo` | backend/agents/worker.js:5404-5418 | paid work that waits at a ranking call has the task yield there, and the model is asked no more, unless it yielded three times in a row already |
| `JudgePass.JudgeState.Pass` | backend/agents/worker.js:5200-5483 | one judging pass over the kept maps, whatever its list names and how often: every task's record is where the pass's events lead, a look for each place on the list, its pick sent as it was found, and it judged, each of them possible; the picks ready are exactly those found, off the list first and then in its order; eight of them are sent, or all if fewer, none left having waited longer than one sent; the tasks to judge are taken in the list's order until one has its ranking started |
| `JudgePasses.RunPasses` | backend/agents/worker.js:5200-5483 | after any number of passes, what is remembered of every task is where a run of its own leads, made of the passes' events |
| `JudgePass.JudgeState.SendHeld` | backend/agents/worker.js:5083-5173 | what sending a pick leaves behind, for every answer, and that no other task is touched |
| `JudgePass.JudgeState.LookAt` | backend/agents/worker.js:5235-5282 | what a look at the escrow decides and leaves behind, the escrow's task compared with the list's text in lower case |
| `JudgePass.JudgeState.JudgeOne` | backend/agents/worker.js:5295-5480 | what judging one task leaves behind for every way it can go, and when it ends the pass |
| `JudgeEnds.DoneExactlyOnceFinished` | backend/agents/worker.js:5233-5480 | in every run a task is over if and only if something its judge was told ended it and no whole list was without it since: an escrow that rules the judge out, a window passed, a crash on it, nobody submitted or acceptable, a pick landed or finally refused |
| `JudgeEnds.LookedAtAgainExactlyAfterTheWait` | backend/agents/worker.js:5236-5252 | a task put off is looked at again exactly from 15 minutes later on |
| `JudgeEnds.CardIsCheckedForTwelvePasses` | backend/agents/worker.js:5207-5211 | a scorecard to be confirmed is checked once a pass until it is found kept, for 12 passes at most, whatever becomes of its task |
| `JudgeEnds.LookedAtExactly` | backend/agents/worker.js:5233-5279 | a held pick is sent in its window, or after it if it was sent before; a task is judged in its window alone; neither before |
| `JudgeEnds.TurnsComeExactly` | backend/agents/worker.js:5213-5289 | how often a pick is sent and a task judged in a pass: once for each look that found it so |
| `JudgeEnds.PickSentExactly` | backend/agents/worker.js:5083-5173 | for every answer: whether a sent pick ends its task, is undone for a refused winner at the cost of an attempt, and whether its scorecard is to be confirmed |
| `JudgeEnds.PickKeptExactly` | backend/agents/worker.js:5083-5173 | and otherwise it is kept as it was, with the hash of its newest transaction |
| `JudgeEnds.JudgedExactly` | backend/agents/worker.js:5295-5480 | for every way judging can go: whether it ends the task, costs an attempt, waits 15 minutes or yields |
| `JudgeEnds.StorageWaitsAreCounted` | backend/agents/worker.js:5368-5383 | each wait on storage counts a pass and every failed root once; a root is given up on after 3 failures, and all after 6 passes |
| `JudgeEnds.OffTheListExactly` | backend/agents/worker.js:5213-5231 | off a whole list all but the pick and the scorecard are forgotten; a pick stays only while it was sent and met at most 24 lists without it |
| `JudgeBounds.JudgingIsBounded` | backend/agents/worker.js:5295-5450 | until a whole list without the task forgets it, with every read in part and however often a list names it: at most 3 completed judgements and 12 ranking starts, plus 1 and 4 for each pick dropped by a list without it, and fewer waits on storage than 6 plus the distinct stored results |
| `JudgeBounds.ListedJudgingIsBounded` | backend/agents/worker.js:5295-5450 | while every read lists the task, none is dropped: 3 judgements and 12 starts |
| `JudgeRuns.AnswersRespectTheRecord` | backend/agents/worker.js:5321-5430 | whatever the list, the escrow, storage and the model say, judging comes to an answer those bounds allow, and a winner is never one the server refused |
| `JudgeRuns.ComesToExactly` | backend/agents/worker.js:5295-5450 | each verdict on what is told is carried to the task as that one answer: a winner exactly when the ranking has one and the brief was read, and so on |
| `JudgeRuns.JudgedRunsAreBounded` | backend/agents/worker.js:5295-5450 | so the bounds hold for every run in which judging is computed from what it is told |
| `JudgeRuns.RefusedWinnerIsNotPickedAgain` | backend/agents/worker.js:5120-5128 | in such runs a winner the server refused is never picked again, until a whole list without the task forgets it |
| `JudgePicks.SafeExactlyWhen` | backend/agents/worker.js:5101-5113 | over all runs in which a pass finds a task's pick ready at most m times on its list, a sent pick meets at most k lists without its task, and the lists name the task by at most n texts: no pick of it is signed while an earlier one may land, whatever the answers, if and only if m <= 1, k <= 24 and n <= 1 |
| `JudgePicks.NothingSignedWhileOneMayLand` | backend/agents/worker.js:5101-5113 | within those limits, from any fresh start: whenever a pick is signed, every pick signed for the task before has since been looked up and found failed or unknown |
| `JudgePasses.SafeExactlyWhenNamedOnce` | backend/agents/worker.js:5496-5519 | and over all histories of passes in which no sent pick meets a 25th list without its task: safe if and only if no list names a task more than once |
| `JudgePicks.NamedTwiceSignsTwice` | backend/agents/worker.js:5233-5289 | a list that names a task twice: the second sending of its pick is signed while the first transaction may land, whose hash is then gone |
| `JudgePicks.FindingTwiceUndoes` | backend/agents/worker.js:5284-5289 | the second sending of a pick as it was found spends a second attempt on a refused winner, and holds a landed pick again on a done task |
| `JudgePicks.TwoTextsSignTwice` | backend/agents/worker.js:5255-5277 | a task listed under two texts that are one in lower case: it is signed for under the second while the transaction of the first may land |
| `JudgePicks.SignedPickIsTheJudgedOne` | backend/agents/worker.js:5138-5150 | what is signed pays the judged winner, anchors its own scorecard and sends no value |
| `JudgePicks.LettingGoSignsTwice` | backend/agents/worker.js:5213-5225 | a run past that lookup, in which the task comes back and is signed for a second time while the first transaction may land |
| `JudgeOutages.OutageNeverSpendsAnAttempt` | backend/agents/worker.js:5403-5411 | however many results are stored and however long storage serves none of them: at most 3 passes wait, all of them are given up on after 3, and no attempt is ever spent |
| `JudgeOutages.MissedReadsJudgeWithoutEnd` | backend/agents/worker.js:5213-5225 | for every n, a run in which n reads in part miss the task and 3 + n judgements are completed: the bound is exact |
| `SponsoredGas.NeverPaysOrReleasesWhileOut` | backend/agents/worker.js:5810-5924 | when the status read after a failed request answers, in every run an own-gas submitEvidence or a release is made only when no relayer transaction may still land |
| `SponsoredGas.ReportedLandedHasLanded` | backend/agents/worker.js:5778-5924 | in every run, whatever can be read: a call reported as landed has landed |
| `SponsoredGas.OutcomeIsTheRelays` | backend/agents/worker.js:5778-5924 | a call that returns on an answer it could read reports landed, out or own gas exactly as the relayer's transaction has landed, is out or can never land |
| `SponsoredGas.CallEndsWithTheFirstAnswerThatSays` | backend/agents/worker.js:5778-5924 | a call ends with the first answer that settles it, reports that, and keeps the task reserved exactly while it is out |
| `SponsoredGas.AsksAgainExactly` | backend/agents/worker.js:5855-5913 | a request is made again exactly after a timeout, and once after a set-up that did nothing, five at most |
| `SponsoredGas.UnreadableStatusPaysTwice` | backend/agents/worker.js:5914-5923 | with a transaction out and no marker, own gas is paid exactly when that read is unreadable, where the comment says to hold |
| `SponsoredGas.UnreadableStatusIsReached` | backend/agents/worker.js:5914-5923 | a run that gets there |
| `SponsoredGas.RestartWhileOutPaysTwice` | backend/agents/worker.js:5994-6011 | a process that starts again with a transaction out has forgotten the marker: its next broadcast pays own gas exactly then, unless the task was reserved again |
| `SponsoredGas.MarkerIsExactUnlessStale` | backend/agents/worker.js:5766-5798 | when a call ends, the marker is set exactly on a pending outcome: if and only if it was not both set before and left alone, the call's last answer being neither a status waited for nor a request taken |
| `SponsoredGas.StaleMarkerBlocks` | backend/agents/worker.js:2626-2630 | a marker left set keeps the task from own gas, from the relayer and from release until it is reserved again |
| `SponsoredGas.StaleMarkerIsReached` | backend/agents/worker.js:5766-5798 | a run that leaves it set with nothing out |
| `SponsoredGas.Sponsor.SponsoredCall` | backend/agents/worker.js:5810-5924 | the call, with its waiting loop, does what the automaton does with the same answers |
| `SponsoredGas.Sponsor.AwaitOutcome` | backend/agents/worker.js:5778-5798 | the waiting loop returns on the first final status or at its deadline, landed exactly on a confirmed one and own gas exactly on a failed or unknown one, and sets or clears the marker accordingly |
| `SponsoredGas.Sponsor.Broadcast` | backend/agents/worker.js:5994-6011 | landed is answered only when an answer said so; own gas is used only after the call said so |
| `JsonScanner.ScanStopsAtClosingBrace` | backend/agents/worker.js:3250-3272 | started at an object printed by RFC 8259, the scan stops exactly at that object's closing brace, whatever its strings hold, however deep it nests, whatever follows |
| `JsonScanner.ExtractsThePrintedObject` | backend/agents/worker.js:3235-3273 | an object printed after text without an opening brace, within the cap and unfenced, is what is returned |
| `JsonScanner.SomeParserParsesObjects` | backend/agents/worker.js:3237-3244 | a parser that takes exactly the object texts of RFC 8259, literals and numbers as sections 3 and 6 have them, exists |
| `JsonScanner.ExtractJsonObject` | backend/agents/worker.js:3235-3273 | the extraction tries the whole text, the fenced texts, then the balanced objects from at most 50 opening braces |
| `JsonScanner.FirstAttemptIsTaken` | backend/agents/worker.js:3235-3273 | what is returned is what the first of its attempts to parse gives: the whole text, each fence, the text from each of the first 50 opening braces to the one that balances it; nothing exactly when none parses |
| `JsonScanner.ClosingBrace` | backend/agents/worker.js:3252-3268 | the loop's depth and in-string flags compute the brace that closes |
| `OgFunding.ShortIsExact` | backend/agents/worker.js:481-494 | `short` exactly when the locked balance does not clear the floor and no transfer of at least the minimum and at most what is available would |
| `OgFunding.TransferIsLegalAndPays` | backend/agents/worker.js:481-494 | a transfer is affordable, at least the minimum, and ends above the floor |
| `OgFunding.TransferIsTheLeastToTheTarget` | backend/agents/worker.js:481-494 | a transfer is planned exactly when the target is not reached and some legal one lets the account pay; it is the least that reaches the target, or all there is when none does |
| `OgFunding.ReadyExactly` | backend/agents/worker.js:481-494 | nothing is planned exactly when the target is reached, or the account can pay and no transfer is legal |
| `OgFunding.DepositCoversShortfall` | backend/agents/worker.js:500-503 | the deposit covers the shortfall by less than two steps |
| `OgFunding.OneDepositEndsShort` | backend/agents/worker.js:500-503 | one such deposit always turns `short` into a transfer |
| `OgFunding.SetUpConserves` | backend/agents/worker.js:618-735 | wallet, ledger, sub-account and the accounts with unused providers together lose only gas, in every outcome, refunds asked for included |
| `OgFunding.RefundsConserve` | backend/agents/worker.js:511-518 | refunding the unused providers moves balance into the ledger and none out, at the cost of gas |
| `OgFunding.DueRefundsAreTried` | backend/agents/worker.js:618-650 | exactly the refunds due are tried, in turn, while the wallet can pay their gas, and what each brings back reaches the ledger |
| `OgFunding.RefundsAreAskedThenCollected` | backend/agents/worker.js:511-518 | a refund is asked for while anything is locked, else a matured one is collected, at most once an hour |
| `OgFunding.ShortSetUpAsksForRefunds` | backend/agents/worker.js:696-715 | refunds are tried exactly in a set-up that ends with an open ledger short |
| `OgFunding.AsksExactly` | backend/agents/worker.js:662-715 | the owner is asked for money exactly when the wallet cannot open a ledger or make up a short one, for exactly what is missing, with nothing moved or spent |
| `OgFunding.DoneSpendsExactly` | backend/agents/worker.js:662-735 | a finished set-up has paid for just the transactions it needed, and moved just the planned transfer |
| `OgFunding.SetUpDonePays` | backend/agents/worker.js:665-735 | a setup that ends ready leaves the sub-account above the floor |
| `OgFunding.SendingTheStatedAmountEndsDone` | backend/agents/worker.js:677-709 | sending what the message asks for makes the next setup whose calls all succeed end ready |
| `OgFunding.ComputeAccount.SetUp` | backend/agents/worker.js:662-735 | the setup on the account's balances does what the specification says, refunds from unused providers when it ends short included |
| `EarningsBackfill.WrittenRowsAreExactInEveryRun` | backend/scripts/backfill-earnings-by-chain.ts:25-49 | in every interleaving with the live backend, and whatever runs die, each row the guarded update wrote counts every payout exactly once: the totals plus the credits since; its task count is the one written, no less than the payouts counted, plus one for each of these credits |
| `EarningsBackfill.FailedCreditIsOpenAgain` | backend/src/services/workerPayout.ts:170-276 | with durable rows, a credit that failed leaves its payout open to be credited again, and no row changed |
| `EarningsBackfill.WrittenRowIsExact` | backend/scripts/backfill-earnings-by-chain.ts:467-483 | the row an update writes is exact at that moment: what the chains paid by currency, and as many tasks as were stored or as there are payouts, whichever is more |
| `EarningsBackfill.DeadRunIsHealed` | backend/scripts/backfill-earnings-by-chain.ts:40-49 | once a later run is past a row, written or found equal, the row is at totals that hold whatever a dead run had claimed |
| `EarningsBackfill.UnwaitedCreditCountsTwice` | backend/scripts/backfill-earnings-by-chain.ts:339-381 | without durable credit rows, a credit under way when the row is written counts its payout twice |
| `EarningsBackfill.MarkerAloneNeedsTheWait` | backend/scripts/backfill-earnings-by-chain.ts:339-381 | and the row written is exact if and only if no counted payout of that row has a credit under way |
| `EarningsBackfill.UnscannedChainsAreLost` | backend/scripts/backfill-earnings-by-chain.ts:403-440 | a row loses what the unscanned chains paid, if and only if they paid the executor something |
| `EarningsTotals.AddUp` | backend/scripts/backfill-earnings-by-chain.ts:409-436 | each executor's entry is exactly what the scanned payouts paid, by currency, and how many; one without an entry was paid nothing |
| `AdaptiveScan.ScanHoldsTheLastPayouts` | backend/scripts/backfill-earnings-by-chain.ts:169-191 | a finished scan holds a task exactly when some scanned block does, with the amount of its last payout |
| `AdaptiveScan.ScanPayouts` | backend/scripts/backfill-earnings-by-chain.ts:169-191 | whatever requests are refused, the scan ends: either on ranges that tile fromBlock to latest exactly with the same Map as one whole read, or on a refused range of at most 500 blocks; at most as many refusals are got past as halvings; no range but the last is short of 500 blocks or the first chunk |
| `AdaptiveScan.HalvingsIsLogarithmic` | backend/scripts/backfill-earnings-by-chain.ts:180-183 | at most the base-2 logarithm of the first chunk over 500, rounded up |
| `AdaptiveScan.HalvingsAreNeeded` | backend/scripts/backfill-earnings-by-chain.ts:180-183 | and at least that: each refusal takes off no more than half |
| `Decimal.ToRawIsExact` | backend/scripts/lint-task-batch.ts:58-62 | a text is accepted exactly when it is digits, with at most 6 more after a point, and its value in base units is then exact |
| `Decimal.PrintThenToRaw` | backend/scripts/lint-task-batch.ts:214-220 | parsing the printed total gives the total back, for every natural number |
| `Decimal.PrintIsPlain` | backend/scripts/lint-task-batch.ts:214-220 | a total is printed without leading zeros, trailing zeros or a bare point |

## Left out

Assumptions of the model:

- The work slot, the open pass and the judging pass are modelled as steps between awaits; that JavaScript runs such a stretch without interruption is taken as given.
- The evidence hash is injective: it is modelled as the result and its storage id themselves.
- A transaction the escrow refuses for one of the final reasons, and one that failed before it was signed, cannot land later.
- Sending an open result or a pick never throws: the gas preflight throws only for a chain that was skipped before.
- The relayer refuses a request only when none of its transactions for the call is out or has landed; the process starts with nothing out (`SponsoredGas.RestartWhileOutPaysTwice` shows a restart without it).
- The board an open pass is given names each task once, as `readOpenBoard` leaves it (`OpenBoard.EachTaskIsKeptOnce`); nobody commits after the pick window opened.
- JSON.parse takes exactly the object texts of RFC 8259; text is a sequence of characters, so lone surrogates are not told apart, and lower-casing is that of the letters A to Z; what the regular expression for fenced blocks captures is an input.

Not modelled:

- I/O itself: fetch, sockets, Redis, Postgres, RPC providers, storage and model SDKs; only their answers.
- Cryptography, prompts, tools, messaging, log lines and their reasons, and the texts of refusals.
- Accepted tasks (the brief, the run, the submission of evidence) beyond the slot they hold and the sponsored call.
- The Sui path, account abstraction and the settlement contracts.
- The reasons written into scores, their redaction, and the byte size of a scorecard: whether a card fits is an input.
- The escrow's other refusals of a submitOpen: in `OpenEscrow` a call that is mined is taken unless one was taken before, whichever deadline the escrow holds.
- The reward floor and the escrow's eligibility answer: facts of an entry or answers of a check.
- NaN and infinite deadlines, scores, ordinals and submission counts.
- The status of a sponsored `release` call; only `submit` is.
- Payouts with a zero task hash, duplicate task hashes and reorganisations; the listener and pending checks of the backfill are a run that stops; deposits as floating-point numbers.
- Pages of the open board or of the submissions as HTTP answers that fail; an entry of the submissions list that has no submitter, and one of the judge's list without a task id, which is skipped.

Narrower than one might expect:

- OpenEscrow.SubmissionIsTheResultExactlyWithinTheMargin: until the task is forgotten; a task forgotten when done and then listed again is run again, and the escrow keeps the earlier submission.
- JudgePicks.NothingSignedWhileOneMayLand: for runs within its limits, because it fails past each of them (`JudgePicks.SafeExactlyWhen`).
- OpenJudge.VerifyOpenResults: downloads that run eight at a time are taken in list order; the order of the failed roots is used for nothing.
- SponsoredGas.NeverPaysOrReleasesWhileOut: needs the one status read after a failed request to answer, because it fails without it.
- Tournament.JudgeInRounds: batches of at least two; batches of one would never end. The code uses 6.
- AdaptiveScan.ScanPayouts: a first chunk of at least one block; with 0 the source's loop would not end.
- DeferredAccepts.QueueRefinesArrivals: a limit of at least one; the code uses 200.
- JsonScanner.ExtractsThePrintedObject: unfenced text, with the object's end within the first 200,000 characters.
