# A verified model of the Rubika client and its membership worker

This project models the stateful parts of a Rubika client library and of the worker that
delivers join, leave and view orders with a pool of accounts, and proves what they promise.
Every `.dfy` file is one component; `dafny verify dfyconfig.toml` checks all of them.

- **Order engine** (`Order*.dfy`). Rows of accounts, jobs, items, memberships, views, throttles
  and schedules, with a clock. `OrderSteps` gives each step as a function, `OrderEngine` performs
  the same steps on a class by assigning fields and looping over rows, `OrderInvariant`,
  `OrderKeeps` and `OrderAppends` prove that every step keeps one large invariant, `OrderRuns`
  lifts that to all interleavings from an empty store, `OrderOutcomes` follows job statuses and
  retention, `OrderTermination` bounds the work of view jobs, `OrderPacing` and `OrderGaps` say which
  actions of an account the action delay keeps apart, `OrderRetention` and `OrderMembership` when an
  account stays for its retention period; `OrderTables` and `OrderStaffing` give, row by row and
  without the step functions, what every step writes; `OrderPaths`, `OrderWitness`, `OrderExamples` and
  `OrderEarlyLeaves` build concrete runs.
- **Text formatting** (`Markdown`, `MarkdownDocs`, `MarkdownNesting`, `Html`, `HtmlKinds`,
  `Entities`). The two parsers as loops proved against recursive specifications, round trips with
  printers, exactly when nested markers go wrong, and what any tags, nested or crossing, give.
- **Network** (`UrlPool`, `HttpSend`, `Socket`, `SocketClient`, `SocketRuns`, `SocketWaits`,
  `Transfer`). The rotating pool, the retry ladder, the keep-alive and reconnect machine over all
  runs with the sequence of its waits, chunked transfers.
- **Files and sessions** (`Ogg`, `OggFiles`, `Base64`, `SessionCodec`, `SessionLaws`, `SessionStorage`).
- **Account health** (`AccountHealth`).

## How steps are cut

- A run of the order engine is a sequence of events. One event is one transaction or one answer:
  placing an order (selection and insertion together), a claim, the handling of one Rubika
  outcome, finalizing a job, recovering dead workers, the start and the end of an auto-leave, a
  change of an account, the clock. What Rubika answers, which account rows other transactions have
  locked, and how ties in the leave query fall are inputs.
- Only an item that is RUNNING is answered: `finish_item` writes whatever it is given, so that no
  two workers hold one item is an assumption about the environment. Finalizing a job is one event.
- The success count a worker read when it loaded its item may be older than the row; whether it
  saw a success is an input, and a success it saw is still there.
- A step of the socket is one resumption of a task between two awaits; sending is part of its step.

## Where the code and its documentation differ

The model follows the code.

- `docs/membership-worker.md:47-48` lets a job move from `active` to `completed` once its
  auto-leaves ran. A job whose last auto-leave fails, or that settles as ACTIVE after its leaves
  are over, stays ACTIVE for ever (`OrderOutcomes.StrandsExactlyWhen`; both ways happen:
  `OrderWitness.StrandedIsReachable`, `OrderExamples.StrandedBySettling`).
- A cancellation decides between PARTIAL and FAIL, never COMPLETED, so an order delivered in full
  can end PARTIAL (`OrderWitness.CancelShortchangesExactlyWhen`).
- `membership_worker/project/settings.py:114` calls the action delay the minimum gap between two
  actions of one account. It lies between two claims of join or leave items and between no other
  two actions: views and auto-leaves neither wait for it nor start it
  (`OrderGaps.GapKeptExactlyWhen`, `OrderGaps.AtTheSameTime`).
- `docs/membership-worker.md:190` says that `WORKER_JOB_MAX_WAIT_HOURS` is how long missing slots
  are refilled. It limits only how long a join waits while nobody is free; as long as somebody is,
  a join is refilled at any age (`OrderAppends.FinalizeDecides`, `OrderExamples.OldJoinIsRefilled`).
- `docs/membership-worker.md:47-48` schedules the auto-leave of a retained join for the end of its
  retention period, but the account may be out sooner. Two things end its membership early: a leave
  order, which picks any joined account, and the auto-leave of an older join of the same account
  and target, which never looks at the membership it ends
  (`OrderMembership.RetentionHoldsExactlyWhen`; both ways happen:
  `OrderEarlyLeaves.EndedByLeaveOrder`, `OrderEarlyLeaves.EndedByOlderSchedule`).
- An auto-leave whose worker dies stays PROCESSING: nothing recovers it, and its job cannot be
  completed (`OrderOutcomes.NotCompletedUntilItReturns`).
- Nested markdown keeps the length of outer entities, which then reach past the text
  (`MarkdownNesting.ParseOverrunsExactlyWhen`, `MarkdownNesting.OverrunExample`) or cover other
  characters than their own (`MarkdownNesting.CoversExactlyWhen`, `MarkdownNesting.CoversTooMuch`).
- The HTML pattern ignores case beyond ASCII and the tag table does not: such a tag raises
  (`Html.FailsExactlyWhen`, `Html.UnknownIsOdd`, `Html.FailsOnDotlessI`).
- A connect call that fails on an open transport leaves it open, without a connection and without
  a reconnect task (`SocketRuns.UnwatchedExactlyWhen`, `SocketRuns.UnwatchedIsReachable`).
- The reconnect delay is described as growing from 5 to 60 seconds; the first two waits are equal
  (`SocketWaits.NthWait`), and a retry delay above 60 seconds, or a negative one, makes the waits
  shrink (`SocketWaits.WaitsGrowExactlyWhen`).
- A granule position of -1 marks a page on which no packet ends (section 6 of RFC 3533). The walk
  reads it as an unsigned number and counts it as the last position
  (`OggFiles.RightExactlyWhen`, `OggFiles.MisreadsUnfinishedFile`).

## Model

| member | source | states |
|---|---|---|
| `OrderRuns.NeverOverDelivers` | membership_worker/worker/jobs.py:211-249 | in every state of every run, successes plus pending or running items of a job never exceed `total_count` |
| `OrderRuns.CountersAgree` | membership_worker/worker/jobs.py:312-323 | in every state of every run `success_count`, `failed_count` and `accepted_count` are the tallies of the item table, the tallies add up, and `skipped_count` is at least the shortfall plus the skipped items |
| `OrderRuns.RecountIsIdle` | membership_worker/worker/jobs.py:312-323 | at any moment of any run the recount changes nothing: the increments of `finish_item` never drift from the ledger |
| `OrderRuns.JoinsExclude` | membership_worker/worker/jobs.py:111-131 | over all jobs at most one join of an (account, target) pair is pending or running, and none while that account is a member |
| `OrderRuns.ViewsCoolDown` | membership_worker/worker/jobs.py:93-108 | two delivered views of one target by one account are at least the review cooldown apart, whatever jobs they belong to |
| `OrderRuns.DeliveryCountsAccounts` | membership_worker/worker/jobs.py:348-363 | the success count of a job is the number of different accounts behind its successes |
| `OrderRuns.AccountsReturnOnlyAfterRetryableSkips` | membership_worker/worker/jobs.py:387-393 | a job holds two items of one account only in a join, and only when the earlier one was skipped for a connection error or a throttle |
| `OrderRuns.LifecycleMovesForward` | membership_worker/worker/jobs.py:422-450 | between any two moments of a run a job keeps its order, all four counters only grow, a settled row is frozen, ACTIVE goes only to COMPLETED, and PENDING and ERROR never occur |
| `OrderRuns.StepKeeps` | membership_worker/worker/jobs.py:177-450 | every enabled event keeps the whole invariant (counters, capacity, exclusivity, cooldown, statuses, schedules) and moves rows forward only |
| `OrderOutcomes.StatusTable` | membership_worker/worker/jobs.py:422-450 | the status of every job after every event, as a table over the rows before it; the entry for finalizing reads the item counts, the free accounts and the age of the job |
| `OrderOutcomes.SettledStatusesAgree` | membership_worker/worker/jobs.py:436-450 | at every moment of every run a job that is not in progress has nothing in flight, and its status says whether all, some or nothing of the order was delivered |
| `OrderOutcomes.SchedulesAreSuccesses` | membership_worker/worker/jobs.py:297-309 | auto-leave schedules are in bijection with the successes of joins that have a retention period, each naming its item's account and target |
| `OrderOutcomes.CompletedFromActive` | membership_worker/worker/recovery.py:127-137 | a retained job becomes COMPLETED only from ACTIVE, by the good return of its last open schedule |
| `OrderOutcomes.CompletedViaActive` | membership_worker/worker/recovery.py:84-137 | over a run: a completed retained job was ACTIVE at some earlier moment and all its schedules are over |
| `OrderOutcomes.StrandsExactlyWhen` | membership_worker/worker/recovery.py:107-137 | a step leaves a job ACTIVE with nothing scheduled exactly when its last leave fails, or when a job in progress is finalized with nothing in flight, enough successes, no open schedule, nobody free for its open slots and no reason to wait |
| `OrderOutcomes.StrandedForEver` | membership_worker/worker/recovery.py:127-137 | no later state of the run completes such a job |
| `OrderOutcomes.NotCompletedUntilItReturns` | membership_worker/worker/recovery.py:84-90 | over a run: until an auto-leave that was taken up comes back, well or not, its job is not completed and an ACTIVE job stays ACTIVE |
| `OrderWitness.StrandedIsReachable` | membership_worker/worker/recovery.py:107-119 | a concrete run from the empty store that strands a job |
| `OrderExamples.StrandedBySettling` | membership_worker/worker/jobs.py:436-450 | a run from the empty store in which the only leave comes back while an item is still running, and settling then strands the job |
| `OrderWitness.CancelShortchangesExactlyWhen` | membership_worker/worker/items.py:145-151 | a cancellation decided on an outdated success count ends the job PARTIAL although it delivered what was asked exactly when the count had reached the request |
| `OrderWitness.ShortchangedIsReachable` | membership_worker/worker/jobs.py:326-345 | a run from the empty store that ends such an order PARTIAL |
| `OrderTermination.ViewItemsBounded` | membership_worker/worker/jobs.py:348-368 | a view job never holds more items than there are accounts |
| `OrderTermination.StepBudget` | membership_worker/worker/jobs.py:348-368 | every claim, answer and refill of a view job costs its budget at least one, and only new accounts or dead workers pay in |
| `OrderTermination.ViewWorkIsBounded` | membership_worker/worker/jobs.py:422-437 | from any moment of any run the claims, answers and refills of a view job are at most three per account, plus what new accounts and dead workers add |
| `OrderTermination.ViewFinalizeDecides` | membership_worker/worker/jobs.py:422-450 | with nothing in flight, finalizing a view job either hands out new accounts, at a cost, or leaves it settled |
| `OrderSteps.FirstOfSelects` | membership_worker/worker/jobs.py:111-143 | a selection takes matching accounts in strict id order, at most the limit, and all of them when it comes up short |
| `OrderSteps.RefusedExactlyWhen` | membership_worker/worker/jobs.py:225-231 | a new join or view order is refused for want of capacity exactly when no account is free at all, and as busy exactly when the free ones are all held by other transactions |
| `OrderPacing.ClaimsArePaced` | membership_worker/worker/items.py:37-43 | over a run the action delay passes between two claims of join or leave items of one account that go ahead, unless its throttle was rewritten in between |
| `OrderPacing.ThrottleStays` | membership_worker/worker/items.py:67-68 | only a claim, a refusal or lost connection, and a recovery of the account's own worker touch its throttle |
| `OrderGaps.ActsExactlyWhen` | membership_worker/worker/items.py:22-43 | an action of an account starts exactly with the claim of a claimable item, which must be a view while the account is held back, or with a due auto-leave, held back or not |
| `OrderGaps.GapKeptExactlyWhen` | membership_worker/worker/items.py:37-43 | over all runs the action delay lies between an action of one kind and a later one of another, with no rewriting of the throttle in between, exactly when both are claims of join or leave items, or there is no delay |
| `OrderGaps.AtTheSameTime` | membership_worker/worker/items.py:37-43 | a run for each other pair of kinds, views and auto-leaves included, in which the second follows the first at the same time |
| `OrderRetention.RetentionIsKept` | membership_worker/worker/recovery.py:84-90 | in every state of every run an auto-leave that was taken up lies the whole retention period after the success of its own item |
| `OrderRetention.AppearsWithSuccess` | membership_worker/worker/jobs.py:297-309 | a schedule appears only with the success of its item, a join, due the retention period later |
| `OrderMembership.EndsExactlyWhen` | membership_worker/worker/jobs.py:279-294 | a step ends a membership exactly when it is the good return of an auto-leave of that account and target, whichever join that belongs to, or the answer of a leave item that left or was out already |
| `OrderMembership.OthersAreOlder` | membership_worker/worker/jobs.py:111-131 | while an account stays a member, every other schedule for it and the target was there before the join |
| `OrderMembership.RetentionHoldsExactlyWhen` | membership_worker/worker/recovery.py:84-124 | over every run, up to any moment before the retention period of a join is over: the account has stayed since the join exactly when neither a leave order nor the auto-leave of an older join took it out in between |
| `OrderEarlyLeaves.EndedByLeaveOrder` | membership_worker/worker/items.py:122-138 | a run in which a leave order takes an account out whose retention period has not ended, up to the lost membership |
| `OrderEarlyLeaves.EndedByOlderSchedule` | membership_worker/worker/recovery.py:91-124 | a run in which the auto-leave of an earlier, already ended join takes the account out of a later one at least 29 days before that one is due |
| `OrderSteps.ApplyBonus` | membership_worker/worker/jobs.py:66-69 | the bonus is the percentage rounded up to a whole account, and nothing when it is not positive |
| `OrderSteps.FindJob` | membership_worker/worker/jobs.py:207-209 | the first job with an idempotency key |
| `OrderKeeps.RecountAgrees` | membership_worker/worker/jobs.py:312-323 | the recounted columns are the ones already stored, in any state where the counters agree |
| `OrderAppends.FinalizeCases` | membership_worker/worker/jobs.py:422-450 | finalizing recounts, refills, waits or settles, and nothing else |
| `OrderAppends.FinalizeDecides` | membership_worker/worker/jobs.py:422-450 | which case finalizing takes, read off the rows beforehand: a job settles exactly when nothing is in flight, it is not over, no account is free for an open slot, and it is no join young enough to wait for one |
| `OrderStaffing.FreeTakes` | membership_worker/worker/jobs.py:93-131 | who may be taken, over the rows: active, not busy with the same action on the same target in a job that is not over, for a join neither held back nor a member, for a view not within the cooldown |
| `OrderStaffing.FirstOfIsLowest` | membership_worker/worker/jobs.py:111-133 | a selection takes the lowest-numbered accounts of its pool, as many as asked for or all of them |
| `OrderStaffing.CreateTable` | membership_worker/worker/jobs.py:177-261 | what becomes of every order over the rows: refused, known, busy, out of capacity with the exact number of free accounts, or written as one row with the number ordered, the staffing with the bonus rounded up, retention, status and times, and one waiting item for each of the lowest-numbered accounts it may take |
| `OrderStaffing.OrderIsAnswered` | membership_worker/worker/jobs.py:211-261 | over every run a job keeps the order it was created for; COMPLETED and ACTIVE mean that at least the number ordered succeeded, PARTIAL that fewer did or that its target was found invalid, FAIL that none did |
| `OrderStaffing.RefillTable` | membership_worker/worker/jobs.py:348-419 | a refill fills as many slots as are neither filled nor about to be, or as many as there are spare accounts, with the lowest-numbered of those; it waits exactly for a young join with an account that may become spare, and otherwise gives up |
| `OrderStaffing.FinalizeTable` | membership_worker/worker/jobs.py:422-450 | what finalizing does to every job over the rows: nothing while items wait or run, a refill, a wait, nothing to a job that is over, or its ending with status and time |
| `OrderTables.AnswerTable` | membership_worker/worker/items.py:89-177 | for every action and every outcome, which columns change and to what: item status, message and time, the one counter, membership, view, schedule, throttle and account; a view that worked is a success, recorded now |
| `OrderTables.CancelTable` | membership_worker/worker/jobs.py:326-345 | a target that is wrong for everyone: exactly the items of the job that wait or run are skipped, and the job ends PARTIAL or FAIL now |
| `OrderTables.ClaimTable` | membership_worker/worker/items.py:22-49 | the three results of a claim over the rows: dropped unless it waits or its worker has been silent for five minutes, tried again in the whole seconds left when the account is held back, and otherwise running |
| `OrderTables.RecoverTable` | membership_worker/worker/recovery.py:17-32 | exactly the items running for more than a minute wait again, and exactly their accounts are no longer held back |
| `OrderTables.TakeUpTable` | membership_worker/worker/recovery.py:84-90 | only a pending schedule that is due is taken up |
| `OrderTables.ReturnTable` | membership_worker/worker/recovery.py:91-137 | what a good and a failed leave write to schedule, membership and job |
| `OrderTables.RecountTable` | membership_worker/worker/jobs.py:312-323 | a recount writes what the items say, in any store |
| `OrderTables.OutsideTable` | membership_worker/worker/items.py:71-74 | a change of an account, a new account and the passing of time touch nothing else |
| `OrderExamples.OldJoinIsRefilled` | membership_worker/worker/jobs.py:387-419 | a run in which a join is refilled although it is older than the time it may wait for accounts |
| `OrderEngine.Engine.CreateMembershipJob` | membership_worker/worker/jobs.py:177-261 | performs the creation step on the tables: idempotency, selection, pool-busy and capacity errors, the job row and its items |
| `OrderEngine.Engine.ClaimItemAndReserveThrottle` | membership_worker/worker/items.py:22-49 | performs the claim step, including the stale reset and the throttle reservation |
| `OrderEngine.Engine.FinishItem` | membership_worker/worker/items.py:52-64 | writes the outcome and bumps the one counter |
| `OrderEngine.Engine.ProcessAnswer` | membership_worker/worker/items.py:89-177 | performs the step of every Rubika outcome: success, already done, bad target, dead session, throttle, connection error, other failure |
| `OrderEngine.Engine.RunActionSucceeded` | membership_worker/worker/items.py:89-138 | records a success with its membership, view or schedule |
| `OrderEngine.Engine.MarkMembership` | membership_worker/worker/jobs.py:279-294 | the membership row after a join or a leave |
| `OrderEngine.Engine.CreateAutoLeaveIfNeeded` | membership_worker/worker/jobs.py:297-309 | creates at most one schedule for an item, due after the retention period |
| `OrderEngine.Engine.TallyItems` | membership_worker/worker/jobs.py:312-316 | one pass over the items yields the three tallies |
| `OrderEngine.Engine.RefreshCounts` | membership_worker/worker/jobs.py:312-323 | performs the recount step |
| `OrderEngine.Engine.SkipReserved` | membership_worker/worker/jobs.py:333-335 | skips exactly the pending and running items of the cancelled job |
| `OrderEngine.Engine.CancelJobInvalidTarget` | membership_worker/worker/jobs.py:326-345 | performs the cancellation step |
| `OrderEngine.Engine.EnqueueReplacementItemsIfNeeded` | membership_worker/worker/jobs.py:348-419 | performs the refill step, with its deferral |
| `OrderEngine.Engine.FinalizeJobIfDone` | membership_worker/worker/jobs.py:422-450 | performs the finalize step and says which case it took |
| `OrderEngine.Engine.RecoverStaleRunningItems` | membership_worker/worker/recovery.py:17-32 | performs the recovery step and counts the items it reset |
| `OrderEngine.Engine.ResetStaleItems` | membership_worker/worker/recovery.py:21-27 | resets exactly the running items older than the cutoff and collects their accounts |
| `OrderEngine.Engine.StartAutoLeave` | membership_worker/worker/recovery.py:84-90 | takes up a due pending schedule and no other |
| `OrderEngine.Engine.FinishAutoLeave` | membership_worker/worker/recovery.py:91-124 | records the outcome of a leave and completes the job when it was the last |
| `OrderEngine.Engine.CompleteActiveJobIfAutoLeavesDone` | membership_worker/worker/recovery.py:127-137 | completes an ACTIVE job without open schedules and touches no other |
| `OrderEngine.Engine.Perform` | membership_worker/worker/jobs.py:177-450 | any enabled event takes the tables exactly where the run semantics says and keeps the invariant |
| `Markdown.NextMatchIsLeftmostShortest` | rubigram/raw/functions/messages.py:12-16 | the search finds what the patterns match: the leftmost opening marker, then the shortest non-empty inside, and nothing only when nothing matches |
| `Markdown.Scan` | rubigram/raw/functions/messages.py:40-54 | the loop of one pass yields the stripped text and the new entities |
| `Markdown.ParseMarkdown` | rubigram/raw/functions/messages.py:35-67 | the three passes, the re-shifting and the sort |
| `Markdown.ChopJoins` | rubigram/raw/functions/messages.py:45-54 | cutting a text at its matches loses nothing and leaves no inside empty |
| `Markdown.SpansAreInside` | rubigram/raw/functions/messages.py:45-54 | the new entities of a pass are non-empty, in order, disjoint and inside the stripped text |
| `Markdown.PassIsReversible` | rubigram/raw/functions/messages.py:45-54 | for every text a pass is reversible: the stripped text and its entities give the text back |
| `MarkdownDocs.FlatRoundTrip` | rubigram/raw/functions/messages.py:35-67 | for every flat document parsing undoes printing: the texts in order and exactly one entity on each marked segment |
| `MarkdownDocs.RemovedIsTheMove` | rubigram/raw/functions/messages.py:55-58 | the marker characters counted before a segment are exactly how far it moves in that pass |
| `MarkdownDocs.ReshiftFollows` | rubigram/raw/functions/messages.py:55-58 | the entities of earlier passes follow their segments through a later pass |
| `MarkdownNesting.PassOverrunsExactlyWhen` | rubigram/raw/functions/messages.py:55-58 | for every text, marker and entity: the entity reaches past the text after the pass exactly when the marker characters of the matches that end behind its start outnumber the characters behind its end |
| `MarkdownNesting.CoversExactlyWhen` | rubigram/raw/functions/messages.py:55-58 | for every text, marker and entity: after the pass the entity covers exactly what is left of its own characters exactly when no match of the pass shares a character with it |
| `MarkdownNesting.LeftFollows` | rubigram/raw/functions/messages.py:52-54 | the count of characters a pass leaves follows the text: each character is dropped or is the next one of what is left |
| `MarkdownNesting.ParsedEntities` | rubigram/raw/functions/messages.py:35-67 | for every text the entities of a parse are those its three passes find, moved by the later passes, and no others |
| `MarkdownNesting.ParseOverrunsExactlyWhen` | rubigram/raw/functions/messages.py:35-67 | for every text all entities lie inside the plain text exactly when no bold and no italic entity has more markers of the later passes behind its start than characters behind its end |
| `MarkdownDocs.BoldOverrunsExactlyWhen` | rubigram/raw/functions/messages.py:55-58 | the same for a text that is one bold span: its entity reaches past the plain text exactly when the bold text holds another kind of marker |
| `MarkdownNesting.CoversTooMuch` | rubigram/raw/functions/messages.py:55-58 | a family of texts, one mono span inside a longer bold one, in which the bold entity lies inside the text and covers characters that are not its own |
| `MarkdownNesting.OverrunExample` | rubigram/raw/functions/messages.py:55-58 | a text whose bold entity has length four and whose plain text is shorter |
| `Entities.SortIsSorted` | rubigram/raw/functions/messages.py:61 | the sort orders by offset |
| `Entities.SortPermutes` | rubigram/raw/functions/messages.py:61 | the sort keeps every entity |
| `Entities.SortIsStable` | rubigram/raw/functions/messages.py:61 | entities that start together keep their order |
| `Entities.SortRecovers` | rubigram/raw/functions/messages.py:61 | entities at different offsets come out in offset order however they were found |
| `Html.ParseHtml` | rubigram/raw/functions/messages.py:70-96 | the loop over the tags with its stack of open ones |
| `Html.Search` | rubigram/raw/functions/messages.py:86-91 | the search from the end of the stack finds the innermost open tag of the kind |
| `Html.AnyTextIsSound` | rubigram/raw/functions/messages.py:70-96 | for every text that parses the entities are sorted, non-empty and inside the plain text, and two of one kind never cross |
| `HtmlKinds.KindsDoNotInterfere` | rubigram/raw/functions/messages.py:70-96 | for every text that parses, well nested or not, the plain text is what stands between the tags, and the entities of each kind are those of its own tags alone, matched like brackets |
| `Html.FailsExactlyWhen` | rubigram/raw/functions/messages.py:77-82 | parsing fails exactly when some tag matches the pattern but not the table |
| `Html.FailsOnDotlessI` | rubigram/raw/functions/messages.py:77-82 | such a text: a bold span followed by a tag spelled with a dotless i |
| `Html.UnknownIsOdd` | rubigram/raw/functions/messages.py:17-25 | such a tag is one spelled with dotted capital I, dotless i or long s, which match when case is ignored |
| `Html.LetterTable` | rubigram/raw/functions/messages.py:25 | which characters stand for a letter when case is ignored |
| `Html.NamesAreLookedUp` | rubigram/raw/functions/messages.py:17-24 | which names, in capitals or not, are looked up as which kind |
| `Html.TreeRoundTrip` | rubigram/raw/functions/messages.py:70-96 | printing any tree of bold, italic and mono elements over escaped text, in any spelling of their tags, and parsing it gives back the text and one entity, of the kind of its element, for each element that holds text |
| `Html.RunsForest` | rubigram/raw/functions/messages.py:77-92 | a printed tree leaves the stack of open tags as it found it, adds its own text and entities and nothing else |
| `Html.BasicUndoes` | rubigram/raw/functions/messages.py:78 | decoding the three basic references undoes escaping, so the assumption on `html.unescape` can be met |
| `Ogg.ReadPackets` | rubigram/utils/media.py:35-45 | the loop over one page's segments sees exactly those packets that end on the page |
| `Ogg.ParseOggOpusDurationMs` | rubigram/utils/media.py:9-49 | the walk over the bytes, for any bytes: it terminates, reads in bounds and yields the specified duration |
| `OggFiles.SplitPage` | rubigram/utils/media.py:35-45 | the lacing values of a page give back exactly its packets; an unfinished packet is not seen |
| `OggFiles.PageIsRead` | rubigram/utils/media.py:23-35 | a written page is read back with its granule position, table and payload, and ends where it should |
| `OggFiles.CutPageIsNotRead` | rubigram/utils/media.py:23-31 | a page cut short anywhere is not read |
| `OggFiles.WalkFile` | rubigram/utils/media.py:16-46 | the walk visits exactly the pages of a file, whatever clean bytes lie between them, and stops at a cut last page |
| `OggFiles.ParsesPages` | rubigram/utils/media.py:9-49 | the duration of a file is max(0, last non-zero granule position - pre-skip of the first identification header) / 48 ms |
| `OggFiles.RightExactlyWhen` | rubigram/utils/media.py:33-49 | for every writable file the duration is the one by the format, which skips the position -1, exactly when there is no identification header or the last non-zero position is not -1 |
| `OggFiles.MisreadsUnfinishedFile` | rubigram/utils/media.py:16-49 | a file of one second whose last page carries the position -1, and the duration the walk makes of it |
| `Base64.A2b` | rubigram/storage/session_codec.py:28-33 | the loop of the lenient decoder |
| `Base64.RoundTrip` | rubigram/storage/session_codec.py:24-33 | decoding undoes encoding for all bytes, with the padding stripped and restored |
| `Base64.PaddedIs` | rubigram/storage/session_codec.py:24-29 | the length of the stripped text tells how many pads were stripped |
| `Base64.BareIsPlain` | rubigram/storage/session_codec.py:24-25 | the stripped text uses letters, digits, `-` and `_` only |
| `Base64.RefusedExactlyWhen` | rubigram/storage/session_codec.py:28-33 | any text is refused exactly when it is not ASCII or, with the pads its length asks for, its characters of the alphabet do not make whole quads and no pad completes the last one |
| `Base64.PlainRefusedExactlyWhen` | rubigram/storage/session_codec.py:28-33 | so a text of the alphabet alone is refused exactly when its length is one more than a multiple of four |
| `Base64.KnownTexts` | rubigram/storage/session_codec.py:24-25 | vectors of RFC 4648 and one with both URL-safe characters |
| `Base64.AlphabetTable` | rubigram/storage/session_codec.py:28-33 | which characters count, in either alphabet |
| `Base64.OthersAreSkipped` | rubigram/storage/session_codec.py:28-33 | characters outside the alphabet change nothing, wherever they stand |
| `SessionCodec.LoadUndoesDump` | rubigram/storage/session_codec.py:36-70 | loading a dumped string, with any white space around it, gives back the dictionary |
| `SessionCodec.LoadsLegacy` | rubigram/storage/session_codec.py:61-70 | the unprefixed old format is read, and none of its texts starts like the new |
| `SessionCodec.ChecksumIsChecked` | rubigram/storage/session_codec.py:52-60 | a version 2 payload is accepted exactly when its checksum is that of the decompressed bytes |
| `SessionCodec.VersionTwoTable` | rubigram/storage/session_codec.py:49-70 | why a version 2 string is refused, in the order of the checks, and what is read otherwise |
| `SessionCodec.OtherTable` | rubigram/storage/session_codec.py:46-70 | blank strings and strings of the old format: why they are refused and what is read |
| `SessionLaws.LawsCanBeMet` | rubigram/storage/session_codec.py:36-70 | one library meets all laws that the round trips assume, so they do not contradict each other |
| `SessionStorage.ImportWrites` | rubigram/storage/base.py:286-292 | an import writes, in table order, every given field before the first that does not convert, and leaves every other field alone |
| `SessionStorage.ImportFailsExactlyWhen` | rubigram/storage/base.py:64-74 | an import fails exactly when some given integer field holds a value that is no integer |
| `SessionStorage.KeptTable` | rubigram/storage/base.py:64-93 | what every field reads as after it was given a value, by field and value alone |
| `SessionStorage.ReadValuesAreKept` | rubigram/storage/base.py:64-93 | writing back what a field reads as keeps it, for every kind of field and every stored value |
| `SessionStorage.ExportRestores` | rubigram/storage/base.py:282-292 | importing an export into any storage restores every declared field |
| `SessionStorage.SessionStringRestores` | rubigram/storage/base.py:294-298 | the same over the session string |
| `SessionStorage.FreshReadsDefaults` | rubigram/storage/memory.py:16-21 | a new storage reads as the table's defaults |
| `SessionStorage.MemoryStorage.constructor` | rubigram/storage/memory.py:16-21 | a new storage is closed and holds the encoded defaults |
| `SessionStorage.MemoryStorage.Open` | rubigram/storage/memory.py:27-31 | opening imports the given string the first time only, even when that import fails |
| `SessionStorage.MemoryStorage.ReadField` | rubigram/storage/memory.py:33-36 | reading needs an open storage and decodes the stored value |
| `SessionStorage.MemoryStorage.WriteField` | rubigram/storage/memory.py:38-43 | writing needs an open storage and stores the encoded value, or nothing at all |
| `SessionStorage.MemoryStorage.ImportSessionDict` | rubigram/storage/base.py:286-292 | performs the import loop, partial writes before an error included |
| `SessionStorage.MemoryStorage.ExportSessionString` | rubigram/storage/base.py:282-295 | dumps every field |
| `SessionStorage.MemoryStorage.ImportSessionString` | rubigram/storage/base.py:297-298 | loads, then imports; a corrupt string changes nothing |
| `SessionStorage.MemoryStorage.Close` | rubigram/storage/memory.py:45-46 | the values survive closing |
| `SessionStorage.MemoryStorage.Delete` | rubigram/storage/memory.py:48-49 | the defaults are back |
| `SessionStorage.Copy` | rubigram/storage/base.py:294-298 | exporting one storage object and importing into another makes every field of the second read as in the first |
| `SocketClient.SocketTransport.ScheduleReconnect` | rubigram/network/ws.py:292-298 | marks a drop when closed or not reconnecting, and otherwise creates a reconnect task unless one is running |
| `SocketClient.SocketTransport.DropSocket` | rubigram/network/ws.py:361-374 | forgets the socket and cancels both loops |
| `SocketClient.SocketTransport.TeardownAll` | rubigram/network/ws.py:376-384 | cancels the reconnect task as well |
| `SocketClient.SocketTransport.ConnectOnce` | rubigram/network/ws.py:222-226 | a good handshake resets the timers |
| `SocketClient.SocketTransport.StartTasks` | rubigram/network/ws.py:237-239 | starts one reader and one keep-alive loop |
| `SocketClient.SocketTransport.OnFrame` | rubigram/network/ws.py:241-250 | every frame, pongs included, resets the timers |
| `SocketClient.SocketTransport.OnReaderError` | rubigram/network/ws.py:262-265 | a reader that fails ends and asks for a reconnect |
| `SocketClient.SocketTransport.KeepaliveTurn` | rubigram/network/ws.py:267-290 | one turn of the keep-alive loop: sleep, ping, give up for silence, or fail |
| `SocketClient.SocketTransport.SleepBeforeAttempt` | rubigram/network/ws.py:309-318 | counts the attempt and sleeps for its delay, unless closed |
| `SocketClient.SocketTransport.ReconnectResumes` | rubigram/network/ws.py:305-332 | one resumption of a reconnect task |
| `SocketClient.SocketTransport.ConnectCall` | rubigram/network/ws.py:155-175 | reuse, or tear down and connect |
| `SocketClient.SocketTransport.CloseCall` | rubigram/network/ws.py:386-391 | closing stops every task |
| `SocketClient.SocketTransport.constructor` | rubigram/network/ws.py:62-91 | a new transport is closed, has no socket and no task, and is valid |
| `SocketClient.SocketTransport.Perform` | rubigram/network/ws.py:237-391 | any enabled event takes the fields exactly where the run semantics says and keeps the invariant |
| `SocketRuns.StepHolds` | rubigram/network/ws.py:237-391 | every step keeps the invariant: each running task is the one referred to, the loops run only with a socket, a reconnect sleeps only without one, a closed transport runs nothing |
| `SocketRuns.KeeperTable` | rubigram/network/ws.py:267-290 | when exactly a wake ends the keep-alive loop, what follows, and that it otherwise at most sends a due ping |
| `SocketRuns.ReaderTable` | rubigram/network/ws.py:262-265 | what a failing reader leaves behind |
| `SocketRuns.CallTable` | rubigram/network/ws.py:155-175 | the whole state after a connect and after a close call |
| `SocketRuns.AttemptTable` | rubigram/network/ws.py:305-332 | the whole state after each resumption of a reconnect task |
| `SocketRuns.OneOfEach` | rubigram/network/ws.py:292-298 | in every state of every run there is at most one reader, one keep-alive loop and one reconnect task |
| `SocketRuns.PingsAreAnswered` | rubigram/network/ws.py:267-284 | between any two pings of a run something was heard, so at most one ping is unanswered |
| `SocketRuns.PingsWait` | rubigram/network/ws.py:280-284 | a ping follows something heard, and never sooner than the heartbeat interval after anything heard |
| `SocketRuns.SilenceIsReal` | rubigram/network/ws.py:267-290 | the keep-alive loop gives an open connection up only when a ping went out at least the silence timeout before and nothing was heard since, or when a ping was due and could not be sent |
| `SocketRuns.SilenceIsNoticed` | rubigram/network/ws.py:271-277 | when a ping has been unanswered for the silence timeout the next wake gives up and a reconnect task is running |
| `SocketRuns.ClosedIsQuiet` | rubigram/network/ws.py:386-391 | a closed transport sends nothing and attempts nothing by itself |
| `SocketRuns.UnwatchedExactlyWhen` | rubigram/network/ws.py:165-175 | with automatic reconnection a step leaves an open transport neither connected nor reconnecting exactly when it is a connect call that fails |
| `SocketRuns.UnwatchedIsReachable` | rubigram/network/ws.py:155-175 | a run of two connect calls, the second of which fails, ends open, without a socket and without a reconnect task |
| `SocketWaits.WaitsItOut` | rubigram/network/ws.py:309-322 | between one turn of a reconnect task and its next the whole wait of that attempt passes |
| `SocketWaits.FailuresAreTurns` | rubigram/network/ws.py:309-310 | over a run, while a reconnect task is running the failure count is the number of turns that task has had, whatever happened before |
| `SocketWaits.NthWait` | rubigram/network/ws.py:309-318 | over a run, the n-th turn of a reconnect task, unless it is its last, sets the n-th of the waits r, min(r, 60), min(2r, 60), min(4r, 60) and so on |
| `SocketWaits.NthWaitPasses` | rubigram/network/ws.py:309-322 | over a run, the next turn of a reconnect task comes no sooner than the wait that belongs to the number of turns it has had |
| `SocketWaits.WaitsGrowExactlyWhen` | rubigram/network/ws.py:309-322 | in every run every wait is at least as long as the one before exactly when the retry delay lies between zero and a minute, and at most a minute exactly when the retry delay is (or nothing reconnects at all) |
| `UrlPool.DedupKeepsEachOnce` | rubigram/network/pool.py:20-26 | exactly the non-empty URLs, each once |
| `UrlPool.RoundIsPermutation` | rubigram/network/pool.py:61-66 | one round of rotations visits every URL exactly once |
| `UrlPool.Pool.constructor` | rubigram/network/pool.py:20-26 | the pool starts at the first of the distinct URLs |
| `UrlPool.Pool.SetCurrent` | rubigram/network/pool.py:47-52 | moves to a known URL and ignores others |
| `UrlPool.Pool.ForceRotate` | rubigram/network/pool.py:61-66 | moves to the next URL, wrapping |
| `UrlPool.Pool.Rotate` | rubigram/network/pool.py:54-59 | moves only outside the lock window |
| `UrlPool.Pool.Replace` | rubigram/network/pool.py:72-86 | the list is the new distinct URLs, the current URL stays current when it survives, and a strict empty list changes nothing |
| `UrlPool.MovesAreSpaced` | rubigram/network/pool.py:54-59 | however dense the rotation requests, the moves are a lock window apart |
| `UrlPool.BurstMovesOnce` | rubigram/network/pool.py:54-59 | a burst within one window moves the pool at most once |
| `UrlPool.RotateEach` | rubigram/network/pool.py:54-59 | rotation requests on a pool, one after another: it moves at exactly the accepted ones, one URL on at each |
| `UrlPool.ConnectAny` | rubigram/network/ws.py:183-201 | the URLs are tried in pool order; a full failure tries each once and leaves the pool where it was |
| `HttpSend.LadderClosed` | rubigram/network/http.py:129-146 | in closed form: one round over the list from its current URL, then one refresh with the pool back at that URL, then rounds over the new list |
| `HttpSend.FirstRound` | rubigram/network/http.py:129-146 | the first attempts go to each URL once, in list order |
| `HttpSend.RefreshOnce` | rubigram/network/http.py:133-146 | the refresh happens at most once, exactly when as many attempts failed as the pool had URLs |
| `HttpSend.RefreshKeepsSurvivor` | rubigram/network/http.py:137-144 | the URL current when the call began stays current over a refresh that keeps it |
| `HttpSend.OnRetry` | rubigram/network/http.py:133-146 | the step between two attempts |
| `HttpSend.SendOverPool` | rubigram/network/http.py:117-156 | a call makes at most retries + 1 attempts on the ladder's URLs with the policy's waits, stops at an answer or a failure that is not retryable, and refreshes at most once |
| `HttpSend.SendTo` | rubigram/network/retry.py:68-102 | a call to a fixed URL keeps to the same ladder and never touches the pool |
| `HttpSend.PolicyTable` | rubigram/network/retry.py:38-52 | how often any policy retries and how long it waits |
| `HttpSend.WebLadder` | rubigram/network/retry.py:38-52 | the web ladder retries five times, after 0, 2, 3, 5 and 10 seconds, and an override can only lower that |
| `Transfer.UploadFile` | rubigram/network/upload.py:100-131 | parts are numbered from 1 to max(1, ceil(size / chunk)), all but the last are full, together they are the data, and the hash is that of the last answer that had one, or the initial one when none had; it fails exactly at the first part that fails for good, after the parts before it |
| `Transfer.PartCountIsLeast` | rubigram/network/upload.py:110 | the number of parts is the least that covers the data |
| `Transfer.DownloadFile` | rubigram/network/download.py:100-149 | from an honest server the result is the file, or as much of it as a given size asks for; it fails only when a request does; the ranges are consecutive |
| `Transfer.RequestsAreFew` | rubigram/network/download.py:113-143 | at most one request more than there are full chunks |
| `Transfer.UploadThenDownload` | rubigram/network/download.py:100-149 | what was uploaded comes back, for any two chunk sizes, with the size given, learnt or never known; and it does come back unless a request fails |
| `AccountHealth.FailuresAreTheRefusedSuffix` | membership_worker/worker/health.py:162-171 | the failure counter is the length of the run of refusals at the end of the probe history |
| `AccountHealth.AvailabilityIsTheLastNews` | membership_worker/worker/health.py:152-166 | availability is the verdict of the last probe that was not transient |
| `AccountHealth.DeadExactlyWhen` | membership_worker/worker/health.py:152-159 | DEAD means exactly that this probe and the one right before it were refusals |
| `AccountHealth.TransientIsNoNews` | membership_worker/worker/health.py:157-159 | a transient probe changes neither the verdict nor the account row |
| `AccountHealth.DisabledExactlyWhen` | membership_worker/worker/health.py:183-187 | after a probe an account row is disabled exactly when the probe and the one before were refused and the account was active when it was loaded, or when the row is disabled already and the probe does not bring it back |
| `AccountHealth.AccountTable` | membership_worker/worker/health.py:173-187 | the whole account row after each kind of probe: brought back with its capacity refusal cleared, disabled at the second refusal in a row, or left alone |
| `AccountHealth.FourBucketsCover` | membership_worker/worker/health.py:263-283 | the four buckets add up to the number of accounts |
| `AccountHealth.Monitor.Record` | membership_worker/worker/health.py:162-187 | the stored row is the replay of the account's whole probe history, and the account row follows |
| `AccountHealth.Monitor.AvailabilitySnapshot` | membership_worker/worker/health.py:263-283 | the four counts of the dashboard are those buckets and sum to the total |

## Left out

- Django, Celery and the database: transaction anomalies, two finalizers of one job at a time, a
  zombie worker that finishes an item after a cancellation, and lost or repeated task messages.
- Parsing and validating an order's fields, view service ids, target normalisation, callbacks and
  payload building; message texts are reduced to the prefix the code looks at.
- Deletion of accounts and the cascades it causes; `locked_at`; display columns such as titles,
  object ids and member counts; the credential refresh.
- Which stuck jobs and lost pending items the periodic recovery picks: finalizing and claiming may
  happen at any time, which covers every choice.
- Floating point: the bonus, delays and durations are exact reals. Rounding the Ogg duration to
  three digits, `math.ceil` of a float quotient above 2^53, and the overflow of
  `2 ** (failures - 2)` against a float delay after about a thousand failed reconnects are not shown.
- MarkdownDocs.FlatRoundTrip: flat documents only, because the code shifts an entity only by
  matches that end before it; for nested markers there is no round trip to prove, and the exact
  condition under which entities stay inside the text is `MarkdownNesting.ParseOverrunsExactlyWhen`.
- Html.TreeRoundTrip: `html.unescape` is a parameter assumed to undo the escaping of `&`, `<` and
  `>`; the other named and numeric references are not modelled.
- OggFiles.ParsesPages: packets that continue over pages are read as the code reads them, page by
  page, and page checksums, serial numbers and flags are carried but not interpreted.
- OrderEngine.Engine.CreateMembershipJob: the order's fields are taken as already parsed, and the
  retry after losing the race for an idempotency key to another transaction is not modelled.
- Ogg.ParseOggOpusDurationMs: the rounding of the result to three digits.
- SessionCodec.LoadUndoesDump: zlib, CRC-32, JSON and UTF-8 are functions assumed to be inverse in
  pairs; texts with lone surrogates and numbers that are not equal to themselves are outside that.
- SessionStorage.MemoryStorage.Open: only the in-memory storage; the SQLite file storage and its
  migrations are not part of this model. The typed accessors, `set_chat_state` and `clear_auth`
  would only add easy members.
- SocketClient.SocketTransport.ConnectCall: the whole of a connect call, and of a close call, is one
  step; a frame callback that itself closes or reconnects the transport, the frame queue and the
  URL normalisation are left out.
- HttpSend.SendOverPool: one sender at a time; two calls that share a pool are not interleaved, and
  the slash appended to a URL, headers, envelopes and error mapping are not modelled.
- Transfer.DownloadFile: a server that answers a range with other bytes than asked for, writing to
  disk and progress callbacks; `download_url` is left out.
- AccountHealth.Monitor.Record: the text search behind `is_capacity_error` is an input flag, as is
  the probe itself; the order in which accounts are scanned is left out.
- The cipher and key handling, the login flow, the typed models, the Bot API, filters, phone
  normalisation and error tables are plumbing or easy members.
