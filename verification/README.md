# PR Flagger: a model of its protocols and kernels

PR Flagger verifies pull requests continuously: it queues a run per pull request, works
through a pipeline of stages, streams events to the browser, asks a model under a budget and
ranks what it finds. This project models the parts of it whose correctness is not visible
in any one function, and proves what they keep over every input, every interleaving or
every run.

| file | models |
|---|---|
| `SpendProtocol.dfy`, `SpendHolds.dfy`, `SpendReads.dfy` | the budget ledger's protocol: reserve, call, record, release by many threads under three nested caps; how a hold ends; what its reads add up |
| `Ledger.dfy`, `PriceResults.dfy`, `BilledRuns.dfy` | prices and worst cases, the ledger and the client as objects; runs of calls that are priced by them |
| `Linkage.dfy`, `ClusterResults.dfy`, `MinedClusters.dfy`, `NormClusters.dfy` | average-linkage clustering: what it means, why groups are merged, the fast in-place form, the naive form, and when they agree |
| `EventStream.dfy`, `EventLog.dfy`, `EventSteps.dfy`, `EventResults.dfy`, `EventViews.dfy`, `EventSocket.dfy` | the event log, replayed in chunks and then live over a bounded queue, with reconnects; bus, server socket and page as objects |
| `Lanes.dfy`, `LaneQueue.dfy` | the scheduler's round-robin queue, as a value and as the object it is |
| `Engine.dfy`, `EngineResults.dfy`, `EngineHazards.dfy`, `EngineWaiting.dfy`, `EngineSubmissions.dfy`, `EngineStates.dfy`, `SchedulerService.dfy` | runs from submission to a terminal state: store rows, pending entries, debounce, workers, cancellation, boot recovery; as a state machine and as the object it is |
| `Symbols.dfy`, `Definitions.dfy`, `CallGraph.dfy`, `CallOwners.dfy`, `Resolution.dfy` | the two syntax-tree traversals, the call graph built from them, what a call means and which function it is charged to |
| `Hunks.dfy`, `Blast.dfy`, `BlastResults.dfy` | changed line ranges, the two bounded searches of the caller relation, and the blast radius over the call graph |
| `Treemap.dfy`, `TreemapResults.dfy` | the squarified layout |
| `Adjudication.dfy`, `AnswerResults.dfy`, `Ranking.dfy`, `Reranking.dfy` | what is kept of a model's answers, and their only influence on the ranking |
| `Text.dfy`, `Ids.dfy` | string order and sortable base-32 identifiers |
| `Options.dfy`, `Products.dfy`, `Sorting.dfy` | optional values, products of reals, stable sorting |
| `Poetry.dfy` | Poetry constraints as PEP 440 specifiers |

`dafny verify dfyconfig.toml` checks the whole project.

Concurrency is modelled by atomic steps, cut where the code can be interrupted: between the
scope reads of `reserve`, between inserting a spend row and releasing its hold, at every
await of the socket coroutine, between inserting an event, fanning it out and offering it, at the debounce
sleep, and between the stages of a worker. Where the code works on an object or an array in
place, a class or a method with loops does the same and is proved equal to the function the
lemmas are about.

Times are integers, prices, similarities, areas and scores are exact reals. Rounding of money
and of scores is any monotone function (money: one that keeps zero; confidences: rounding to
the nearest step of 0.0001).

## Where the code and its own words differ

The model follows the code; each difference is a theorem.

- `mine.py:151-152` says both clusterings give the same result. They do for thresholds above -1;
  `NormClusters.FormsAgreeExactlyWhen` gives the exact condition below, and
  `NormClusters.OppositeCommentsDisagree` two comments that fail it.
- `ws.py:99-100` says a reconnect refills the gap, and `events.py:12-13` that no event can be missed.
  Not after a blind overflow (the skip at `ws.py:93-94` bypasses the drop check), nor after a row
  is queued ahead of an older one (emitters on and off the loop bring this about).
  `EventResults.AppliedIsAPrefix` holds without these two hazards, `EventResults.HazardsExactly`
  says that they are exactly what loses rows, and both are reached from the empty log in
  `EventResults.OverflowsCanLoseRows` and `EventResults.EmittersCanLoseRows`.
- `scheduler.py:181-185` says a queued run is pointed at the newest head.
  `EngineResults.NewestHeadIsNeverLost` holds without two hazards, `EngineHazards.HazardsExactly`
  says that they are exactly what loses a head, and `EngineHazards.HazardsAreReached` reaches both
  from an empty service.
- `scheduler.py:126-127` says a repository goes to the back of the rotation whether or not it has
  more waiting. A drained one leaves it: `Lanes.FairBetweenTurns`.
- `recovery.py:7` says runs left in flight go back on the queue. Only while they fit:
  `EngineResults.RestartHousesExactlyWhen`, and `EngineHazards.RestartCanForget` for a case.
- `callgraph.py:147-148` says calls belong to the innermost function. A definition below a compound
  statement is charged to the function around it as well: `CallOwners.InnermostAloneExactlyWhen`
  and `CallOwners.EdgesAreInnermostExactlyWhen` say exactly when that makes no difference.
- `ids.py:31-32` says sorting ids sorts by creation time. It does modulo 2^50 milliseconds:
  `Ids.RunIdsWrap`.

## Model

| member | source | states |
|---|---|---|
| `SpendProtocol.EveryInterleavingKeepsTheCaps` | prflagger/llm/ledger.py:138-196 | For every interleaving of any number of reserve, scope-read, provider-answer, record-insert, release, cache-hit and clock steps in which a call costs at most its reservation: recorded spend plus reserved-but-unrecorded holds stays within the total cap, every run's cap and every repository's cap for every UTC day, and so does recorded spend alone. |
| `SpendProtocol.StepKeepsInv` | prflagger/llm/ledger.py:141-168 | Each single step keeps the invariant behind it: exposures within caps, and every scope total already read inside a `reserve` still bounds the exposure it was read for, although records and midnight may land in between. |
| `SpendProtocol.NothingElseRaisesExposure` | prflagger/llm/ledger.py:166-196 | No step but an admission raises any exposure: a record replaces a hold by at most its amount, a release, a failure, a free cache row and the passing of time only lower it. |
| `SpendProtocol.AdmissionRaisesBy` | prflagger/llm/ledger.py:161-164 | An admission raises an exposure by exactly the reserved amount, in exactly the scopes where the call's row may still land, today or on any later day. |
| `SpendProtocol.DailyReadBounds` | prflagger/llm/ledger.py:147-152 | The daily figure `reserve` reads bounds the exposure of that day and of every later one, so a `reserve` or a record that straddles midnight is covered. |
| `SpendProtocol.DecideKeepsInv` | prflagger/llm/ledger.py:158-164 | The decision, made from totals that may be stale, admits a call only where every affected exposure still fits its cap. |
| `SpendProtocol.SpentPlusHeldExceedsBy` | prflagger/llm/ledger.py:138-196 | In every state that calls can bring about, `spent + held` for the total and for a run is the exposure plus the holds that linger, recorded or failed but not yet released; so it exceeds the cap by at most their sum, and not at all while none lingers. |
| `SpendProtocol.SpentPlusHeldIsNotAnInvariant` | prflagger/llm/ledger.py:182-195 | A concrete run in which `spent + held` exceeds the total cap, because a call recorded but not yet released is counted twice; why the invariant has to know each reservation's phase. |
| `Ledger.WorstCaseBoundsCost` | prflagger/llm/ledger.py:84-112 | If all input, cache-write and cache-read tokens together are at most the estimate (a third of the characters plus 64) and the output is within `max_tokens`, then 0 <= cost <= worst case, for every price, cache-write multiplier and monotone rounding that keeps zero. |
| `Ledger.ReserveStepsDecide` | prflagger/llm/ledger.py:141-164 | The separate reads of one `reserve`, taken without interleaving, admit the call exactly when every check passes. |
| `Ledger.Ledger.Reserve` | prflagger/llm/ledger.py:138-164 | Succeeds exactly when the model is priced and there is room for the worst case under the total, under today's cap of the repository and under the run's cap: exposure, and the holds read with it whose row can no longer come to count there, leave at least that much. Otherwise names the first scope that has no room with its cap and what is committed to it; changes the ledger exactly as the protocol's steps do. |
| `Ledger.Ledger.Release` | prflagger/llm/ledger.py:166-168 | Drops that hold and nothing else; harmless if it is gone. |
| `Ledger.Ledger.Record` | prflagger/llm/ledger.py:170-196 | Appends one row, free if cached, priced otherwise, and then releases the reservation it was given. |
| `Ledger.CommittedBoundsExposure` | prflagger/llm/ledger.py:143-157 | What one check finds committed bounds the exposure of every cap the check speaks for; a daily check speaks for today and every later day. |
| `Ledger.PassingChecksFit` | prflagger/llm/ledger.py:141-164 | No cap goes unchecked: a call that passes its one, two or three checks fits under every cap its row may come to count against. |
| `Ledger.CommittedIs` | prflagger/llm/ledger.py:143-157 | What a check finds committed is exactly the exposure of its cap, today's for a repository, plus the holds read with it that are recorded, failed or stamped on another day. |
| `Ledger.PassesExactlyWhen` | prflagger/llm/ledger.py:141-164 | No call that fits is refused: it passes its checks if and only if there is room for it under every cap that concerns it now. |
| `Ledger.OnlyRowsCount` | prflagger/llm/ledger.py:141-164 | With nothing held a call is admitted exactly if the rows alone leave room: all of them, those of its repository stamped on this UTC day, and those of its run. What was spent on earlier days is forgotten. |
| `Ledger.RefusalOrder` | prflagger/llm/ledger.py:158-160 | A refusal names the total if that has no room, else the repository's day, else the run, each with its own cap and figure. |
| `SpendReads.ScopesCount` | prflagger/llm/ledger.py:143-157 | Which rows a cap counts, on their columns: every row, those of the run, those of the repository with a time stamp on that day. |
| `SpendReads.SinceDayStartIsToday` | prflagger/llm/ledger.py:148-150 | While no row is stamped in the future, the rows since the start of the day are exactly today's. |
| `SpendReads.HeldIsPendingOrIdle` | prflagger/llm/ledger.py:143-157 | What is held for a scope is what may still come to count in it and what is idle, term by term. |
| `SpendReads.IdleMeans` | prflagger/llm/ledger.py:166-168 | Idle are the holds whose call is recorded, failed, or answered on another day than the one asked about. |
| `PriceResults.CostsAdd` | prflagger/llm/ledger.py:84-95 | Before rounding, the price of two answers is the price of their tokens together, for each of the four kinds. |
| `PriceResults.MillionTokensCost` | prflagger/llm/ledger.py:84-95 | A million tokens of one kind cost the listed price: input, output, a tenth of the input price for cache reads, the cache lifetime's multiple of it for cache writes. |
| `PriceResults.WhosePrice` | prflagger/llm/ledger.py:84-95 | The price of the model asked for decides, else that of the model that answered; without either an answer is free. |
| `PriceResults.WorstCaseIsAttained` | prflagger/llm/ledger.py:98-112 | For every request to a listed model, some answer within its estimate costs exactly its worst case: nothing is reserved that could not be charged. |
| `PriceResults.EstimateCovers` | prflagger/llm/ledger.py:98-112 | The estimate covers so many tokens if and only if all but 64 of them are at most a third of the characters of prompt and system texts. |
| `SpendHolds.OnlyTheOwnerEndsAHold` | prflagger/llm/ledger.py:166-196 | A hold goes away in exactly one way: its owner releases it, after its row is in or the provider has raised, while no `reserve` has the lock. |
| `SpendHolds.EveryHoldCanEnd` | prflagger/llm/client.py:98-106 | Whenever no `reserve` has the lock, the owner of any hold can go on alone to the end, whatever the provider does: the hold is gone, its row is in if there is one to come, and nothing else has changed. |
| `SpendHolds.EveryHoldEnds` | prflagger/llm/client.py:98-106 | From every state without a `reserve` inside the lock, some honest continuation leaves no hold at all and loses no row. |
| `BilledRuns.MeteredRunIsHonest` | prflagger/llm/client.py:85-106 | Over every interleaving, a run whose reservations are worst cases of the requests asked for and whose charges are metered costs of the answers never charges more than it reserved. |
| `BilledRuns.MeteredRunsKeepTheCaps` | prflagger/llm/ledger.py:84-196 | Token estimate and protocol together: from an empty ledger, every interleaving of calls that reserve their worst case and stay within their estimate keeps every cap, in exposure and in recorded spend. |
| `Ledger.CallStepsEffect` | prflagger/llm/client.py:98-106 | A call after its admission leaves the ledger as it was before it, plus one row if the provider answered. |
| `Ledger.AskKeepsTheCaps` | prflagger/llm/client.py:85-117 | A metered `ask`, whether answered from the cache, refused, failed or paid for, keeps every cap and leaves no hold behind. |
| `Ledger.ModelClient.Ask` | prflagger/llm/client.py:66-117 | Cache, then provider availability, then reserve, call, and record or release, in that order: says when an answer results, which row is written, when a reservation number is used up, and that the ledger moves exactly as the protocol does. |
| `Ledger.ModelClient.Settle` | prflagger/llm/client.py:99-137 | The provider's answer is recorded, its error releases the hold, and a status of 401, 403 or 404 turns the client off for good. |
| `Linkage.MeanOfUnion` | prflagger/brain/mine.py:171-173 | The Lance-Williams update is exact: the size-weighted average of two clusters' means is the mean over their union. |
| `Linkage.FirstBestUnique` | prflagger/brain/mine.py:165-167 | There is one first highest pair in row-major order, so the tie-break determines the merge. |
| `Linkage.GreedyPartitionsAndStops` | prflagger/brain/mine.py:164-180 | Clustering keeps every index exactly as often as it was there and stops with every two remaining clusters averaging below the threshold. |
| `Linkage.MergesNeverRise` | prflagger/brain/mine.py:164-179 | Successive merges happen at non-increasing similarity: each update is a convex combination. |
| `ClusterResults.MergedOnlyAbove` | prflagger/brain/mine.py:164-180 | Every cluster of the result was there before, or is the union of two non-empty parts whose mean similarity reaches the threshold. |
| `ClusterResults.GroupsAreJustified` | prflagger/brain/mine.py:164-180 | In particular each returned group is a single comment or divides into two such parts. |
| `ClusterResults.FarApartStaysApart` | prflagger/brain/mine.py:168-169 | If every two comments are below the threshold, each is returned alone. |
| `ClusterResults.AloneAreFarApart` | prflagger/brain/mine.py:168-169 | Two comments that are returned alone are below the threshold. |
| `ClusterResults.MergesAreCounted` | prflagger/brain/mine.py:164-179 | There is one merge for each cluster that is gone, and each happens at a similarity that reaches the threshold. |
| `Linkage.SortedSorts` | prflagger/brain/mine.py:180 | Sorting a group orders it and keeps its members. |
| `MinedClusters.ArgMax` | prflagger/brain/mine.py:165-166 | Finds the first highest entry in row-major order, inactive entries counting as lowest. |
| `MinedClusters.HighestIsBest` | prflagger/brain/mine.py:165-169 | While the matrix holds the slots' means, its first highest entry is the first best pair of the non-empty clusters, left before right, and no finite entry is left exactly when at most one cluster is. |
| `MinedClusters.UpdateIsExact` | prflagger/brain/mine.py:171-179 | Every entry of the matrix after the five in-place assignments is the mean similarity of its two slots after the merge, or inactive. |
| `MinedClusters.Overwrite` | prflagger/brain/mine.py:172-176 | What the in-place row and column assignments leave in every entry. |
| `MinedClusters.MergeSlots` | prflagger/brain/mine.py:171-179 | One round updates matrix, sizes and members in place and keeps the matrix equal to the means of the slots. |
| `MinedClusters.CompactMerge` | prflagger/brain/mine.py:178-180 | Emptying one slot into an earlier one is, once empty slots are skipped, deleting the later cluster from the list. |
| `MinedClusters.Agglomerate` | prflagger/brain/mine.py:157-180 | The fast in-place clustering terminates and returns exactly the greedy clustering's groups, in its order, each sorted. |
| `NormClusters.SearchBest` | prflagger/brain/norms.py:230-237 | The nested loops find the first strictly best pair above -1, or none. |
| `NormClusters.AgglomerateNaive` | prflagger/brain/norms.py:228-243 | The naive clustering, index -1 included, computes its specification. |
| `NormClusters.NaiveIsGreedy` | prflagger/brain/norms.py:228-243 | For thresholds above -1 the naive form is the greedy clustering. |
| `NormClusters.FormsAgreeExactlyWhen` | prflagger/brain/mine.py:149-153 | Fast and naive form return the same clusters in the same order for every symmetric matrix and threshold above -1, ties included; with entries from -1 up, exactly when the threshold is above -1 or no part of the comments is at similarity -1 from all the rest. |
| `NormClusters.OppositeCommentsDisagree` | prflagger/brain/norms.py:230-242 | Two opposite comments at a threshold of -1: one cluster of both from the fast form, one comment lost by the naive one. |
| `NormClusters.SeparatedNaiveLoses` | prflagger/brain/norms.py:230-242 | Where such a part exists and the threshold is at most -1, the naive form loses comments: a search without a result names the last cluster twice. |
| `EventResults.AppliedIsAPrefix` | prflagger/api/ws.py:61-105 | Over any number of connections, with overflows and with offers in any order, as long as no hazard occurs: what the client has applied is exactly the matching rows of the log up to its cursor, strictly increasing, without gap or repeat; and everything, once a live connection has nothing on its way and nothing dropped. |
| `EventViews.AppliedIsTheView` | prflagger/storage/events.py:97-100 | The same on the columns: the applied rows are in order and are exactly the log's rows up to the cursor whose run and whose repository are the ones asked for, where one is; a client that has caught up has them all. |
| `EventViews.UnfilteredIsTheLog` | prflagger/storage/events.py:214-233 | A client that asks for no run and no repository has the beginning of the log itself. |
| `EventViews.NothingForeignIsSent` | prflagger/storage/events.py:97-100 | Hazards or not, no event of another run or repository than asked for is ever on the wire, replayed or live. |
| `EventViews.LinesAreFifo` | prflagger/api/ws.py:87-97 | Within a connection, log lines go out first in, first out: those queued before and since are those sent, in order, followed by those that wait. |
| `EventViews.ReportsFollowDrops` | prflagger/api/ws.py:98-105 | Within a connection there are never more reports of drops than events that met a full queue: a drop that was reported is not reported again. |
| `EventViews.CanAlwaysCatchUp` | prflagger/api/ws.py:61-105 | From every state there is a course of events without a hazard after which the client is live and has every matching row of the log. |
| `EventViews.LiveDelivers` | prflagger/api/ws.py:87-105 | A live client that has caught up can get the next matching row at once, without a further read of the log. |
| `EventResults.HazardsExactly` | prflagger/api/ws.py:87-105 | In every state the protocol can be in, a step is a hazard if and only if, after it and without any further hazard, the client's cursor can pass a matching row that is never applied. The hazards: a due row overflows although nothing that will be sent is queued and no older row is on its way; or a due row is queued while an older one is still on its way and no report of a drop is coming. Both can be read off queue, hops and drop count. |
| `EventSteps.StepKeepsInv` | prflagger/api/ws.py:65-105 | Each step between two awaits that is no hazard keeps the connection's invariant: frames on the wire continue the client's view, and what is still due is queued in order and otherwise on its way, or the next event to go out precedes whatever is lost and is followed by a drop check. |
| `EventSteps.FannedOut` | prflagger/storage/events.py:203-210 | In whatever order threads fan their events out, the same rows are on their way: the order only matters where they are queued. |
| `EventSteps.OldestQueues` | prflagger/storage/events.py:102-106 | Queueing the oldest row on its way keeps what is due in order, or is the next event to go out before anything that is lost. |
| `EventSteps.ChunkFits` | prflagger/storage/events.py:214-233 | One replay round sends exactly the matching rows that follow the cursor, in order, up to the chunk size, and a short chunk is the last one. |
| `EventSteps.ReplayedEverything` | prflagger/api/ws.py:67-76 | When the replay has reached the end of the log, everything already queued or on its way is stale. |
| `EventSteps.HeadIsNext` | prflagger/api/ws.py:89-97 | A row taken from the queue that is not stale is exactly the row the client needs next. |
| `EventSteps.WholeFindsNextOut` | prflagger/storage/events.py:102-106 | While nothing is lost, the first event of the queue that will be sent is the next due row or a log line, which is why a later overflow is noticed in time. |
| `EventSteps.FrameApplied` | prflagger/web/static/js/api.js:76-102 | A fitting frame keeps the applied rows equal to the matching rows up to the cursor. |
| `EventResults.BlindOverflowLosesARow` | prflagger/api/ws.py:89-105 | After every blind overflow there is a course of events without a further hazard in which the dropped row is passed by the cursor and never applied. |
| `EventResults.OvertakingLosesARow` | prflagger/storage/events.py:203-210 | Whatever the coroutine is doing and whatever is queued: after a row is queued ahead of an older one, with no report of a drop coming, there is a course of events without a further hazard in which the older one is taken for a repeat and never applied. |
| `EventResults.OverflowsCanLoseRows` | prflagger/api/ws.py:89-105 | A blind overflow is reached from the empty log, and a row is lost for good. |
| `EventResults.EmittersCanLoseRows` | prflagger/storage/events.py:203-210 | Two emitters suffice from the empty log: a row written on a worker thread hops to the loop, a later one written on the loop is offered at once, and the first is lost for good. |
| `EventSocket.EventBus.Emit` | prflagger/storage/events.py:150-172 | Appends one row with the next number. On the loop it offers it at once to exactly the subscribers whose run, if they ask for one, and whose repository, if they ask for one, are the row's; from another thread it schedules exactly one offer for each of them, behind those already scheduled, and touches no queue. |
| `EventSocket.EventBus.Publish` | prflagger/storage/events.py:174-195 | Hands a record without a number to the same subscribers, on the loop or by scheduled offers, and leaves the log alone. |
| `EventSocket.OneHopEach` | prflagger/storage/events.py:203-212 | The offers scheduled for an event reach each subscription that wants it once and no other. |
| `EventSocket.EventBus.RunHop` | prflagger/storage/events.py:208-210 | The loop runs the offer scheduled first, in the subscription it was scheduled for, and no other. |
| `EventSocket.Socket.Offer` | prflagger/storage/events.py:102-106 | Queues an event or counts it as dropped, never waits. |
| `EventSocket.Socket.Replay` | prflagger/api/ws.py:67-73 | One round of the replay loop up to the await of its send. |
| `EventSocket.Socket.Resume` | prflagger/api/ws.py:74-105 | What the coroutine does after each send: advance, go live, report drops and reset their count. |
| `EventSocket.Socket.Deliver` | prflagger/api/ws.py:90-97 | Takes the next event, skips a replayed row, moves the cursor past a row but not past a log line. |
| `EventSocket.Page.OnMessage` | prflagger/web/static/js/api.js:76-102 | The page's reaction to each kind of frame; a drop report closes the socket. |
| `Lanes.RunKeepsValid` | prflagger/engine/scheduler.py:89-135 | Whatever is enqueued and dispatched, the rotation lists exactly the non-empty lanes, each once, the depth is the number of waiting runs and never exceeds the cap, and waiting work has the wake-up flag set. |
| `Lanes.LanesAreFifo` | prflagger/engine/scheduler.py:107-133 | For every repository, what waited and what was admitted since is what was dispatched, in order, followed by what still waits: nothing lost, repeated or reordered. |
| `Lanes.BoundedWaiting` | prflagger/engine/scheduler.py:115-135 | A run with p runs ahead of it in its lane and its repository at place k of the rotation is dispatched within k + 1 + p * max_depth further dispatches, whatever is enqueued meanwhile. |
| `EngineWaiting.QueuedRunIsTaken` | prflagger/engine/scheduler.py:89-135 | In the whole service: whatever is submitted, retargeted, executed, cancelled or crashes meanwhile, a queued run is taken within that many further takes, unless the service is restarted before. |
| `EngineWaiting.RunOfLanes` | prflagger/engine/scheduler.py:161-287 | Between two restarts, the queue and the turns of the whole service are those of the lanes alone, fed with its admissions and takes. |
| `Lanes.TurnsFollowTheRotation` | prflagger/engine/scheduler.py:118-133 | While a waiting repository gets no turn, turns go to those ahead of it in the rotation, in its order, once each. |
| `Lanes.SleepsOnlyWhenEmpty` | prflagger/engine/scheduler.py:115-135 | A consumer is told to wait exactly if nothing waits for it, and then its wake-up flag is down; the next run that is admitted raises it. |
| `Lanes.FairBetweenTurns` | prflagger/engine/scheduler.py:126-133 | Between two turns of a repository no other gets two, exactly if the first turn left it work of its own: a drained repository loses its place, unlike the comment at line 126 says. |
| `Lanes.AdmitAddsId` | prflagger/engine/scheduler.py:107-113 | An admission adds exactly its id to the waiting ones. |
| `Lanes.DispatchRemovesId` | prflagger/engine/scheduler.py:118-135 | A dispatch removes exactly the id it returns, and returns one if anything waits. |
| `LaneQueue.LaneQueue.Enqueue` | prflagger/engine/scheduler.py:89-113 | Refuses and counts when full, otherwise changes lanes, rotation, depth and flag as specified. |
| `LaneQueue.LaneQueue.Next` | prflagger/engine/scheduler.py:115-135 | Returns the next turn and leaves the queue as specified, or clears the flag and reports that it has to wait. |
| `Engine.StepKeepsInv` | prflagger/engine/scheduler.py:161-287 | Every step of submitters, consumers, workers, cancellers and boot recovery keeps: a run is in at most one of queue, debounce sleep and worker, each worker's copy is in step with its row or both are terminal, pending entries name runs of their own pull request that no worker has, `finished_at` is set exactly while terminal. |
| `Engine.AdvanceIsInStep` | prflagger/engine/worker.py:109-121 | An advance keeps the worker's copy in step with the row it checks in its stead, although the step into ADJUDICATING does not hand the new row back. |
| `EngineResults.EmptyServiceQualifies` | prflagger/engine/scheduler.py:60-71 | An empty service satisfies everything the results below ask of their first state, so they hold from the start. |
| `EngineResults.TerminalStatesAbsorb` | prflagger/storage/repos.py:180-192 | Over every interleaving of submit, refusal, advance, failure, cancel and boot requeue, a run once done, failed or cancelled never leaves the terminal states, its start time never changes once set, and its finish time is set exactly while it is terminal. |
| `EngineResults.AcceptedAdvancesClimb` | prflagger/engine/states.py:35-46 | An accepted advance climbs ORDER from the stored row, although only the worker's copy is checked; a refused one finds a terminal row and leaves it. |
| `EngineResults.ExecutedHeadIsRecorded` | prflagger/storage/repos.py:229-239 | For as long as a run has a worker, its row's head commit is the one the worker verifies: retargeting never reaches it. |
| `EngineStates.ExecutedBaseIsRecorded` | prflagger/engine/worker.py:207-237 | Likewise for the base commit, which a worker replaces by the fork point it finds, on record and in its copy. |
| `EngineResults.NewestHeadIsNeverLost` | prflagger/engine/scheduler.py:161-232 | After any sequence of submits, forced or not, takes, debounce sleeps, work, cancellations and restarts that avoids the two hazards, every pull request's latest run carries the head submitted last. |
| `EngineHazards.HazardsExactly` | prflagger/engine/scheduler.py:161-252 | While every newest run carries its head, a step is one of the two hazards (the pending run is cancelled, or a complete forced submission beside it is refused) if and only if, after it and without any further hazard, some pull request's newest run can miss the head submitted last. |
| `EngineResults.HazardsLoseTheNextHead` | prflagger/engine/scheduler.py:243-252 | Both hazards are real: after the run a pending entry names is cancelled, or a forced run is refused beside it, the next unforced submission of another head retargets the wrong run and the latest run never carries that head. |
| `EngineHazards.HazardsAreReached` | prflagger/engine/scheduler.py:161-252 | With a queue of one run, either hazard is possible right after an empty service's first submission, and the submission after it leaves a pull request whose latest run has the wrong head. |
| `EngineHazards.RestartCanForget` | prflagger/engine/recovery.py:34-44 | With a queue of one run, two submissions around one take leave two unfinished runs, both with a place; a restart leaves one of them without. |
| `EngineResults.StormKeepsOneRun` | prflagger/engine/scheduler.py:179-199 | A storm of unforced submissions while a run is pending creates no run, leaves queue and pending entries alone, and points that one run at the last head. |
| `EngineSubmissions.LatestIsNewest` | prflagger/storage/repos.py:198-215 | The latest run of a pull request is the newest of its own runs, if it has any. |
| `EngineSubmissions.NothingToDo` | prflagger/engine/scheduler.py:170-178 | An unforced submission changes nothing if the pull request's latest run has that head and is neither failed nor cancelled. |
| `EngineSubmissions.PendingRunMoves` | prflagger/engine/scheduler.py:179-199 | Otherwise it moves the pending run, if there is one, to both new commits, and changes nothing else. |
| `EngineSubmissions.NewRunIsQueued` | prflagger/engine/scheduler.py:201-232 | Otherwise, or if it is forced, a run with the submitted commits is created, which is the latest, is pending and waits at the end of its repository's lane, if there is room. |
| `EngineSubmissions.NewRunIsRefused` | prflagger/engine/scheduler.py:201-213 | Without room it is on record as cancelled at once, and neither queued nor pending. |
| `EngineSubmissions.IncompleteIsIgnored` | prflagger/engine/scheduler.py:165-167 | A submission without base or head changes nothing. |
| `EngineSubmissions.SubmissionCovers` | prflagger/engine/scheduler.py:161-232 | After a complete unforced submission that finds room or a pending run, the latest run carries the head and is neither failed nor cancelled; a run was created exactly if neither that held before nor a run was pending. So a failed or cancelled run can be submitted again. |
| `EngineStates.TransitionsExactly` | prflagger/engine/states.py:18-56 | A transition is allowed exactly from a state that is not terminal, to a later state of ORDER or to failed or cancelled. |
| `EngineStates.UndisturbedRunCompletes` | prflagger/engine/worker.py:109-121 | A queued run that is started and not interfered with passes PREPARING, BASE_RUN, HEAD_RUN, PROBING, ADJUDICATING, RENDERING and DONE, in this order, although the worker keeps an old copy across the adjudication. |
| `EngineStates.StateChangesAreCaused` | prflagger/engine/worker.py:109-138 | A run's state changes only because its worker advances it to the next stage, crashes or is cancelled, because it is cancelled itself, or because a restart puts it back; and each change writes start and finish time as `set_run_state` does. |
| `EngineStates.TakenRunGoesOn` | prflagger/engine/scheduler.py:256-273 | A run that is taken and not cancelled sleeps if its pull request is pending and otherwise gets a worker with its row as it is then. |
| `EngineStates.CancelledRunsAreNotStarted` | prflagger/engine/scheduler.py:256-273 | A run that is cancelled while it waits in the queue never gets a worker, over every sequence of events. |
| `EngineStates.TimesAreInOrder` | prflagger/storage/repos.py:180-192 | While the clock does not go back: every run that has left the queue has a start time, and none ends before it starts. |
| `EngineStates.RestartStartsOver` | prflagger/engine/recovery.py:34-44 | After a restart every unfinished run is on record as queued, the others are as they were, and nothing is pending, asleep or at work. |
| `EngineResults.NoRunIsForgotten` | prflagger/engine/scheduler.py:256-287 | Every unfinished run waits in the queue, sleeps out its debounce or has a worker, over every sequence of steps whose restarts find room for all. |
| `EngineResults.RestartHousesExactlyWhen` | prflagger/engine/recovery.py:34-44 | Boot recovery puts every unfinished run back exactly if they all fit in the queue: `requeue` ignores a refusal. |
| `SchedulerService.Scheduler.Submit` | prflagger/engine/scheduler.py:161-232 | The branches of `submit` in the code's order leave the scheduler as the state machine's step does, which the rows of `EngineSubmissions` describe; a returned run is the pull request's pending one, and nothing is pending anew when none is returned. |
| `SchedulerService.Scheduler.LatestRun` | prflagger/storage/repos.py:198-215 | The newest row of the pull request, if it has any. |
| `SchedulerService.Scheduler.Recover` | prflagger/engine/recovery.py:34-44 | Reads the unfinished runs first and then requeues each, which is the state machine's restart. |
| `SchedulerService.ReadingFirstIsTheSame` | prflagger/engine/recovery.py:34-44 | Requeueing a list read beforehand equals looking at every row in turn: requeueing one run neither finishes nor revives another. |
| `SchedulerService.Scheduler.CancelRun` | prflagger/engine/scheduler.py:243-252 | Writes the row whether or not a task has the run, tells the task if there is one, and leaves queue and pending entries alone. |
| `SchedulerService.Scheduler.Consume` | prflagger/engine/scheduler.py:256-273 | A consumer's turn up to its sleep or to the start of a task. |
| `SchedulerService.Scheduler.Settle` | prflagger/engine/scheduler.py:274-279 | After the sleep: the pending entry is dropped and the row read again. |
| `SchedulerService.Scheduler.AdvanceRun` | prflagger/engine/worker.py:109-121 | Checks the worker's copy, writes the row, and returns the new row except into ADJUDICATING. |
| `Hunks.Merge` | prflagger/analysis/diff.py:51-59 | Covers exactly the lines of the given spans, in ascending spans with at least one unchanged line between two. |
| `Hunks.MergeIsDetermined` | prflagger/analysis/diff.py:51-59 | The merge depends only on which lines changed, not on how the hunks were cut or ordered. |
| `Hunks.OverlapIsAChangedLine` | prflagger/analysis/blast.py:91-94 | The interval test holds exactly if one of the symbol's own lines changed. |
| `Hunks.MergeKeepsOverlaps` | prflagger/analysis/blast.py:91-94 | A symbol overlaps the merged spans exactly if it overlaps a raw hunk. |
| `Blast.ReachByFrontiers` | prflagger/analysis/blast.py:37-44 | The frontier loop, early break included, reaches exactly the symbols within the hops. |
| `Blast.ReachByQueue` | prflagger/brain/store.py:142-155 | The queue-driven search reaches exactly the symbols within the hops, but for the start; it terminates on cyclic graphs. |
| `Blast.WithinExactlyWhenReached` | prflagger/analysis/blast.py:37-44 | A symbol is within the hops exactly if a chain of at most that many calls leads from it to a start. |
| `BlastResults.ChangedSymbols` | prflagger/analysis/blast.py:53-71 | Over merged spans, exactly the symbols with a definition that overlaps a raw hunk of its file, names defined twice included. |
| `BlastResults.Invert` | prflagger/analysis/blast.py:32-35 | The inverted graph lists a caller for a callee exactly if the graph lists the callee for the caller. |
| `BlastResults.EdgesInvoke` | prflagger/analysis/callgraph.py:82-91 | An edge of the package's graph exists exactly if some file has a function of the caller's name that is charged with a call resolving to the callee. |
| `BlastResults.BlastRadius` | prflagger/analysis/blast.py:26-50 | Over the call graph it builds and inverts itself: returns exactly the symbols that overlap a raw, unmerged hunk and the indexed ones from which a chain of at most `hops` calls in the source leads to one. |
| `BlastResults.CallersWithin` | prflagger/brain/store.py:141-156 | Exactly the stored symbols other than the start from which a chain of at most `hops` stored edges leads to it: the blast radius of one symbol, without the symbol. |
| `Symbols.SymbolWalker.Walk` | prflagger/analysis/symbols.py:30-52 | The recursive in-place walk emits the specified symbols in order, through classes, functions and nested blocks. |
| `CallGraph.CallCollector.VisitBody` | prflagger/analysis/callgraph.py:133-158 | The recursive in-place visit adds exactly the edges of the calls it records, and keeps what was there. |
| `CallGraph.CallCollector.RecordCalls` | prflagger/analysis/callgraph.py:160-166 | Adds an edge to everything each call below the statement resolves to, except the caller itself. |
| `CallGraph.BuildCallGraph` | prflagger/analysis/callgraph.py:68-91 | The package's graph has exactly the edges of its files. |
| `CallGraph.TraversalsAgree` | prflagger/analysis/symbols.py:38-52 | The function and method symbols that one traversal emits are exactly the names under which the other finds function definitions. |
| `CallGraph.RecordedExactly` | prflagger/analysis/callgraph.py:133-166 | Which calls are recorded for which function, exactly. |
| `CallGraph.GraphIsClosed` | prflagger/analysis/callgraph.py:68-91 | Every caller is an emitted function or method, every callee an indexed symbol, and nothing calls itself. |
| `CallGraph.GraphIsComplete` | prflagger/analysis/callgraph.py:133-166 | Every resolvable call to something else in a function's own statements is an edge from the innermost function it is in. |
| `CallGraph.PlausibleCallsBecomeEdges` | prflagger/analysis/callgraph.py:126-198 | A call in a function's own statements that could mean an indexed symbol of its bare name is an edge to it, unless that is the function itself, the call has a single match, which then has the edge, or the name has more than eight symbols. |
| `Resolution.ResolvesToTheBest` | prflagger/analysis/callgraph.py:168-186 | A call resolves to exactly what its best reading finds among the indexed symbols: a name of its own module, else what the imported alias stands for, else the symbols with that last name, if there are at most eight. |
| `Resolution.WrittenExactly` | prflagger/analysis/callgraph.py:160-166 | The calls below a body, and those that are its own, are exactly those to which a chain of statements leads from it; for its own calls, one that enters no function and does not end at a definition. |
| `Resolution.OwnCallsBecomeEdges` | prflagger/analysis/callgraph.py:133-186 | In terms of chains: take any definition of a function and any call that is its own; whatever the call means, other than the function itself, is an edge from the name the definition has. |
| `Resolution.EdgesComeFromCalls` | prflagger/analysis/callgraph.py:133-186 | Conversely every edge leads from a function's definition to what some call written below it means. |
| `Definitions.EmittedExactly` | prflagger/analysis/symbols.py:30-52 | Exactly the definitions to which a chain of statements leads are emitted, each under the names along the chain, and a function as a method exactly if the innermost definition around it is a class. |
| `Definitions.EmittedInOrder` | prflagger/analysis/symbols.py:38-52 | A definition is emitted before those nested in it. |
| `CallGraph.GraphIsSound` | prflagger/analysis/callgraph.py:133-166 | Every edge comes from a call written somewhere inside a function of that name. |
| `CallGraph.GraphExactly` | prflagger/analysis/callgraph.py:133-166 | The edges are exactly the resolvable calls charged to each function, where a compound statement also brings the calls of definitions nested in it. |
| `CallOwners.InnermostAloneExactlyWhen` | prflagger/analysis/callgraph.py:145-166 | For every body: the calls charged to a function are its own and those hidden in it, in definitions below its compound statements; so it is charged with its own alone exactly if it makes every hidden call itself as well. |
| `CallOwners.EdgesAreOwnOrHidden` | prflagger/analysis/callgraph.py:133-166 | An edge exists exactly if a function of the caller's name makes a call resolving to the callee itself, or hides one. |
| `CallOwners.EdgesAreInnermostExactlyWhen` | prflagger/analysis/callgraph.py:133-166 | A file's edges all start at the innermost function around their call exactly if whatever hidden calls resolve to is also called by functions of the same name themselves. |
| `CallOwners.FlatFunctionsHaveInnermostEdges` | prflagger/analysis/callgraph.py:133-166 | In particular in every file where no function has a definition below a compound statement. |
| `CallOwners.NestedCallsCountTwice` | prflagger/analysis/callgraph.py:145-158 | The smallest case in which a nested definition's call is charged to both functions. |
| `Treemap.SquarifiedLayoutTiles` | prflagger/web/static/js/atlas.js:41-77 | For positive values and sides, every cell has its item's proportional share of the area and lies in the rectangle, no two overlap in their interior, and every point of the rectangle is in exactly one cell. |
| `Treemap.LayoutTiles` | prflagger/web/static/js/atlas.js:54-76 | Every layout of areas that fill a rectangle tiles it, whatever rows are chosen. |
| `Treemap.Squarify` | prflagger/web/static/js/atlas.js:41-77 | The loops terminate, never divide by zero, and place exactly the specified layout. |
| `Treemap.FirstRow` | prflagger/web/static/js/atlas.js:57-62 | A row is as long as the first item that would make its worst cell worse allows. |
| `Treemap.RowStopsAtTheFirstWorsening` | prflagger/web/static/js/atlas.js:57-62 | Every item a row took did not worsen it, and the next one, if any, would. |
| `Treemap.WorstIsTheWorstAspect` | prflagger/web/static/js/atlas.js:47-52 | The closed formula is the largest aspect ratio among the cells the row would get. |
| `Treemap.PlaceRow` | prflagger/web/static/js/atlas.js:63-72 | Places the row's cells along the shorter side, offset by offset. |
| `Treemap.RowFillsStrip` | prflagger/web/static/js/atlas.js:63-73 | A row's cells fill one strip of the rectangle from end to end without overlap and leave the rest untouched. |
| `TreemapResults.RowsFollowTheShorterSide` | prflagger/web/static/js/atlas.js:54-76 | Every layout starts with a row from the rectangle's corner along the left edge, or along the top edge if the rectangle is higher than wide, whose cells follow each other from end to end with the same thickness; the rest of the items is laid out in the rest of the rectangle. |
| `TreemapResults.RowEndsWhereItGetsWorse` | prflagger/web/static/js/atlas.js:57-62 | The row goes on for as long as one more cell leaves the worst of its cells no further from a square, and ends where that would first be different. |
| `TreemapResults.AreasAreProportional` | prflagger/web/static/js/atlas.js:43-44 | Each item's area is to the rectangle's as its value is to the sum of all values. |
| `Adjudication.AnsweredGroupIsAccounted` | prflagger/adjudicate/adjudicate.py:130-136 | Whatever the model answers, each observation of an answered group is adjudicated exactly once or listed exactly once as discarded, never both, and nothing else is. |
| `Adjudication.UnreadableGroupIsDiscarded` | prflagger/adjudicate/adjudicate.py:126-129 | An answer without the required JSON discards each observation it was about and keeps nothing. |
| `Adjudication.RunIsAccounted` | prflagger/adjudicate/adjudicate.py:101-142 | Over a whole run of packets that share no observation: each observation of an answered packet is adjudicated exactly once or discarded exactly once in the outcome, one of an unreadable answer is discarded, and one of a skipped packet is neither. |
| `Adjudication.OnlyCheckedClaimsAreKept` | prflagger/adjudicate/adjudicate.py:145-201 | Every kept verdict is about a shown observation, uses a known assessment, has a reasoning of at most 1200 characters and at least one citation that was resolved; a kept suggestion has a verdict, its own resolved citations, texts of limited length and a confidence from 0 to 1; no answer yields more verdicts than it has items. |
| `Adjudication.Outcome.Take` | prflagger/adjudicate/adjudicate.py:145-201 | One item appends to the outcome's lists exactly what is specified, which the rows of `AnswerResults` describe, and marks its observation as answered. |
| `Adjudication.Outcome.TakeAnswer` | prflagger/adjudicate/adjudicate.py:125-136 | One answer appends what is kept of it and then, sorted, what it did not address. |
| `Adjudication.Outcome.Adjudicate` | prflagger/adjudicate/adjudicate.py:101-142 | Over all groups: lists, skipped groups with the reason, number of calls and of cached ones, and total cost. |
| `Adjudication.SharesWithinCost` | prflagger/adjudicate/adjudicate.py:131-134 | The shares of an answer's cost written to its verdicts add up to no more than the cost, but for the rounding of as many shares as it has items. |
| `Adjudication.SharesWithinSpend` | prflagger/adjudicate/adjudicate.py:101-142 | The same over a whole run and what it has spent. |
| `AnswerResults.VerdictsExactly` | prflagger/adjudicate/adjudicate.py:154-180 | A verdict is kept of an answer if and only if it is what the first item about some shown observation says, and that item has a known assessment, a reasoning and a citation that was found: the same observation and assessment, its reasoning cut at 1200 characters, its found citations, the model, and the share of the cost. |
| `AnswerResults.VerdictsInOrder` | prflagger/adjudicate/adjudicate.py:130-136 | Verdicts stand in the order of the items they are kept of. |
| `AnswerResults.CitationsInOrder` | prflagger/adjudicate/adjudicate.py:169-170 | Citations are checked one by one, and those found are kept in order. |
| `AnswerResults.SuggestionsExactly` | prflagger/adjudicate/adjudicate.py:182-201 | A suggestion is kept if and only if it is the offer of such an item, with a summary and a found citation of its own: its texts cut at 300, 1200 and 4000 characters. |
| `AnswerResults.ConfidenceIsNearest` | prflagger/adjudicate/adjudicate.py:190-193 | The confidence kept is the one from 0 to 1 that is nearest to the number offered, and a half if none is. |
| `AnswerResults.RejectionsExactly` | prflagger/adjudicate/adjudicate.py:154-189 | While the items are read, something is discarded if and only if it is the first item about a shown observation and the reason given holds of it. |
| `AnswerResults.UnaddressedExactly` | prflagger/adjudicate/adjudicate.py:135-136 | After those come exactly the shown observations that no item is about, in ascending order of their ids. |
| `AnswerResults.RunVerdictsExactly` | prflagger/adjudicate/adjudicate.py:101-142 | Over a whole run: the outcome's verdicts are exactly those kept of the readable answers, each of the answer about its own packet. |
| `AnswerResults.EarlierPacketsFirst` | prflagger/adjudicate/adjudicate.py:101-142 | What is kept of earlier packets comes before what is kept of later ones. |
| `AnswerResults.SharesAreTheCost` | prflagger/adjudicate/adjudicate.py:131-134 | What an answer's verdicts are said to have cost is their number times the rounded part of the cost that falls to one item. |
| `AnswerResults.SkippedExactly` | prflagger/adjudicate/adjudicate.py:102-120 | A packet is listed as skipped if and only if there was no client, the budget refused, or the call failed, with that reason, cut at 200 characters for a failed call. |
| `Ranking.FindingsSurvive` | prflagger/engine/worker.py:544-553 | After adjudication the findings are the same ones, only demoted where found misleading and scored again: none added, removed or otherwise changed, and in order. |
| `Ranking.LeadIsKept` | prflagger/engine/worker.py:544-553 | With distinct ids, a finding that is not demoted never falls below one it outranked, whatever set is demoted. |
| `Ranking.RankIsDetermined` | prflagger/engine/worker.py:620-641 | With distinct ids the ranking depends only on which findings there are, not on their order. |
| `Ranking.ScoreFollowsConfidence` | prflagger/engine/worker.py:632-639 | Less confidence never scores higher, rounding included. |
| `Ranking.DemotionNeverRaises` | prflagger/engine/worker.py:550-553 | Halving and rounding to four decimals never raises a confidence. |
| `Reranking.DemotedExactly` | prflagger/engine/worker.py:544-553 | From the model's answers to the ranking: after an adjudication a finding has half its confidence, rounded, if the first item about it in an answer to a packet that shows it calls it a false positive, says why and cites something that was found; otherwise it has the confidence it had. Nothing else of it changes but the score. |
| `Reranking.MisleadingExactly` | prflagger/engine/worker.py:544-549 | The findings found misleading are exactly those. |
| `Reranking.NothingElseMoves` | prflagger/engine/worker.py:544-553 | An adjudication that calls no finding a false positive leaves the ranking as it was, whatever else it says. |
| `Reranking.HighestComesFirst` | prflagger/engine/worker.py:640-641 | Of two ranked findings, the first has the higher score, or the same score and the smaller id. |
| `Reranking.ScoresAreProducts` | prflagger/engine/worker.py:632-639 | Every ranked finding's score is the rounded product of its confidence, severity, centrality and weight, with a centrality halfway between one and the callers' part of the most called symbol's. |
| `Reranking.MoreScoresHigher` | prflagger/engine/worker.py:632-639 | With at least as much confidence, severity, callers and weight a finding scores at least as high. |
| `Ids.B32` | prflagger/core/ids.py:20-25 | The loop yields the last base-32 digits, most significant first, for every integer. |
| `Ids.DigitsSortLikeIntegers` | prflagger/core/ids.py:17-25 | Below 32^width the fixed-width strings are injective and compare exactly as the integers do. |
| `Ids.RunId` | prflagger/core/ids.py:28-35 | Ten digits of the time stamp and eight of the random tail after an `r`. |
| `Ids.RunIdsSortByTime` | prflagger/core/ids.py:28-35 | For every pair of stamps and tails: ids compare as the stamps modulo 32^10 do, and on a tie as the tails do. |
| `Ids.LaterRunsHaveLargerIds` | prflagger/core/ids.py:28-35 | Before 2^50 milliseconds a later millisecond always gives a larger id, whatever the tails. |
| `Ids.RunIdsWrap` | prflagger/core/ids.py:28-35 | With the widths in use: ids compare as the stamps modulo 2^50 milliseconds, and on a tie as the forty random bits. |
| `Poetry.TranslationKeepsMeaning` | prflagger/lang/poetry.py:78-96 | A final release satisfies the emitted comma list exactly if every clause of the constraint allows it. |
| `Poetry.BoundedKeepsMeaning` | prflagger/lang/poetry.py:99-110 | A release satisfies the emitted `>=V,<U` exactly if it is not below V and agrees with V, padded with zeros, up to and including the bumped number. |
| `Poetry.FirstNonZeroIs` | prflagger/lang/poetry.py:104-108 | The number that `^` bumps is the first non-zero one, or the last if all are zero. |
| `Poetry.ReleasesAreOrdered` | prflagger/lang/poetry.py:109-110 | Release ordering of the "Version specifiers" section of PEP 440 is total: exactly one of below, above and the same after padding. |
| `Poetry.TranslationNeverNarrows` | prflagger/lang/poetry.py:70-81 | Whatever a constraint admits satisfies its specifier, alternatives included; without `||` nothing else does. |
| `Poetry.AlternativesCanWiden` | prflagger/lang/poetry.py:76-80 | A constraint with `||` and a release that only its specifier lets through. |

## Left out

Hypotheses, and what stands behind them:

- SpendProtocol.EveryInterleavingKeepsTheCaps: assumes that a call costs at most its reservation (`BilledRuns.MeteredRunsKeepTheCaps` replaces this by the token estimate), one process, a clock that does not go back, past spend within the caps, and that inserting a row does not raise.
- EventResults.AppliedIsAPrefix: assumes that no hazard occurs, since the code loses rows where one does (`EventResults.HazardsExactly`); speaks of rows only, since log lines written during a replay can come from the transcript and the queue both.
- EngineResults.NewestHeadIsNeverLost: assumes that recovery ends before submissions begin and that creation times of runs are distinct.
- Ranking.LeadIsKept: assumes distinct finding ids, non-negative confidence, severity and weight, and the same caller counts at both rankings.
- Treemap.SquarifiedLayoutTiles: does not model zero values or sides, for which the source divides by zero and then compares floating-point infinities.
- Poetry.TranslationKeepsMeaning: does not model pre-release, post-release and local versions, wildcards such as `==1.*`, or the splitting of the text into clauses.
- NormClusters.FormsAgreeExactlyWhen: does not model floating-point rounding, under which the two forms may break near-ties differently.
- CallGraph.GraphIsComplete: does not cover decorators, default arguments, base classes and definitions inside `match` cases, which the traversals do not treat as bodies.

Not modelled:

- Mutual exclusion per pull request: the code does not provide it, and nothing here claims it.
- EventSocket.Socket.Replay: does not model the transcript replay that follows an empty chunk, or its count of lines, because lines have no exactly-once property to prove: one written during a replay is sent from the file and from the queue.
- EventSocket.Socket.Resume: does not model the transcript replay and the line count between the last chunk and the live mark.
- EventSocket.Page.OnMessage: does not model the line counter, ping frames, status callbacks and the reconnect delay.
- Pruning of old events. The event stream follows one subscriber; that others do not touch its queue is `EventSocket.EventBus.Emit`. Unsubscribing a closed socket.
- Supersede links, run errors, active-task listing, consumer count and the length of the debounce; a debounce sleep may end at any time.
- The budget's cache files, redaction and HTTP calls: a cache hit and a provider's answer are inputs.
- Vector normalisation and embeddings: clustering starts from a symmetric similarity matrix.
- The support filter and the slug numbering of `mine_norms`, the grouping of observations into packets and the line runs of excerpts: easy members.
- Reading files, git output and Python parsing: spans, modules and statements are inputs; a dotted name is the sequence of its parts.
- The order in which `blast_radius` and `callers_of` list their symbols, and the file names attached to them.
- Adjudication.Outcome.Adjudicate: does not model the wording of reasons.
- Poetry.TranslationNeverNarrows: does not say when alternatives together admit every release; with `||` the source drops the constraint on purpose.
- Docker, webhooks, templates, authentication, charter drift, configuration, schema migration and all drawing code.
