# LedgerMind: verified model

LedgerMind keeps an append-only ledger of agent events and builds everything else on it. This project
models four parts of it in Dafny and proves what they promise.

* **Context packing** (`BaseTrim` to `ContextLaws`): trimming the context to a token budget, choosing and
  compressing a bridge summary per retrieval hint, collecting raw message windows, merging them, packing
  everything greedily, and swapping dropped bridges in for raw bundles. `ChoiceLaws`, `CompressionLaws`, `BudgetLaws`,
  `CollectionContents`, `PackingOrder` and `SwapChoices` say what each stage chooses, without its code.
  `MaterializedContext.Materialize` is the whole operation; `ContextLaws` proves what holds end to end, `SwapSafety`,
  `FittedSwaps` and `RetrievalOrder` where exactly a swap or the comparator misbehaves, and `OverrunExample` a request that
  ends over budget.
* **The idempotent ledger** (`Ledger`, `AppendLaws`, `LedgerLaws`) and what is written through it: continuity records
  (`Continuity`, `ContinuityLaws`), the current state as a projection (`CurrentState`, `ReplayLaws`), and
  handoffs that survive crashes and retries (`Handoffs`, `HandoffLaws`).
* **The durable operator run** (`OperatorStore` to `OperatorResults`): leased tasks, retries, finalization
  with one artifact and one handle event, under every interleaving of workers.
* **Two benchmark algorithms**: token F1 (`TokenF1`) and round-robin selection (`RoundRobin`).

Operations that change state are methods of classes, or methods with loops, proved equal to functions of the
old state; the laws are lemmas about those functions. `Sequences` and `Text` hold sums, filters, the stable
sort, trimming and line splitting.

## What the outside world is taken to be

* The tokenizer, the hash, id generation, clocks, lower-casing, the outcome of a generation and the JSON line
  codec are parameters. Laws that need it say so: a hash without collisions (`CollisionFree`), a codec that
  writes one non-blank line per entry (`OneLineCodec`), outputs that belong to their item (`Honest`).
* Event ids are unique: an id is the conversation and the sequence number. An artifact id is the hash of the
  content, so the content stands for it.
* Search results, relevance scores, anchor counts and parsed summary facts arrive as data (`Hint`, `Ranked`, `Candidate`). Ids and
  sequence numbers name one event each (`OneLedger`), context positions are distinct, facts carry distinct indexes.
* A unit of work commits completely or not at all.
* The retrieval comparator has cycles (`RetrievalOrder.RetrievalOrderCycles`, exactly when: `RetrievalOrder.OrderedUnlessInverted` and
  `RetrievalOrder.CycleIff`), so the order it sorts into is any
  permutation; every law holds for all of them.

## Where code and documentation differ

* The operator design (`docs/superpowers/specs/2026-04-13-operator-level-recursion-design.md:263`) asks that only
  the first terminal transition of a task wins. The stores overwrite unconditionally. `OperatorLeases.FirstResultWinsIff`
  gives the exact condition under which the promise holds. `OperatorLeases.StatusDrifts` is a run whose status
  changes back after it was finalized, `OperatorLeases.FinalizationSettlesIff` says exactly when it cannot. Artifact and handle are safe regardless (`OperatorLaws.PublishedForGood`).
* The same design (line 293) wants a run whose tasks all failed to end as `completed_with_failures`; the code says
  `failed`, and says so for no other run (`OperatorFinalization.FailedRunIff`). It also (line 295) wants a handle for every terminal run; a run without items gets none
  (`OperatorLaws.EmptyRunPublishesNothing`).
* The compressed swap of the packer compresses the bridge once per raw bundle and keeps the size of the last
  success while it evicts the first bundle, so the budget can be exceeded. `SwapLaws.SwapBudget` bounds the overrun,
  `SwapSafety.SwapSafeIff` says exactly when no summary can cause one, `OverrunExample.OverrunReachable` is a request
  with 60 tokens whose context costs 70. Summaries and tokenizers are taken to be ordinary there: the size of a summary
  is what the tokenizer says, and a larger limit never makes its compression fail, as holds for every summary with facts
  (`SwapSafety.FactsSucceedUpwards`). `FittedSwaps.FittedSwapSafeIff` is the same for bridges of the very size their summary
  was fitted to, as all collected bridges are (`CollectionLaws.CollectedGathered`): only sizes up to what the bridge lacks
  matter then. Summaries are taken to be steady there: whatever a compression costs is a limit that can be met, as holds for
  every summary with facts when no line costs more than the whole text (`FittedSwaps.FactsAreSteady`).
* `docs/operator-level-recursion.md` calls a run durable. With the in-memory store, submitting the same input again without
  an idempotency key starts the run over under its old id, and the ledger gets a second handle event
  (`OperatorSubmission.SecondHandle`, exactly when: `OperatorSubmission.SecondHandleIff`); there are never more than the
  run was created times (`OperatorSubmission.HandlesWithinCreations`). The SQL stores refuse the duplicate id.
* A bridge candidate that would fit can be passed over: `BridgeSelection.ChooseFailsIff` states exactly when a hint
  goes without a bridge, `BridgeSelection.FittingCandidatePassedOver` is an instance.
* A caller that writes the reserved idempotency field by hand can lock a key for everybody
  (`LedgerLaws.ForgeryLocksKey`); `LedgerLaws.TrustedIffNoForgery` is the exact condition.

## Model

| member | source | states |
|---|---|---|
| BaseTrim.TrimResolvedItemsToBudget | packages/application/src/use-cases/materialize-context.ts:1995-2077 | the trim meets `IsTrim`: sorted by position, exactly the pinned items and those that fit on top of all pinned and better-ranked selected ones; dropped counts and flag exact; over budget iff the pinned items alone are |
| BaseTrim.DroppedDoesNotFit | packages/application/src/use-cases/materialize-context.ts:2055-2062 | no dropped item would still fit beside the selection |
| BaseTrim.PinnedAllKept | packages/application/src/use-cases/materialize-context.ts:2027-2053 | every pinned item is selected, so the pinned tokens are unchanged |
| BaseTrim.TrimUnique | packages/application/src/use-cases/materialize-context.ts:1995-2077 | `IsTrim` determines the result, whatever the order of the input |
| TrimLaws.PinnedIff | packages/application/src/use-cases/materialize-context.ts:2027-2053 | an item is pinned iff a rule names its position or, for its kind, its id |
| TrimLaws.StaysIff | packages/application/src/use-cases/materialize-context.ts:1995-2077 | an item stays iff it is pinned or fits beside everything pinned and whatever stays that is more important: messages, then recency, then position |
| BridgeBudgets.GetBridgeFitBudgets | packages/application/src/use-cases/materialize-context.ts:1520-1549 | strictly increasing, and exactly the positive amounts freed by giving up a prefix of the reclaim order |
| BridgeBudgets.LastFitBudget | packages/application/src/use-cases/materialize-context.ts:1520-1549 | all budgets are positive, the last one is what the pinned items leave, and there is none iff they leave nothing |
| BridgeBudgets.FitBudgetsUnique | packages/application/src/use-cases/materialize-context.ts:1520-1549 | that description has one solution |
| BridgeBudgets.GetBridgeSelectionBudget | packages/application/src/use-cases/materialize-context.ts:1478-1512 | the reserve plus the size of at most two unpinned base items, at most 128 tokens together, taken greedily in slack order |
| BridgeBudgets.PreferredWithinLastFit | packages/application/src/use-cases/materialize-context.ts:1478-1549 | when the base fits its budget, the selection budget is within the last fit budget |
| BudgetLaws.ReclaimOrderIs | packages/application/src/use-cases/materialize-context.ts:1520-1549 | room is made by all unpinned items, summaries before messages, then the less recent, then the smaller one |
| BudgetLaws.SlackOrderIs | packages/application/src/use-cases/materialize-context.ts:1478-1512 | slack is lent by messages before summaries, then the more recent, then the larger one |
| BudgetLaws.BorrowedIs | packages/application/src/use-cases/materialize-context.ts:1478-1512 | an item lends its size iff fewer than two did before it and the total stays within 128 tokens |
| BridgeCompression.TruncateTextToTokenBudget | packages/application/src/use-cases/materialize-context.ts:830-857 | a prefix of the trimmed text, blank only for blank text, unchanged when it fits, otherwise within the budget or one character long |
| BridgeCompression.CompressBridgeSummaryContent | packages/application/src/use-cases/materialize-context.ts:1033-1222 | the nested loops over indexes, facts and variants compute `Compress` |
| BridgeCompression.CompressToFactsSucceedsIff | packages/application/src/use-cases/materialize-context.ts:1033-1222 | with facts, compression succeeds iff some variant of the top-ranked fact fits |
| BridgeCompression.CompressWithinLimit | packages/application/src/use-cases/materialize-context.ts:1033-1222 | whatever is returned costs at most the limit, and its token count is that of its content unless the summary was kept whole |
| BridgeCompression.CompressPrintsEvidence | packages/application/src/use-cases/materialize-context.ts:1033-1222 | the content lists distinct facts in index order, the top-ranked one among them, under at most the base line |
| BridgeCompression.CompressIsMaximal | packages/application/src/use-cases/materialize-context.ts:1150-1222 | when printing more never costs fewer tokens, no fact left out fits beside the slice in any rendering |
| CompressionLaws.FullLineIs | packages/application/src/use-cases/materialize-context.ts:766-792 | a full line names prefix, date, id, speaker, fact and anchors, each where known and asked for |
| CompressionLaws.FirstVariantIsMostComplete | packages/application/src/use-cases/materialize-context.ts:995-1018 | the rendering taken is the most complete one that fits: with date, else without date, else without anchors, else minimal |
| CompressionLaws.BestFactIs | packages/application/src/use-cases/materialize-context.ts:1090-1133 | the best fact has the highest score, then the most cues, then the most direct relevance, then comes first |
| CompressionLaws.SelectionInTurn | packages/application/src/use-cases/materialize-context.ts:1150-1222 | the best fact in its most complete rendering that fits under the base line or alone, the base line kept iff it fits too, and each further fact in its most complete rendering that fits beside those before it |
| CompressionLaws.SupportAddedInTurn | packages/application/src/use-cases/materialize-context.ts:1183-1212 | one step of the loop: the fact is added in its most complete fitting rendering, or left out because none fits |
| CompressionLaws.SupportInOrder | packages/application/src/use-cases/materialize-context.ts:1183-1212 | under a monotone tokenizer, whenever a fact was added none considered earlier and left out would have fitted: the neighbours of the best fact first, then by relevance |
| CompressionLaws.CompressionIs | packages/application/src/use-cases/materialize-context.ts:1033-1222 | every outcome: nothing, whole, base line cut or not, or the selected facts with the evidence of the best one |
| CompressionLaws.SynopsisIs | packages/application/src/use-cases/materialize-context.ts:1068-1078 | the synopsis is the first line that is not boilerplate |
| CompressionLaws.BaseLineIs | packages/application/src/use-cases/materialize-context.ts:1060-1079 | the base line names the kind of the summary once, followed by its synopsis |
| CompressionLaws.TruncatedNoFurther | packages/application/src/use-cases/materialize-context.ts:830-857 | a text is cut in proportion and then by tenths at words, stopping at the first cut that fits |
| BridgeSelection.MaterializeBridgeSummarySelection | packages/application/src/use-cases/materialize-context.ts:1551-1665 | computes `Materialize`, and the body fits beside the pinned items on every return path |
| BridgeSelection.MaterializedFits | packages/application/src/use-cases/materialize-context.ts:1551-1665 | every materialized body costs at most the last fit budget |
| BridgeSelection.MaterializeFailsIff | packages/application/src/use-cases/materialize-context.ts:1551-1665 | for every selection budget, 0 included: a candidate is given up iff the pinned items leave nothing, or it neither fits whole nor compresses to any limit tried |
| BridgeSelection.ChooseBridgeSummaryCandidate | packages/application/src/use-cases/materialize-context.ts:1667-1778 | computes `Choose`: a ranked candidate not yet in context whose body fits beside the pinned items |
| BridgeSelection.ChosenIsViable | packages/application/src/use-cases/materialize-context.ts:1667-1778 | the chosen candidate is viable and its body is its own materialization |
| BridgeSelection.ChooseFailsIff | packages/application/src/use-cases/materialize-context.ts:1667-1778 | exactly when a hint is left without a bridge |
| BridgeSelection.FittingCandidatePassedOver | packages/application/src/use-cases/materialize-context.ts:1717-1778 | with the room and scores of a five-token request, a candidate that fits is passed over |
| ChoiceLaws.BodyOfCandidate | packages/application/src/use-cases/materialize-context.ts:1551-1665 | every outcome: sliced for its evidence, whole if preferred, else compressed to the preferred size, else to the largest budget that works, else whole if it fits |
| ChoiceLaws.PrimaryIs | packages/application/src/use-cases/materialize-context.ts:1690-1723 | the top candidate, unless it exceeds the preferred size while nearly as good ones do not: then the best of these |
| ChoiceLaws.ChosenAmong | packages/application/src/use-cases/materialize-context.ts:1667-1695 | the choice is made, as ranked, among the candidates not in context that fit whole beside the pinned items, or have facts, or find nothing pinned |
| ChoiceLaws.ChoiceIs | packages/application/src/use-cases/materialize-context.ts:1723-1778 | every outcome: an answer-bearing primary, else the strongest answer-bearing candidate close to the top, else a fitting primary, else the first remaining one that fits |
| WindowCoalescing.CoalesceWindows | packages/application/src/use-cases/materialize-context.ts:1291-1369 | the merge loop yields a finished coalescing of the windows of one hint |
| WindowCoalescing.MergeWindow | packages/application/src/use-cases/materialize-context.ts:1327-1357 | one merge step keeps separation, coverage and summaries |
| CoalescingLaws.CoalescingUnique | packages/application/src/use-cases/materialize-context.ts:1291-1369 | maximal runs, extreme scores, first order and event sets determine the windows |
| CoalescingLaws.CoalescingIgnoresOrder | packages/application/src/use-cases/materialize-context.ts:1291-1369 | permuted windows coalesce to the same result |
| CoalescingLaws.CoalescingIdempotent | packages/application/src/use-cases/materialize-context.ts:1291-1369 | coalesced windows are their own coalescing |
| CoalescingLaws.EveryEventOnce | packages/application/src/use-cases/materialize-context.ts:1251-1289 | for disjoint bundles the output holds the input events, each once |
| CoalescingLaws.TokensConserved | packages/application/src/use-cases/materialize-context.ts:1268-1289 | for disjoint bundles the token total is conserved |
| RetrievalCoalescing.CoalesceRawRetrievalContenders | packages/application/src/use-cases/materialize-context.ts:1291-1369 | bridges pass through, each hint is coalesced on its own, all in selection order |
| RetrievalCoalescing.CoalescingConservesEvents | packages/application/src/use-cases/materialize-context.ts:1291-1369 | over all hints no message is lost or repeated |
| RetrievalCoalescing.CoalescedIgnoresOrder | packages/application/src/use-cases/materialize-context.ts:1291-1369 | shuffling the contenders does not change the list |
| RetrievalCollection.CollectScope | packages/application/src/use-cases/materialize-context.ts:1780-1870 | the best unused message below the bridged summary gets a window of its own if it fits |
| RetrievalCollection.CollectRanked | packages/application/src/use-cases/materialize-context.ts:2433-2634 | the loop over ranked candidates computes `ConsiderAll`; anchors are counted on what is left of each bundle |
| RetrievalCollection.CollectAll | packages/application/src/use-cases/materialize-context.ts:2223-2650 | the loop over hints, each with its chosen bridge, computes `CollectFrom` |
| CollectionLaws.WindowBundle | packages/application/src/use-cases/materialize-context.ts:2461-2531 | a window cut out around a seed, without used ids, keeps the collection free of repetitions |
| CollectionLaws.RankedSteps | packages/application/src/use-cases/materialize-context.ts:2433-2634 | considering all candidates of a hint keeps that, and the limit on raw bundles |
| CollectionLaws.CollectedGathered | packages/application/src/use-cases/materialize-context.ts:2183-2650 | over all hints: no message or summary twice, none already in context, used ids exact, bundles sound, every bridge as large as its summary was fitted to, selection orders distinct |
| CollectionContents.HintCollects | packages/application/src/use-cases/materialize-context.ts:2223-2650 | what a hint adds: the window of the best unused message in the scope of its chosen summary, a bundle for each match or a reason why not, and the bridge iff the chosen summary is among the matches |
| CollectionContents.CollectedOrigins | packages/application/src/use-cases/materialize-context.ts:2223-2650 | everything collected stems from a match, a scope or the chosen summary, with their relevance, messages and size, and nothing next to a seed is left unused |
| RetrievalOrder.RetrievalOrderCycles | packages/application/src/use-cases/materialize-context.ts:1888-1922 | the comparator is not transitive: three bundles around single messages, scored as the retrieval pass scores them, in a cycle |
| RetrievalOrder.OrderedUnlessInverted | packages/application/src/use-cases/materialize-context.ts:1888-1922 | three units of positive score, bridges and bundles without tokens included, compare transitively unless a pair is inverted: a scoped bundle first although density, kind and selection order say otherwise |
| RetrievalOrder.CircleHasInvertedPair | packages/application/src/use-cases/materialize-context.ts:1888-1922 | every circle has an inverted pair, and bundles of both sources |
| RetrievalOrder.OneSourceIsTransitive | packages/application/src/use-cases/materialize-context.ts:1888-1922 | bundles of one source never cycle, whatever their sizes |
| RetrievalOrder.CycleIff | packages/application/src/use-cases/materialize-context.ts:1888-1922 | a scoped and a generic bundle of positive score cycle with some generic third iff the scoped one goes first although the other is denser, or as dense and found earlier with room between |
| ContextPacking.PackGreedily | packages/application/src/use-cases/materialize-context.ts:2736-2766 | fails iff the pinned units exceed the budget, otherwise the greedy pass |
| ContextPacking.PlaceAllSound | packages/application/src/use-cases/materialize-context.ts:2748-2766 | used is the sum of the kept units, hint counts count, limits hold, the budget holds, nothing kept is given up |
| ContextPacking.PlaceAllKeeps | packages/application/src/use-cases/materialize-context.ts:2748-2766 | only pinned and ranked units are kept, none more often than listed |
| ContextPacking.LeftOutUnits | packages/application/src/use-cases/materialize-context.ts:2748-2758 | a unit is left out only if its hint is full or it does not fit |
| PackingOrder.ContextServedInTurn | packages/application/src/use-cases/materialize-context.ts:2720-2766 | a unit is kept iff it is pinned or fits beside the kept units that come before it: pinned ones, retrieval by rank, then messages, then summaries, the latest first |
| PackingOrder.BridgesTriedByDensity | packages/application/src/use-cases/materialize-context.ts:2768-2771 | dropped bridges are tried from the densest on, the earlier selected first among equals |
| BridgeSwaps.FindVictim | packages/application/src/use-cases/materialize-context.ts:2778-2786 | the first raw bundle the bridge may replace within the budget |
| BridgeSwaps.CompressForSwap | packages/application/src/use-cases/materialize-context.ts:2797-2821 | the eager loop: the first bundle accepted, the size of the last success |
| BridgeSwaps.SwapInBridge | packages/application/src/use-cases/materialize-context.ts:2773-2833 | one dropped bridge: direct swap, compressed swap or nothing |
| BridgeSwaps.SwapInBridges | packages/application/src/use-cases/materialize-context.ts:2768-2833 | the whole swap phase computes `SwapAll` |
| BridgeSwaps.SwapShape | packages/application/src/use-cases/materialize-context.ts:2787-2833 | a swap exchanges one raw bundle of the hint for the bridge, or changes nothing |
| SwapChoices.WeakestFirstIs | packages/application/src/use-cases/materialize-context.ts:1924-1957 | raw bundles are looked at from the least specific on, then by anchors, overlap, density and selection order |
| SwapChoices.SwapIs | packages/application/src/use-cases/materialize-context.ts:2773-2833 | every outcome: with a full hint the weakest outranked bundle that leaves room goes; else the weakest of those the bridge can be compressed for, at the size for the strongest; else nothing changes |
| SwapLaws.SwapAllKeeps | packages/application/src/use-cases/materialize-context.ts:2768-2833 | through all swaps the books balance, hint counts and base units stay, no unit is kept twice |
| SwapLaws.SwapBudget | packages/application/src/use-cases/materialize-context.ts:2773-2833 | a direct swap stays in budget; a compressed swap overruns it by at most last accepted minus first accepted bundle; otherwise nothing changes |
| SwapLaws.SwapAllBudget | packages/application/src/use-cases/materialize-context.ts:2768-2833 | any number of swaps overruns by at most the spread of one hint |
| SwapLaws.OneRawPerHintKeepsBudget | packages/application/src/use-cases/materialize-context.ts:2768-2833 | no overrun with at most one kept unit per hint |
| SwapLaws.SwapWithinBudget | packages/application/src/use-cases/materialize-context.ts:2797-2833 | no overrun when stronger bundles are never larger |
| SwapSafety.FactsSucceedUpwards | packages/application/src/use-cases/materialize-context.ts:1033-1222 | a summary with facts that compresses to a limit compresses to every larger one |
| SwapSafety.SwapSafeIff | packages/application/src/use-cases/materialize-context.ts:2773-2833 | for any number of bundles: a swap stays in budget for every ordinary summary and tokenizer iff a direct swap applies, or among the eligible bundles from any size on the strongest is no larger than the weakest |
| SwapSafety.OverrunAttained | packages/application/src/use-cases/materialize-context.ts:2797-2833 | when all bundles are eligible and the strongest is larger than the weakest, some ordinary summary overruns by exactly the difference |
| SwapSafety.TwoBundlesSafeIff | packages/application/src/use-cases/materialize-context.ts:2797-2833 | with two eligible bundles below the limit: safe for every summary and tokenizer whatsoever iff the stronger one is no larger |
| FittedSwaps.FactsAreSteady | packages/application/src/use-cases/materialize-context.ts:1033-1222 | a summary with facts that compresses to a size compresses to every limit from that size on, when no line costs more than its text |
| FittedSwaps.FittedSwapSafeIff | packages/application/src/use-cases/materialize-context.ts:2773-2833 | for a bridge of the size its summary was fitted to, within what the room prefers: safe for every steady summary and tokenizer iff a direct swap applies, or among the eligible bundles from any size up to the shortfall on the strongest is no larger than the weakest |
| FittedSwaps.SafeInEveryRoomIff | packages/application/src/use-cases/materialize-context.ts:2773-2833 | for any size: the same over all rooms, and the condition is exact |
| FittedSwaps.FittedSafe | packages/application/src/use-cases/materialize-context.ts:2773-2833 | for any room and size, that condition keeps the swap in budget |
| OverrunExample.OverrunReachable | packages/application/src/use-cases/materialize-context.ts:2082-2942 | end to end: a well-formed request with 60 tokens available, sorted by the comparator itself, whose context costs 70 |
| PackedUnits.RankedPartition | packages/application/src/use-cases/materialize-context.ts:2720-2734 | pinned and ranked units are all the units |
| PackedUnits.Accounted | packages/application/src/use-cases/materialize-context.ts:2835-2856 | whatever is counted, kept and dropped units add up to all units |
| MaterializedContext.PinnedUnitsFit | packages/application/src/use-cases/materialize-context.ts:2740-2746 | once trimming succeeded, the second budget error cannot occur |
| MaterializedContext.CountDropped | packages/application/src/use-cases/materialize-context.ts:2838-2855 | the counts of the units not kept |
| MaterializedContext.Materialize | packages/application/src/use-cases/materialize-context.ts:2082-2942 | a budget error iff the available budget is negative or the pinned items exceed the base budget; otherwise the context of the trimmed, collected, coalesced, packed and swapped parts |
| PackedLaws.SwappedBase | packages/application/src/use-cases/materialize-context.ts:2720-2833 | swaps keep exactly the base units the greedy pass kept, all pinned ones among them |
| ContextLaws.ContextSound | packages/application/src/use-cases/materialize-context.ts:2720-2836 | reported budget is the cost of the kept units; in order; no unit twice; every pinned item in; no hint over its limit |
| ContextLaws.ContextBudget | packages/application/src/use-cases/materialize-context.ts:2740-2833 | the available budget is exceeded by at most the spread of the kept bundles |
| ContextLaws.ContextBudgetLimitOne | packages/application/src/use-cases/materialize-context.ts:2740-2833 | and never when every hint asks for at most one result |
| ContextLaws.NothingLost | packages/application/src/use-cases/materialize-context.ts:2838-2856 | kept plus dropped messages are the context messages plus the retrieved ones; likewise summaries |
| ContextLaws.TrimmedIffDropped | packages/application/src/use-cases/materialize-context.ts:2857-2859 | the trimmed flag is set iff a message or summary was dropped |
| ContextLaws.AddedMessagesExact | packages/application/src/use-cases/materialize-context.ts:2869-2936 | the reported retrieved messages are those in the kept bundles |
| ContextLaws.AddedSummariesExact | packages/application/src/use-cases/materialize-context.ts:2877-2940 | the reported retrieved summaries are the kept bridges |
| ContextLaws.NoMessageTwice | packages/application/src/use-cases/materialize-context.ts:2183-2196 | the final context never holds a message twice |
| ContextLaws.NoSummaryTwice | packages/application/src/use-cases/materialize-context.ts:2167-2175 | nor a summary twice |
| BaseContext.BaseShare | packages/application/src/use-cases/materialize-context.ts:2090-2160 | what is available, the fifth of it kept back for hints, the budget of the context, and the preferred size of bridges |
| BaseContext.NothingRetrieved | packages/application/src/use-cases/materialize-context.ts:2082-2942 | without hints materializing is trimming to all that is available, with nothing added and nothing else dropped |
| Ledger.AppendLedgerEvents.Execute | packages/application/src/use-cases/append-ledger-events.ts:136-269 | result, ledger, compaction request and published ids as functions of the old state, errors included |
| AppendLaws.TakenInIff | packages/application/src/use-cases/append-ledger-events.ts:136-186 | an append is taken in iff the conversation exists, there is something to append and no event carries its key |
| AppendLaws.TakenIn | packages/application/src/use-cases/append-ledger-events.ts:188-251 | each new event has role, content, tokens, time and metadata of the one given, tagged with key and digest, and the context grows by the given tokens |
| AppendLaws.AnnouncedIds | packages/application/src/use-cases/append-ledger-events.ts:209-210 | the ids announced are those of the new events |
| AppendLaws.NotTakenIn | packages/application/src/use-cases/append-ledger-events.ts:136-186 | otherwise nothing changes and the answer is the error, nothing, or the events that carry the key |
| AppendLaws.ContextCost | packages/application/src/use-cases/append-ledger-events.ts:188-214 | after every run the context costs what it did before plus the tokens taken in, which is what the new events cost |
| LedgerLaws.AppendOnly | packages/application/src/use-cases/append-ledger-events.ts:188-214 | over every run: sequence numbers without gaps, nothing written is changed or removed |
| LedgerLaws.LaterCall | packages/application/src/use-cases/append-ledger-events.ts:164-186 | a later call with the key replays the block for the same payload, is rejected otherwise, and changes nothing |
| LedgerLaws.FirstWriterWins | packages/application/src/use-cases/append-ledger-events.ts:136-251 | over every run a key owns one contiguous block: the events of its first writer, once, in order |
| LedgerLaws.RetryReturnsOriginal | packages/application/src/use-cases/append-ledger-events.ts:164-186 | a retry at any later time returns the original events; any other payload conflicts |
| LedgerLaws.TrustedIffNoForgery | packages/application/src/use-cases/append-ledger-events.ts:65-93 | every event with a key was written under it iff no caller writes the reserved field by hand |
| LedgerLaws.ForgeryLocksKey | packages/application/src/use-cases/append-ledger-events.ts:65-121 | one forged event turns the first honest writer away |
| LedgerLaws.OneRequestPerCrossing | packages/application/src/use-cases/append-ledger-events.ts:188-244 | appends request a soft compaction exactly once, when they carry the context over the threshold |
| Continuity.RecordContinuity.Execute | packages/application/src/use-cases/record-continuity.ts:53-119 | answer and ledger as functions of the old ledger; the write-failed error cannot occur |
| Continuity.MarkContinuityRecord.Execute | packages/application/src/use-cases/mark-continuity-record.ts:15-33 | marking is recording the marker |
| RecordLaws.RecordWritten | packages/application/src/use-cases/record-continuity.ts:53-100 | a fresh record is one event with the formatted text, priced by its words, at the given time, else the time of recording unless it has a key |
| RecordLaws.RecordingIs | packages/application/src/use-cases/record-continuity.ts:53-119 | the answer: the first thing that is wrong, or the record as given with id and time of its event and the new context cost |
| RecordLaws.WordsAreCounted | packages/application/src/use-cases/record-continuity.ts:35-38 | a text costs as many tokens as there are places where a word begins |
| RecordLaws.SameRecordIff | packages/application/src/use-cases/record-continuity.ts:62-62 | a record is identified by its key, or else by kind and title in lower case |
| RecordLaws.MarkReadFields | packages/application/src/use-cases/mark-continuity-record.ts:15-33 | a mark is read back with its status, its target as related and superseded, and its successor |
| ContinuityLaws.TitleReadBack | packages/application/src/use-cases/get-current-state.ts:159-179 | a one-line title and the content are read back |
| ContinuityLaws.BrokenTitle | packages/application/src/use-cases/get-current-state.ts:159-179 | a title with a line break is not |
| ContinuityLaws.ParseContentIs | packages/application/src/use-cases/get-current-state.ts:159-179 | title and content are told apart exactly in a text with a heading of its kind and an empty line after it; any other text is both |
| ContinuityLaws.SanitizedSame | packages/application/src/use-cases/get-current-state.ts:133-157 | reading keeps a provenance iff it has no empty list, blank string or number out of range |
| ContinuityLaws.StoredRecordRead | packages/application/src/use-cases/get-current-state.ts:181-224 | what is read from the stored event of any record |
| ContinuityLaws.RoundTripIff | packages/application/src/use-cases/record-continuity.ts:53-119 | the record is read back iff its id is not blank, its title has one line, no id it names is blank and its provenance is well formed |
| ContinuityLaws.RecordedReadsBack | packages/application/src/use-cases/record-continuity.ts:77-119 | so the returned record is the one read back from the ledger under exactly these conditions |
| ContinuityLaws.ReplayedReadsBack | packages/application/src/use-cases/record-continuity.ts:93-119 | a replayed write returns the record of the first event, which is read back under the same conditions |
| CurrentState.CollectSuppressions | packages/application/src/use-cases/get-current-state.ts:262-283 | a suppression for each marker and each record it ends |
| CurrentState.ActiveIsDeclarative | packages/application/src/use-cases/get-current-state.ts:285-295 | a record is active iff its status is and no later record ends it |
| CurrentState.GetCurrentState | packages/application/src/use-cases/get-current-state.ts:255-330 | every bucket and both counts, from the declarative rule |
| ReplayLaws.StateIsReplay | packages/application/src/use-cases/get-current-state.ts:262-302 | the active records are those a left-to-right replay leaves alive |
| ReplayLaws.ActiveRecordJoins | packages/application/src/use-cases/get-current-state.ts:262-302 | an active record ends what it supersedes and nothing else, and joins the active ones |
| ReplayLaws.OtherRecordEnds | packages/application/src/use-cases/get-current-state.ts:262-302 | any other record ends what it supersedes or relates to and does not join |
| ReplayLaws.LedgerStateIsReplay | packages/application/src/use-cases/get-current-state.ts:255-302 | after every run of appends the records stand in sequence order and the active ones are those a replay leaves alive |
| ReplayLaws.BucketsPartition | packages/application/src/use-cases/get-current-state.ts:303-326 | each visible record is in the bucket of its kind and in no other |
| ReplayLaws.BucketContents | packages/application/src/use-cases/get-current-state.ts:309-326 | buckets are newest first, next steps oldest first, cut at the limit |
| ReplayLaws.MarkDeactivates | packages/application/src/use-cases/mark-continuity-record.ts:15-33 | a fresh mark ends all earlier records with the id and no others, unless its key is blank |
| ReplayLaws.MarkTakesEffect | packages/application/src/use-cases/mark-continuity-record.ts:15-33 | on any gap-free store: if the ledger takes the mark in under a key that is not blank, the active records are those before without the marked id; otherwise they stay the same |
| ReplayLaws.RevivedByRecording | packages/application/src/use-cases/get-current-state.ts:285-295 | a record that was ended stays ended, and a later record with its id is alive |
| Handoffs.CreateHandoff.Execute | packages/application/src/use-cases/create-handoff.ts:69-105 | validation before any write, then the script of records in order up to the first failure |
| HandoffLaws.DerivedKeysDiffer | packages/application/src/use-cases/create-handoff.ts:94-96 | the keys of the records of one handoff are distinct |
| HandoffLaws.ClockFree | packages/application/src/use-cases/record-continuity.ts:63-65 | a keyed record is the same append whatever the clock reads |
| HandoffLaws.EachOnceInOrder | packages/application/src/use-cases/create-handoff.ts:69-105 | after any interleaving of attempts, each crashing anywhere, and of other callers: the records up to the furthest attempt, once each, in order |
| HandoffLaws.HandoffWrittenOnce | packages/application/src/use-cases/create-handoff.ts:69-105 | once one attempt got through: exactly one event per key, with its text, in script order |
| HandoffTexts.HandoffRead | packages/application/src/use-cases/create-handoff.ts:28-57 | reading the text of a handoff finds each of its nine lists under the heading of that list |
| HandoffRecords.HandoffReadBack | packages/application/src/use-cases/create-handoff.ts:73-80 | the handoff is read back from the ledger as an active record with its goal, lists and provenance |
| HandoffRecords.StepReadBack | packages/application/src/use-cases/create-handoff.ts:84-97 | each next step is read back as an active record with its importance and its own provenance or that of the handoff |
| HandoffRecords.ValidatedFirst | packages/application/src/use-cases/create-handoff.ts:69-105 | once a handoff is complete only the ledger can turn one of its records away |
| HandoffLaws.CallIsAttempt | packages/application/src/use-cases/create-handoff.ts:69-105 | what one call does is one attempt of the crash-and-retry system, cut short where a write fails |
| HandoffLaws.UnkeyedWritesRepeat | packages/application/src/use-cases/create-handoff.ts:69-105 | without a key every retry writes again |
| OperatorSubmission.LlmMap.Execute | packages/application/src/use-cases/llm-map.ts:89-222 | validation, unknown conversation, key replay or conflict, or a run created with one pending task per item |
| OperatorSubmission.RunStarted | packages/application/src/use-cases/llm-map.ts:89-222 | a new key or none starts a run over the items, answered with its status, and leaves other runs and keys alone |
| OperatorSubmission.RunKnown | packages/application/src/use-cases/llm-map.ts:89-222 | a known key starts nothing and is answered with its run, if that is the one submitted |
| OperatorSubmission.KeyNamesFirst | packages/adapters/src/storage/in-memory/in-memory-operator-execution-store.ts:150-165 | over every run a key names the run of its first submission |
| OperatorSubmission.ResubmittedUnderKey | packages/adapters/src/storage/in-memory/in-memory-operator-execution-store.ts:150-165 | the same input under the key gives the same run, any other conflicts, and nothing changes |
| OperatorSubmission.HandlesWithinCreations | packages/application/src/use-cases/finalize-operator-run.ts:196-241 | a run has at most one handle event per creation, one fewer while it is not finalized |
| OperatorSubmission.SecondHandleIff | packages/adapters/src/storage/in-memory/in-memory-operator-execution-store.ts:150-229 | a submission lets a finalized run append a second handle iff it has items and no known key |
| OperatorSubmission.SecondHandle | packages/adapters/src/storage/in-memory/in-memory-operator-execution-store.ts:167-229 | any run with items, submitted again without a key after it finished, gets a second handle |
| OperatorStore.OperatorExecutionStore.ClaimTaskLease | packages/adapters/src/storage/in-memory/in-memory-operator-execution-store.ts:254-318 | the first expired task, else the first open one the concurrency limit admits, becomes running with one more attempt |
| OperatorStore.OperatorExecutionStore.RecordTaskSuccess | packages/adapters/src/storage/in-memory/in-memory-operator-execution-store.ts:320-344 | the task is overwritten, the run status derived anew |
| OperatorStore.OperatorExecutionStore.RecordTaskFailure | packages/adapters/src/storage/in-memory/in-memory-operator-execution-store.ts:346-368 | likewise |
| OperatorStore.OperatorExecutionStore.MarkTaskRetryableFailure | packages/adapters/src/storage/in-memory/in-memory-operator-execution-store.ts:370-392 | likewise |
| OperatorTiming.ClaimIs | packages/adapters/src/storage/in-memory/in-memory-operator-execution-store.ts:254-318 | a claim gets the first task whose lease ran out, else the first open one that waits for nothing and is within the limit, else none |
| OperatorTiming.StatusIs | packages/adapters/src/storage/in-memory/in-memory-operator-execution-store.ts:99-122 | the status of a run in terms of its tasks |
| OperatorTiming.FailureShown | packages/adapters/src/storage/in-memory/in-memory-operator-execution-store.ts:124-141 | after every change a run shows the failure of its first failed task, or what it showed before |
| OperatorFinalization.FinalizeOperatorRun.Execute | packages/application/src/use-cases/finalize-operator-run.ts:140-259 | run, handle events and answer as a function of the old state; stages move one step at a time |
| OperatorFinalization.StatusesAgree | packages/application/src/use-cases/finalize-operator-run.ts:96-107 | the store and the finalizer derive the same status once all tasks are terminal |
| OperatorFinalization.FailedRunIff | packages/application/src/use-cases/finalize-operator-run.ts:96-107 | a finalized run is called failed iff it has items and all of them failed, completed iff none did |
| OperatorFailures.UnsuccessfulEntry | packages/application/src/use-cases/finalize-operator-run.ts:43-70 | a task without success is published as not retryable, with its own failure and attempt or an unknown one |
| OperatorFailures.PublishedErrors | packages/application/src/use-cases/finalize-operator-run.ts:43-70 | for every reachable run: each published error is a failure recorded for that very item |
| OperatorFailures.SummaryIsFirstError | packages/application/src/use-cases/finalize-operator-run.ts:222-259 | the failure summary is the error of the first failed entry |
| OperatorFailures.HandleIs | packages/application/src/use-cases/finalize-operator-run.ts:196-221 | the handle names status and results and counts the items and the failed ones |
| OperatorFinalization.HalfwayIsStuck | packages/application/src/use-cases/finalize-operator-run.ts:174-195 | a half-committed finalization could never be completed |
| OperatorRuns.ExecuteOperatorTask.Execute | packages/application/src/use-cases/execute-operator-task.ts:149-214 | claim, generate, record, and finalize unless the task will be retried |
| OperatorTiming.OutcomeIsRecorded | packages/application/src/use-cases/execute-operator-task.ts:384-419 | what is recorded for an output, a failure to be retried and a final failure, other tasks untouched |
| OperatorTiming.RetryWaits | packages/application/src/use-cases/execute-operator-task.ts:394-406 | a task put back is open, not claimed before the backoff is over, and claimable from then on within the limit |
| OperatorTiming.RetryNotEarly | packages/application/src/use-cases/execute-operator-task.ts:394-406 | under every interleaving it is not claimed earlier unless another execution of it is recorded |
| OperatorTiming.LeaseRespected | packages/adapters/src/storage/in-memory/in-memory-operator-execution-store.ts:299-318 | a claimed task is left to its worker for the whole lease unless a result is recorded |
| OperatorTiming.DeadRecordNothing | packages/application/src/use-cases/execute-operator-task.ts:149-214 | a worker that died changes nothing any more |
| OperatorTiming.LimitKept | packages/adapters/src/storage/in-memory/in-memory-operator-execution-store.ts:287-297 | starting a task never leads to more valid leases than allowed |
| OperatorLaws.DurableMap | packages/application/src/use-cases/execute-operator-task.ts:149-214 | under every interleaving a finalized run has one entry per item, in order, successes generated for their items, and one matching handle |
| OperatorLaws.PublishedForGood | packages/application/src/use-cases/finalize-operator-run.ts:145-259 | after finalization no interleaving changes stage, artifact or handles |
| OperatorLaws.FinalizeTwice | packages/application/src/use-cases/finalize-operator-run.ts:145-259 | finalizing again is a no-op |
| OperatorLaws.EmptyRunPublishesNothing | packages/application/src/use-cases/llm-map.ts:174-197 | a run without items never refers to an artifact and never gets a handle |
| OperatorLeases.ResultsAgree | packages/application/src/use-cases/finalize-operator-run.ts:96-171 | if no live worker loses its lease, status and artifact of a finalized run agree with its tasks |
| OperatorLeases.FirstResultWinsIff | packages/adapters/src/storage/in-memory/in-memory-operator-execution-store.ts:254-392 | a claim preserves the first terminal result of every task, for all continuations without another take-over, iff it takes over no task still being executed |
| OperatorLeases.SettledForGoodIff | packages/adapters/src/storage/in-memory/in-memory-operator-execution-store.ts:124-137 | status and artifact of a finalized run agree with its tasks under all continuations iff no execution is under way |
| OperatorLeases.FinalizationSettlesIff | packages/application/src/use-cases/finalize-operator-run.ts:162-259 | for every reachable run: finalizing settles it, for good iff every worker was done |
| OperatorLeases.StatusDrifts | packages/adapters/src/storage/in-memory/in-memory-operator-execution-store.ts:99-137 | a finalized run whose status reads pending again |
| OperatorAttempts.AttemptsBounded | packages/application/src/use-cases/execute-operator-task.ts:384-419 | under every interleaving a task has at most maxRetries + 1 attempts, not counting reclaimed leases |
| OperatorAttempts.ClaimsAreAttempts | packages/adapters/src/storage/in-memory/in-memory-operator-execution-store.ts:254-298 | under every interleaving the attempts of all tasks add up to the claims that found one |
| OperatorAttempts.ClaimsBounded | packages/application/src/use-cases/execute-operator-task.ts:384-419 | any number of workers, interleaved in any way, claim at most maxRetries + 1 times per item, not counting reclaimed leases |
| OperatorAttempts.ExecutionMeasure | packages/application/src/use-cases/execute-operator-task.ts:384-419 | each execution uses up remaining attempts |
| OperatorAttempts.FreshMeasure | packages/application/src/use-cases/execute-operator-task.ts:391-393 | fresh tasks have maxRetries + 1 attempts each |
| OperatorAttempts.ExecutionCoherent | packages/application/src/use-cases/execute-operator-task.ts:187-214 | executing one task leaves no run unfinalized whose tasks are all terminal |
| OperatorAttempts.PollLoop.Drain | apps/operator-worker/src/poll-loop.ts:35-41 | draining ends with nothing claimable, after at most as many executions as attempts remained, and with the run finalized if all its tasks are terminal; if nobody else was at work, every task is terminal or waits for its retry; a fresh run takes at most maxRetries + 1 executions per item |
| OperatorResults.ParseInlineResults | packages/application/src/use-cases/get-operator-run.ts:22-49 | no results without an artifact, none over the byte limit, otherwise the decoded lines by item |
| OperatorResults.ResultsRoundTrip | packages/application/src/use-cases/finalize-operator-run.ts:72-94 | reading the written lines gives the normalized entries, for every list |
| OperatorResults.EntriesReadBack | packages/application/src/use-cases/finalize-operator-run.ts:72-94 | item by item the same entry is read back, its error never as retryable |
| OperatorResults.PublishedReadBack | packages/application/src/use-cases/get-operator-run.ts:45-48 | what the finalizer publishes is read back exactly |
| TokenF1.CountOverlap | benchmarks/locomo/src/scorer.ts:296-309 | the counting loops give the size of the multiset intersection |
| TokenF1.F1Score | benchmarks/locomo/src/scorer.ts:288-318 | the score is twice the overlap over the sum of the lengths |
| TokenF1.DiceLaws | benchmarks/locomo/src/scorer.ts:288-318 | symmetric, between 0 and 1; 1 iff the tokens are the same, 0 iff none is shared |
| RoundRobin.SelectRoundRobinByCategory | benchmarks/locomo/src/config.ts:1051-1098 | everything if it is not more than asked for, otherwise the first turns of the categories |
| RoundRobin.SelectionIsFair | benchmarks/locomo/src/config.ts:1072-1095 | a first part of each category, and a category behind by more than one is used up |
| RoundRobin.SelectionSize | benchmarks/locomo/src/config.ts:1051-1098 | as many as asked for or available, none repeated |

## Left out

- Lexical scoring, stop words, anchors, fact parsing, query expansion and search: scores, counts and parsed facts are data.
- The tie-break by localized comparison of ids: tied elements keep their order.
- Packing units are values told apart by their order; a bridge compressed for a swap is a resized copy, so the new text of its message and aliasing between units are not captured.
- Products with 0.2 and 0.9 in floating point are the integer division by 5 and the comparison with nine tenths; JavaScript strings are sequences of characters, not of UTF-16 units.
- The compaction triggered before materializing, scope validation, artifact references, the system preamble, diagnostics and published events of materialization.
- HandoffLaws.HandoffWrittenOnce: assumes that other callers neither use the derived keys nor forge them.
- LedgerLaws.FirstWriterWins: assumes that the key is not forged by callers without a key; the operator finalizer, which writes its handle event past this use case under a key of its own, is not one of its callers.
- Context projection items and event ids skipped as duplicates by the ledger store: ids are unique here.
- Several runs in one store: they only change which claimable task a worker picks, and every law holds for any pick times.
- The input artifact of a submission and its loading: the items of a run are the submitted ones.
- Lease owners, time stamps and the task counters stored on a run, which are recomputed from the tasks at every write.
- Agentic child conversations and their bootstrap, which may repeat after a crash.
- FittedSwaps.FittedSwapSafeIff: for one room that prefers less than the size of the bridge the condition is only shown to be sufficient (`FittedSwaps.FittedSafe`); over all rooms it is exact for every size (`FittedSwaps.SafeInEveryRoomIff`).
- OperatorAttempts.PollLoop.Drain: one worker without others beside it; errors thrown by a generation end the loop and are the crash step of `OperatorRuns`.
- The retry claim for half-finalized runs, whose flag no code sets.
- The category dispatch and text normalization of the scorer: `TokenF1` starts from tokens.
- Grep paging and grouping, run compaction, the summary graph, recall for a task, transcript archiving, explorers, sessions, the tool server and configuration: lookups and formatting around the parts modelled here.
