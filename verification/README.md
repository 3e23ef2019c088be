# Choruz, modelled and proved in Dafny

Choruz lets people and coding agents work in shared conversations, improves the
guidance of agents by searching over recorded objectives, and replays approved
browser steps. This project models the parts of it where mistakes are hard to see
and proves what they promise, for all inputs and over whole runs.

* **The optimizer** (`Suites`, `Training`, `Scoring`, `Search`, `SearchSafety`,
  `SearchRuns`, `SearchIsolation`, `SearchLedger`, `SearchScores`, `SearchAnswers`,
  `SearchMachine`). A search keeps
  candidates, asks for rollouts and proposals one at a time, and may be saved and
  restored between any two calls. `Search` gives the search as functions on a state;
  `SearchSafety` and `SearchRuns` prove an invariant of every reachable state, budget
  safety and termination; `SearchIsolation` proves that promotion is earned on
  training cases and that test scores influence nothing but the final comparison;
  `SearchLedger` proves the accounting of model calls and the genealogy of
  candidates; `SearchAnswers` says what each call records, charges and answers.
  `SearchMachine` is the class with mutable fields and loops, proved to
  refine those functions.
* **The dataset** (`Corpus`, `Components`, `Curation`, `Splits`, `Sampling`,
  `HeldOut`, `Balance`, `TraceSuite`). Trace cases are grouped into connected components,
  anchored, assigned to splits and sampled into an evaluation suite.
* **Conversations in memory** (`EventLog`, `EventCursors`, `RecentIds`, `RateLimit`,
  `Conversations`, `ChatOps`, `ChatAnswers`, `ChatRuns`, `ChatState`). Event retention with two
  consumers, duplicate suppression, the rate limit, and who is a member of what.
  `ChatOps` gives the operations as functions, `ChatAnswers` says when each succeeds
  and what it changes, `ChatRuns` proves what every run of them
  keeps, and `ChatState` is the class that performs them in place.
* **Process scopes** (`ProcessScope`). Admission fencing and draining as a state
  machine over the steps of concurrent callers.
* **Browser workflows** (`Decisions`, `Workflow`). Runs against an arbitrary browser,
  decision provider and assistant.

`Text` holds string operations. Loops and in-place updates of the source are methods
and classes, each proved against a function; the theorems are about those functions.

Three things the source suggests without qualification hold only under a condition,
and the exact condition is proved:

* Removing stored trace cases can move a surviving case from training to test when a
  removed case cited a name outside the corpus (`Splits.DanglingReferenceMovesSplit`,
  `Splits.PruningKeepsSplitExactly`).
* Deleting a direct conversation leaves its index entry behind, so reopening it meets
  the internal error (`ChatRuns.ErasureDangles`, `Conversations.DeleteAgreesExactly`,
  `Conversations.DeleteResolvedExactly`).
* Moving a direct conversation into a workspace where the pair already has one breaks
  the index (`ChatRuns.OccupiedMoveHappens`, `Conversations.MoveAgreesExactly`).

## Model

| member | source | states |
|---|---|---|
| `SearchRuns.BudgetSafety` | crates/choruz-evaluation/src/optimization.rs:517-756 | For every valid setup and every sequence of requests and completions, however interleaved or refused: rollouts and proposals stay within their limits, until a winner is fixed enough rollouts remain for the final comparison on the test split, at most `maxMetricCalls + maxProposals` actions are ever handed out, and a request with nothing outstanding never fails |
| `SearchRuns.Run` | crates/choruz-evaluation/src/optimization.rs:643-890 | The search invariant (every rollout the stage needs is queued, outstanding or observed and nothing else is; batches are distinct training cases; budgets; test isolation) holds in every state reachable by any events |
| `SearchRuns.Drive` | crates/choruz-evaluation/src/optimization.rs:643-756 | Against any caller that answers each outstanding action acceptably, the search ends: the events it takes are one request and one answer per action and a last request, at most `maxMetricCalls + maxProposals` actions in all, and they lead to completion with nothing outstanding and all four application scores defined |
| `SearchRuns.CooperativeExists` | crates/choruz-evaluation/src/optimization.rs:785-890 | Such a caller exists, so driven searches are about something |
| `SearchRuns.NextActionKeeps` | crates/choruz-evaluation/src/optimization.rs:643-756 | A request keeps the invariant; it is refused without effect exactly while an action is outstanding, otherwise it reserves the action it returns or reports completion, and never fails |
| `SearchRuns.NextActionSteps` | crates/choruz-evaluation/src/optimization.rs:643-756 | A request charges exactly one call when it hands out an action and none otherwise, and never loses or alters a candidate or an observation |
| `SearchRuns.IssuedCounts` | crates/choruz-evaluation/src/optimization.rs:643-756 | Over a whole run the two call counters together equal the number of actions handed out: nothing is refunded and nothing is charged twice |
| `SearchRuns.CompletionFrees` | crates/choruz-evaluation/src/optimization.rs:785-890 | A recorded completion frees the outstanding action and changes no counter |
| `SearchRuns.CompleteIsScored` | crates/choruz-evaluation/src/optimization.rs:494-507 | At completion the baseline and the winner are fully measured on the validation and the test split |
| `SearchRuns.CanApplyMeans` | crates/choruz-evaluation/src/optimization.rs:509-515 | A finished search may be applied if and only if its winner is not the baseline and the winner is not worse than the baseline on the test split |
| `SearchRuns.TestOnlyAfterWinner` | crates/choruz-evaluation/src/optimization.rs:643-756 | Whenever a test rollout is queued, outstanding or observed, a winner is already fixed, has the best validation mean and lies on the validation frontier |
| `SearchRuns.WinnerIsFixed` | crates/choruz-evaluation/src/optimization.rs:643-756 | Once fixed, the winner, the candidate list and the number of proposals never change again in any continuation |
| `SearchRuns.ProposalsSeeTrainingOnly` | crates/choruz-evaluation/src/optimization.rs:814-835 | The material prepared for an outstanding proposal has one lesson per parent, and every example in it is a training case together with a recorded observation of that parent on that case |
| `SearchRuns.SetupExists` | crates/choruz-evaluation/src/optimization.rs:517-570 | A valid setup exists, so the theorems over runs are about something |
| `SearchAnswers.WinnerOnlyWhenExhausted` | crates/choruz-evaluation/src/optimization.rs:675-695 | No run stops early: in any state with a winner the proposals are used up, or four times as many rounds were begun, or another round with its validation would cut into the final comparison |
| `SearchAnswers.RoundsGoOn` | crates/choruz-evaluation/src/optimization.rs:675-712 | When a round is over, a new one begins if and only if proposals, rounds and rollouts for it and for the final comparison are left; otherwise a winner is fixed |
| `SearchAnswers.RoundDrawsNext` | crates/choruz-evaluation/src/optimization.rs:696-712 | A round works on the next window of the training order; across an epoch it takes the remainder first and goes on in the order reshuffled from the generator as the parents left it, skipping what it already has |
| `SearchAnswers.ParentsAreDrawn` | crates/choruz-evaluation/src/optimization.rs:698-708 | The first parent is the frontier member at the first draw modulo its size, the second the one at the next draw among all others, in frontier order |
| `SearchAnswers.RolloutsInOrder` | crates/choruz-evaluation/src/optimization.rs:707-711 | Queued rollouts run candidate by candidate, each over the cases in their order |
| `SearchAnswers.StartIsFresh` | crates/choruz-evaluation/src/optimization.rs:536-570 | A search begins with both seeds to validate, nothing spent, and the training cases shuffled from the configured seed, one in place of zero |
| `SearchAnswers.ReflectDecides` | crates/choruz-evaluation/src/optimization.rs:713-732 | A reflection is given up if and only if some parent has the full score throughout; otherwise exactly the instruction is to be revised or, every second time if teams evolve, the team |
| `SearchAnswers.QueueIsServed` | crates/choruz-evaluation/src/optimization.rs:650-672 | A request hands out the first queued rollout that is not both observed and cached, and skips exactly those before it |
| `SearchAnswers.NeverRepeatsCached` | crates/choruz-evaluation/src/optimization.rs:650-672 | With caching no request, however far it advances, hands out an observed rollout |
| `SearchAnswers.RequestCharges` | crates/choruz-evaluation/src/optimization.rs:655-671 | A request charges exactly for what it hands out: for a rollout the replay steps or one answer, one call for a judge and one per team member; for a proposal one call |
| `SearchAnswers.ReportRecords` | crates/choruz-evaluation/src/optimization.rs:785-812 | A report is recorded if and only if a rollout is outstanding, the texts are at most 16000 long and the score is between 0 and 1; then it is what is known of that rollout and nothing is changed for any other; otherwise nothing changes |
| `SearchAnswers.EveryObservationWasReported` | crates/choruz-evaluation/src/optimization.rs:785-812 | Every observation of a run carries the score, output and preflight text of one event of it, reported while that rollout was outstanding |
| `SearchAnswers.ReviseExactly` | crates/choruz-evaluation/src/optimization.rs:846-865 | Which texts are acceptable for a component, and the guidance each makes of its base: the text as instruction, or the decoded team, none for null or an empty one |
| `SearchAnswers.OfferRecords` | crates/choruz-evaluation/src/optimization.rs:837-890 | An acceptable text for an outstanding proposal becomes a candidate on trial, revised from the first parent, unless some candidate already has that instruction and team, in which case the round is over; anything else is refused without effect |
| `SearchAnswers.BriefIsComplete` | crates/choruz-evaluation/src/optimization.rs:814-835 | A proposer is shown the component asked for, the agent limit, whether it is a merge and, for each parent, its own guidance and for each batch case its input, check and latest observation |
| `SearchAnswers.BriefedExactly` | crates/choruz-evaluation/src/optimization.rs:814-830 | In any well-formed saved state a proposer is shown something if and only if a proposal is outstanding and all its cases are training cases |
| `SearchAnswers.OutcomeIsFourMeans` | crates/choruz-evaluation/src/optimization.rs:494-507 | The four application scores are the means of baseline and winner on validation and on test, each in its place |
| `SearchIsolation.PromotionIsEarned` | crates/choruz-evaluation/src/optimization.rs:733-751 | If a candidate other than the two seeds ever enters validation in a run, then at an earlier point of that run it was on trial and its training mean was positive and strictly above that of each of its parents |
| `SearchIsolation.NothingEnteredAtStart` | crates/choruz-evaluation/src/optimization.rs:517-570 | At the start only the two seeds are entered for validation |
| `SearchIsolation.SelectionIsBlindToTests` | crates/choruz-evaluation/src/optimization.rs:643-756 | Two runs that differ only in what was reported for test rollouts are answered the same throughout, so they are handed the same actions in the same order, and have the same candidates, the same winner and the same state outside those reports |
| `SearchScores.OutcomesInUnit` | crates/choruz-evaluation/src/optimization.rs:494-507 | In every run the four application scores, once defined, lie between 0 and 1, and the winner is not below the baseline on validation |
| `SearchScores.AlwaysInUnit` | crates/choruz-evaluation/src/optimization.rs:785-812 | Every score recorded in any run lies between 0 and 1 |
| `SearchScores.PerfectExactly` | crates/choruz-evaluation/src/optimization.rs:713-717 | A round is given up before its proposal if and only if some parent has the full score on every case of the batch |
| `Scoring.MeanInUnit` | crates/choruz-evaluation/src/optimization.rs:595-605 | Means of recorded scores lie between 0 and 1, and a mean is 1 if and only if every case is measured with the full score |
| `SearchLedger.CallsAreAccounted` | crates/choruz-evaluation/src/optimization.rs:655-671 | After any run each charged rollout is an observation or the outstanding one; the reserved model calls are exactly the proposals plus the calls of those rollouts, and never exceed `12 * maxMetricCalls + maxProposals`; every later candidate has one or two distinct earlier parents, valid guidance and the matching origin, and repeats no earlier guidance |
| `SearchLedger.ReviseKeepsValid` | crates/choruz-evaluation/src/optimization.rs:846-865 | A revision that is accepted is valid guidance and changes only the component asked for |
| `SearchLedger.OfferDescends` | crates/choruz-evaluation/src/optimization.rs:837-890 | Recording a proposal keeps the genealogy: parents precede their child, its origin matches their number, and no guidance occurs twice among the proposed |
| `SearchLedger.ReservedBound` | crates/choruz-evaluation/src/optimization.rs:655-671 | Twelve calls per charged rollout and one per proposal bound the reserved model calls in every accounted state |
| `SearchSafety.StartHolds` | crates/choruz-evaluation/src/optimization.rs:517-570 | A setup accepted by construction satisfies the search invariant |
| `SearchSafety.AdvanceKeeps` | crates/choruz-evaluation/src/optimization.rs:649-755 | One iteration of the request loop keeps the invariant and never reaches an internal error |
| `SearchSafety.DispatchKeeps` | crates/choruz-evaluation/src/optimization.rs:650-672 | Serving the queue, whether a rollout is cached or reserved, never fails and keeps the invariant |
| `SearchSafety.SelectWinnerKeeps` | crates/choruz-evaluation/src/optimization.rs:675-695 | When the budget is exhausted a winner always exists and the final comparison is queued for exactly it and the baseline |
| `SearchSafety.StartRoundKeeps` | crates/choruz-evaluation/src/optimization.rs:696-712 | A new round always finds parents on the frontier, a full batch and enough budget for its rollouts, the trial, its validation and the final comparison |
| `SearchSafety.AskProposalKeeps` | crates/choruz-evaluation/src/optimization.rs:713-732 | Reserving a proposal, or skipping a round whose parent is already perfect, keeps the invariant |
| `SearchSafety.JudgeTrialDecides` | crates/choruz-evaluation/src/optimization.rs:733-751 | A finished trial is promoted to validation if and only if its mean is positive and strictly above every parent's mean on the same batch, and nothing else changes |
| `SearchSafety.CompleteRolloutKeeps` | crates/choruz-evaluation/src/optimization.rs:785-812 | Reporting a rollout, in or out of turn and with any score, keeps the invariant |
| `SearchSafety.CompleteProposalKeeps` | crates/choruz-evaluation/src/optimization.rs:837-890 | Reporting a proposal, in or out of turn and with any text, keeps the invariant |
| `Search.AdvanceProgress` | crates/choruz-evaluation/src/optimization.rs:649-755 | Each loop iteration returns or strictly decreases the measure (rounds left, stage rank, queue length), which is why a request terminates |
| `Search.StartRoundGives` | crates/choruz-evaluation/src/optimization.rs:696-712 | A round has one or two distinct parents from the frontier, two exactly on a merging third round with a choice of parents, and a batch of the configured size of distinct training cases |
| `Search.PickParents` | crates/choruz-evaluation/src/optimization.rs:698-708 | One or two frontier members; two exactly when merging with more than one member, and then distinct |
| `Search.BestParent` | crates/choruz-evaluation/src/optimization.rs:741-744 | The largest mean among the measured parents, zero at least |
| `Search.CompletionsWellFormed` | crates/choruz-evaluation/src/optimization.rs:785-890 | Both completions keep the structural invariant of a stored search |
| `Scoring.Frontier` | crates/choruz-evaluation/src/optimization.rs:607-624 | Exactly the measured candidates that no other displaces, in ascending order |
| `Scoring.FrontierCovers` | crates/choruz-evaluation/src/optimization.rs:607-624 | Every fully measured candidate is matched or beaten on every case by some member of the frontier |
| `Scoring.DisplacesTransitive` | crates/choruz-evaluation/src/optimization.rs:607-624 | Displacement, with the earlier of two equals kept, is transitive |
| `Scoring.Best` | crates/choruz-evaluation/src/optimization.rs:682-687 | The earliest measured candidate of maximal mean; none only if none is measured |
| `Scoring.BestIsOnFrontier` | crates/choruz-evaluation/src/optimization.rs:682-687 | The candidate selected by mean is never dominated |
| `Scoring.LatestAppend` | crates/choruz-evaluation/src/optimization.rs:588-593 | A new observation replaces the earlier one of the same rollout and no other |
| `Scoring.AgreeBest` | crates/choruz-evaluation/src/optimization.rs:682-687 | Selection depends only on the scores of the given cases |
| `Scoring.AgreeFrontierUpto` | crates/choruz-evaluation/src/optimization.rs:607-624 | The frontier depends only on the scores of the given cases |
| `Suites.Cases` | crates/choruz-evaluation/src/optimization.rs:483-490 | Exactly the positions of a split, ascending |
| `Training.NextIsInjective` | crates/choruz-evaluation/src/optimization.rs:573-578 | The 64-bit generator step is injective, so no two states ever merge |
| `Training.NextUndone` | crates/choruz-evaluation/src/optimization.rs:573-578 | Every step of the 64-bit generator can be taken back by an explicit inverse |
| `Training.NextOfOne` | crates/choruz-evaluation/src/optimization.rs:573-578 | The successor of the smallest state, which fixes the order of the three shifts |
| `Training.Seed` | crates/choruz-evaluation/src/optimization.rs:545-546 | The configured seed, or one in place of zero |
| `Training.DrawCrosses` | crates/choruz-evaluation/src/optimization.rs:626-639 | Across an epoch a batch is the remainder of the old order followed by the cases not among it, in their new order up to the new cursor |
| `Training.NextNonzero` | crates/choruz-evaluation/src/optimization.rs:545-578 | The generator never reaches the absorbing zero state |
| `Training.ShuffleFromPermutes` | crates/choruz-evaluation/src/optimization.rs:580-586 | Shuffling permutes: nothing is lost, added or duplicated |
| `Training.ShuffleSettles` | crates/choruz-evaluation/src/optimization.rs:580-586 | Each pass fixes the last open position with the element drawn for it and leaves the settled ones alone |
| `Training.ShuffleIsFair` | crates/choruz-evaluation/src/optimization.rs:580-586 | A shuffled order has the same distinct elements |
| `Training.DrawIsFair` | crates/choruz-evaluation/src/optimization.rs:626-639 | A batch is full and duplicate-free; within an epoch it is the next window of the order, across an epoch boundary it begins with the whole remainder and goes on in a reshuffled order |
| `Training.TakeFreshKeeps` | crates/choruz-evaluation/src/optimization.rs:626-639 | Filling a batch never repeats a case and stops short only when the order is exhausted |
| `SearchMachine.Optimization.New` | crates/choruz-evaluation/src/optimization.rs:517-570 | Construction succeeds if and only if the setup is valid and then yields the specified start |
| `SearchMachine.Optimization.Random` | crates/choruz-evaluation/src/optimization.rs:573-578 | Updates the generator in place to the next state |
| `SearchMachine.Optimization.ShuffleOrder` | crates/choruz-evaluation/src/optimization.rs:580-586 | The in-place shuffle refines the specified one and resets the cursor |
| `SearchMachine.Optimization.Batch` | crates/choruz-evaluation/src/optimization.rs:626-639 | The loop draws the specified batch and leaves order, cursor and generator as specified |
| `SearchMachine.Optimization.NextAction` | crates/choruz-evaluation/src/optimization.rs:643-756 | The request loop over mutable fields terminates and refines the specified request in state and reply |
| `SearchMachine.Optimization.SelectWinnerNow` | crates/choruz-evaluation/src/optimization.rs:675-695 | The in-place selection refines the specified one, including its error |
| `SearchMachine.Optimization.StartRoundNow` | crates/choruz-evaluation/src/optimization.rs:696-712 | The in-place round start refines the specified one, including its error |
| `SearchMachine.Optimization.AskProposalNow` | crates/choruz-evaluation/src/optimization.rs:713-732 | The in-place reservation refines the specified one |
| `SearchMachine.Optimization.JudgeTrialNow` | crates/choruz-evaluation/src/optimization.rs:733-751 | The in-place judgement refines the specified one |
| `SearchMachine.Optimization.Dequeue` | crates/choruz-evaluation/src/optimization.rs:650-672 | Serving one queue entry in place refines the specified dispatch |
| `SearchMachine.Optimization.CompleteScoredRollout` | crates/choruz-evaluation/src/optimization.rs:785-812 | Recording a score in place refines the specified completion, errors included |
| `SearchMachine.Optimization.CompleteProposal` | crates/choruz-evaluation/src/optimization.rs:837-890 | Recording a proposal in place refines the specified completion, errors included |
| `Suites.ValidateSuite` | crates/choruz-evaluation/src/evaluation.rs:235-284 | Accepts exactly the valid suites: bounded, identifiers and inputs unique, all three splits present, each check valid |
| `Suites.ValidateTeam` | crates/choruz-evaluation/src/team.rs:38-60 | Accepts exactly the valid teams for the agent limit |
| `Corpus.RelatedSymmetric` | crates/choruz-evaluation/src/dataset.rs:175-193 | Relatedness is symmetric, by content and with anchors |
| `Corpus.RelatedExactly` | crates/choruz-evaluation/src/dataset.rs:175-193 | Two rows are related if and only if they share an anchor, the words of a non-blank input, a piece of evidence or a reviewed link, or one links the other |
| `Corpus.NormalizedExactly` | crates/choruz-evaluation/src/dataset.rs:176-176 | Normalized inputs are equal if and only if their words are |
| `Corpus.WordsSplit` | crates/choruz-evaluation/src/dataset.rs:176-176 | White space of any kind only separates words |
| `Corpus.CanonicalIgnoresOrder` | crates/choruz-evaluation/src/dataset.rs:152-153 | The canonical listing depends only on the set of rows |
| `Components.CaseGroupsAreComponents` | crates/choruz-evaluation/src/dataset.rs:152-173 | The groups are exactly the connected components of relatedness over the canonical rows, each in canonical order |
| `Components.GroupIsComponent` | crates/choruz-evaluation/src/dataset.rs:152-173 | A group is the set of all rows linked to any one of its members |
| `Components.ComponentsAreUnique` | crates/choruz-evaluation/src/dataset.rs:152-173 | Any two partitions into components have the same groups |
| `Components.GroupsIgnoreOrder` | crates/choruz-evaluation/src/dataset.rs:152-173 | Reordering the input rows does not change the groups |
| `Components.SameProblemSameGroup` | crates/choruz-evaluation/src/dataset.rs:152-193 | Rows that share an anchor, their words, evidence or a reviewed link are always in one group |
| `Components.AbsorbMerges` | crates/choruz-evaluation/src/dataset.rs:156-168 | The restarting scan ends with a merged group related to no remaining group |
| `Components.JoinKeeps` | crates/choruz-evaluation/src/dataset.rs:154-172 | Adding one row to a partition into components gives the partition of the larger set |
| `Components.ComputeGroups` | crates/choruz-evaluation/src/dataset.rs:152-173 | The nested loops compute the specified groups |
| `Curation.CurateReturns` | crates/choruz-evaluation/src/dataset.rs:202-237 | Curation returns, once each, exactly the anchored rows of the merged corpus that are to be persisted |
| `Curation.CurateReturnsExactly` | crates/choruz-evaluation/src/dataset.rs:226-234 | A row is returned if and only if it is an anchored row of the merged corpus and its reference was submitted or it is not stored as it is |
| `Curation.MergeHolds` | crates/choruz-evaluation/src/dataset.rs:203-216 | The merged corpus holds exactly the stored rows whose reference was not submitted and, for each submitted reference, its last change with the stored anchor, none if it was not stored: submitted anchors are never trusted |
| `Splits.AnchorsOnlyImprove` | crates/choruz-evaluation/src/dataset.rs:202-237 | Whatever is submitted, a stored row with an anchor, changed or not, has after curation that anchor or one preferred to it |
| `Curation.StoreIsCurated` | crates/choruz-evaluation/src/dataset.rs:202-237 | Storing what curation returns yields exactly every merged row stamped with the anchor of its component |
| `Curation.AnchorIsAnchor` | crates/choruz-evaluation/src/dataset.rs:220-225 | The anchor is the least name of the group by bucket, then lexicographically |
| `Curation.AnchorIsUnique` | crates/choruz-evaluation/src/dataset.rs:220-225 | A set of rows has at most one anchor |
| `Curation.CuratedIsSettled` | crates/choruz-evaluation/src/dataset.rs:202-237 | A curated store is settled: related rows share their anchor, and an anchor never comes after the name of a row that carries it |
| `Curation.SettledComponent` | crates/choruz-evaluation/src/dataset.rs:202-237 | In a settled store a component is exactly the rows sharing an anchor |
| `Curation.SettledNeedsNothing` | crates/choruz-evaluation/src/dataset.rs:202-237 | Curating a settled store again changes nothing |
| `Curation.PruningNeedsNoCuration` | crates/choruz-evaluation/src/dataset.rs:202-237 | After any rows of a curated store are removed, the survivors still need no curation |
| `Curation.CurateChanges` | crates/choruz-evaluation/src/dataset.rs:202-237 | The loops compute the specified curation |
| `Splits.BucketIsBucket` | crates/choruz-evaluation/src/dataset.rs:31-42 | The split of a group is the least bucket among all names it cites |
| `Splits.SplitIsBucket` | crates/choruz-evaluation/src/dataset.rs:31-42 | Every stored row has a split, the least bucket cited in its component |
| `Splits.SplitsMoveTowardTraining` | crates/choruz-evaluation/src/dataset.rs:31-42 | When rows are only added, curation and storing can move an existing row toward training, never away from it |
| `Splits.PruningKeepsSplits` | crates/choruz-evaluation/src/dataset.rs:31-42 | In a settled store in which every related reference names a stored row, removing rows never changes the split of a survivor, which is the bucket of its anchor |
| `Splits.PruningKeepsSplitExactly` | crates/choruz-evaluation/src/dataset.rs:31-42 | For any rows removed from a settled store, the split of a survivor stays the same if and only if some surviving row with its anchor cites a name of the least bucket cited by the rows with that anchor before |
| `Splits.PruningSafeExactly` | crates/choruz-evaluation/src/dataset.rs:31-42 | No removal whatsoever moves a survivor of a settled store if and only if each row itself cites a name of the least bucket cited among the rows with its anchor |
| `Splits.DanglingReferenceMovesSplit` | crates/choruz-evaluation/src/dataset.rs:31-42 | Counterexample to the unconditional claim: a settled corpus in which removing one row moves a survivor from training to test, because the removed row cited a name outside the corpus |
| `Sampling.SampleIsFair` | crates/choruz-evaluation/src/dataset.rs:44-101 | Every sampled case is the first usable member of a component whose members agree on the answer; no two come from one component; each split receives the smaller of its eligible components and the per-split cap |
| `Sampling.SampleIsComplete` | crates/choruz-evaluation/src/dataset.rs:44-101 | A split that is not filled up to its cap has a case of every component that falls in it, agrees on the answer and has a usable member |
| `Sampling.ConflictingExactly` | crates/choruz-evaluation/src/dataset.rs:195-198 | A group conflicts if and only if two of its members have different answers |
| `Sampling.PerSplit` | crates/choruz-evaluation/src/dataset.rs:54-54 | A quarter of the budget, rounded down, at least one and at most sixteen |
| `Balance.DealIsBalanced` | crates/choruz-evaluation/src/dataset.rs:56-96 | At every point of the dealing a category bin is at most one pick ahead of any other, unless the other has been dealt in full |
| `Balance.CategoryExactly` | crates/choruz-evaluation/src/dataset.rs:69-74 | Two cases are of one category if and only if task type, capability and structure agree or both are unclassified, for names without a slash |
| `Balance.KeyExactly` | crates/choruz-evaluation/src/dataset.rs:69-87 | Two picks share a bin if and only if their categories agree and both are held out or both are for training with the same difficulty |
| `Sampling.DealPermutes` | crates/choruz-evaluation/src/dataset.rs:88-96 | Dealing round-robin over the category bins loses, adds and repeats nothing |
| `Sampling.CappedCounts` | crates/choruz-evaluation/src/dataset.rs:97-101 | Capping takes exactly the smaller of what a split offers and the cap |
| `HeldOut.HeldOutIgnoresDifficulty` | crates/choruz-evaluation/src/dataset.rs:75-101 | Which validation and test cases are sampled, and in which order, does not depend on the measured difficulty, provided no difficulty label collides with the one reserved for held-out cases |
| `TraceSuite.SuiteFitsBudget` | crates/choruz-evaluation/src/dataset.rs:44-120 | For a drawn suite that validates, the seed validation and final comparison of a search fit the budget if and only if the budget is at least four |
| `TraceSuite.DrawnShows` | crates/choruz-evaluation/src/dataset.rs:97-118 | A drawn case has the answer and the split of its pick; held-out cases show the original input, and a training case its paraphrase if it has one |
| `TraceSuite.TrainingObjectives` | crates/choruz-evaluation/src/dataset.rs:14-29 | Exactly the rows of the curated store in agreeing components that fall in training |
| `TraceSuite.SamplesMatchObjectives` | crates/choruz-evaluation/src/dataset.rs:14-120 | A sampled case is a training case if and only if it is a training objective |
| `TraceSuite.FillBins` | crates/choruz-evaluation/src/dataset.rs:56-87 | The loop fills the specified bins in key order |
| `TraceSuite.DealBins` | crates/choruz-evaluation/src/dataset.rs:88-96 | The nested loops deal the specified order |
| `TraceSuite.TakeCapped` | crates/choruz-evaluation/src/dataset.rs:97-101 | The counting loop takes the specified prefix per split |
| `TraceSuite.MeasuredTraceSuite` | crates/choruz-evaluation/src/dataset.rs:44-120 | Returns the drawn suite if it validates and nothing otherwise |
| `ProcessScope.RunKeeps` | crates/choruz-agent-runtime/src/process_scope.rs:39-98 | Over every interleaving of admissions, releases, retirements and polls, the counter equals the live jobs, and no waiter is parked that has missed its wake-up |
| `ProcessScope.ClosedForGood` | crates/choruz-agent-runtime/src/process_scope.rs:39-83 | Once retired, a scope stays closed and in every continuation only loses jobs |
| `ProcessScope.DrainMeansEmpty` | crates/choruz-agent-runtime/src/process_scope.rs:85-98 | Once a drain has returned, no job is live then or ever after |
| `ProcessScope.DrainReturns` | crates/choruz-agent-runtime/src/process_scope.rs:88-98 | Once a retired scope is empty, a drain returns after at most three of its own polls, whatever else happens between them: no wake-up is lost |
| `ProcessScope.CancelReturns` | crates/choruz-agent-runtime/src/process_scope.rs:56-63 | Once a retirement has notified, a job waiting for cancellation returns after at most two of its own polls |
| `ProcessScope.KeysAreIndependent` | crates/choruz-agent-runtime/src/process_scope.rs:23-33 | Steps on other keys never affect a scope |
| `ProcessScope.StepsTakeEffect` | crates/choruz-agent-runtime/src/process_scope.rs:39-83 | An open scope admits, a live job is released, a retirement closes and then leaves no one waiting for cancellation unnotified |
| `ProcessScope.Scope.Begin` | crates/choruz-agent-runtime/src/process_scope.rs:40-50 | Admits and counts a job unless the scope is closed |
| `ProcessScope.Scope.Drop` | crates/choruz-agent-runtime/src/process_scope.rs:66-74 | Releases a job and notifies exactly when it was the last |
| `ProcessScope.Scope.Retire` | crates/choruz-agent-runtime/src/process_scope.rs:78-83 | Closes the scope and keeps its count |
| `RateLimit.Window.CheckWindow` | crates/choruz-application/src/rate_limit.rs:4-23 | The in-place check refines the specified one in entries and answer |
| `RateLimit.WindowsAreLimited` | crates/choruz-application/src/rate_limit.rs:4-23 | For any calls at non-decreasing times, every one-minute window contains at most the limit of admitted calls |
| `RateLimit.RunSpaced` | crates/choruz-application/src/rate_limit.rs:4-23 | The stored entries are the latest admitted calls, every admitted call no longer stored has left the window, and any `limit + 1` consecutive admissions span a window |
| `RateLimit.AdmittedExactly` | crates/choruz-application/src/rate_limit.rs:4-23 | For any calls at non-decreasing times, a call is admitted if and only if fewer than the limit were admitted in the minute before it |
| `RateLimit.RejectionsNeverDelay` | crates/choruz-application/src/rate_limit.rs:11-20 | Dropping all rejected calls from a history changes no admission: rejections do not extend the window |
| `RateLimit.RetryIsTight` | crates/choruz-application/src/rate_limit.rs:11-20 | The hinted wait, in whole milliseconds, reaches the expiry of the oldest entry and overshoots it by less than a millisecond; a later call is admitted if and only if that entry has expired |
| `EventLog.RunFaithful` | crates/choruz-application/src/lib.rs:139-180 | For every sequence of pushes, acknowledgements, webhook changes, delivery marks and renumberings: sequence numbers strictly increase and are never reused, the log is a suffix of all events pushed, at most fifty thousand long, and a missing event was passed by every consumer or displaced by that many newer ones |
| `EventLog.ConsumersSeeEverything` | crates/choruz-application/src/events.rs:43-88 | Listing above any cursor, unless it lies below what both consumers have passed, shows every event ever pushed above it except those the hard cap displaced |
| `EventLog.WebhooksMissNothing` | crates/choruz-application/src/events.rs:153-193 | After any history, every event ever pushed that a webhook asked for and has not passed is due to it, except those the hard cap displaced |
| `EventLog.DueOnlyWanted` | crates/choruz-application/src/events.rs:163-185 | A due delivery goes to the webhook's own address and secret and is a logged, unread event of a kind asked for |
| `EventCursors.AckIsLargest` | crates/choruz-application/src/events.rs:67-73 | After any run the polling cursor is the largest number ever acknowledged, zero if none was |
| `EventCursors.ProcessedAreDropped` | crates/choruz-application/src/events.rs:74-85 | Right after a push or an acknowledgement the log holds no event that both consumers have passed |
| `EventCursors.AckedAreNotListed` | crates/choruz-application/src/events.rs:43-65 | Polling without a cursor never shows an acknowledged event again |
| `EventCursors.UnackedAreListed` | crates/choruz-application/src/events.rs:43-65 | Polling without a cursor shows every event ever pushed that was not acknowledged, except those the hard cap displaced |
| `EventCursors.HookIsLargest` | crates/choruz-application/src/events.rs:129-136 | The webhook cursor is the largest of where polling stood when the webhook was last configured and what was marked as delivered since |
| `EventCursors.NoHookUnlessConfigured` | crates/choruz-application/src/events.rs:90-151 | There is a webhook if and only if one was configured |
| `EventCursors.NumberingIsTight` | crates/choruz-application/src/events.rs:32-41 | The last number in use is the largest number pushed or floor set, zero at first |
| `EventCursors.PushIsNumberedNext` | crates/choruz-application/src/lib.rs:147-161 | A pushed event is numbered exactly one above everything pushed and every floor set before |
| `EventCursors.OnePerMention` | crates/choruz-application/src/lib.rs:139-180 | Pushing to a list gives each principal one event per mention and leaves the unmentioned alone |
| `EventLog.EventService.PushEvent` | crates/choruz-application/src/lib.rs:139-180 | Each listed principal's log gets one event per mention, all other logs are untouched |
| `EventLog.EventService.PushOne` | crates/choruz-application/src/lib.rs:147-179 | Numbers, appends, collects and caps one log and no other |
| `EventLog.EventService.AckEvents` | crates/choruz-application/src/events.rs:67-88 | Raises the polling cursor, never lowers it, and collects only what both consumers have passed; an inactive principal changes nothing |
| `EventLog.EventService.SetEventWebhook` | crates/choruz-application/src/events.rs:90-151 | Configured exactly when allowed and the address is an http one; the webhook starts at the polling cursor with the caller's trimmed secret or the generated one |
| `EventLog.EventService.MarkWebhookDelivered` | crates/choruz-application/src/events.rs:195-208 | Raises the cursor of a configured webhook, never lowers it, and changes nothing else |
| `EventLog.EventService.EnsureEventSeqAtLeast` | crates/choruz-application/src/events.rs:32-41 | Raises the numbering to the given floor, never lowers it |
| `EventLog.EventService.ListEvents` | crates/choruz-application/src/events.rs:43-65 | The loop lists the events above the given or the polling cursor |
| `EventLog.EventService.PendingDeliveries` | crates/choruz-application/src/events.rs:159-185 | The loop lists exactly the unread events of the kinds one webhook asked for |
| `RecentIds.AcceptedAreSpread` | crates/choruz-application/src/state.rs:48-69 | In any sequence of insertions, equal accepted ids are more than ten thousand acceptances apart |
| `RecentIds.RepeatNeedsWindow` | crates/choruz-application/src/state.rs:48-69 | If an id is accepted twice, ten thousand other distinct ids were accepted in between |
| `RecentIds.JustSeen` | crates/choruz-application/src/state.rs:56-68 | Whatever came before, an id just seen is among the recent ones, so its immediate repeat is suppressed |
| `RecentIds.AcceptedWereSeen` | crates/choruz-application/src/state.rs:56-68 | Only ids that were seen are ever accepted |
| `RecentIds.RecentMessageIds.Insert` | crates/choruz-application/src/state.rs:56-68 | The set and queue answer exactly as if the last ten thousand accepted ids were searched |
| `RecentIds.InjectMessageWithEvent` | crates/choruz-application/src/messages.rs:17-42 | A message is announced to its conversation exactly when its id is not among the recent ones; a suppressed repeat changes no log |
| `Conversations.KeySymmetric` | crates/choruz-application/src/lib.rs:219-225 | The key of a pair does not depend on who opened the conversation |
| `Conversations.KeyIsUnique` | crates/choruz-application/src/state.rs:102-123 | A direct conversation has at most one key |
| `Conversations.OnePerPair` | crates/choruz-application/src/conversations.rs:95-222 | With an index that agrees, two principals have at most one direct conversation in a workspace |
| `Conversations.Rebuild` | crates/choruz-application/src/state.rs:99-125 | From stored conversations kept under their own identifiers, visited in any order: every entry of the new index names a direct conversation of its pair, and every pair that has one has an entry |
| `Conversations.RebuildRestores` | crates/choruz-application/src/state.rs:99-125 | Rebuilding restores an agreeing index exactly |
| `Conversations.RebuildAgreesExactly` | crates/choruz-application/src/state.rs:99-125 | After a rebuild nothing dangles, and the index agrees if and only if no pair has two direct conversations in one workspace |
| `Conversations.AgreesExactly` | crates/choruz-application/src/state.rs:99-125 | Agreement is: the index never misleads, every entry resolves, and every direct conversation is the one its pair is indexed to |
| `Conversations.MoveAgreesExactly` | crates/choruz-application/src/conversations.rs:587-650 | Moving a conversation keeps the index in agreement if and only if no other direct conversation of the same pair is already in the target workspace |
| `Conversations.DeleteAgreesExactly` | crates/choruz-application/src/conversations.rs:46-76 | Deleting keeps the index in agreement if and only if the conversation is not direct |
| `Conversations.DeleteResolvedExactly` | crates/choruz-application/src/conversations.rs:62-64 | A deletion leaves every entry resolved if and only if no entry names the deleted conversation |
| `Conversations.MoveIndexed` | crates/choruz-application/src/conversations.rs:613-637 | A move, occupied or not, keeps the index from misleading |
| `ChatOps.LookupIsConsistent` | crates/choruz-application/src/conversations.rs:126-133 | With an agreeing index the internal inconsistency error cannot occur and the pair's own conversation is found |
| `ChatOps.LookupIsTrue` | crates/choruz-application/src/conversations.rs:126-133 | Even without agreement, a conversation found for a pair is the direct conversation of that pair |
| `ChatOps.ConsistentExactly` | crates/choruz-application/src/conversations.rs:126-133 | The internal inconsistency error is out of reach if and only if every index entry names a stored conversation |
| `ChatOps.DeletedPairIsInconsistent` | crates/choruz-application/src/conversations.rs:62-64 | After a direct conversation is deleted from an agreeing state, its pair meets the inconsistency error |
| `ChatOps.NewDirectIsBetween` | crates/choruz-application/src/conversations.rs:136-187 | A conversation built for two parties, with a human added to two agents, is between exactly those two |
| `ChatOps.Joining` | crates/choruz-application/src/conversations.rs:378-396 | The number of invited before the first who may not join |
| `ChatOps.ApplyContinues` | crates/choruz-application/src/conversations.rs:46-650 | No operation changes the type or creator of a stored conversation, removes its creator or a human from it, or changes the members of a direct one |
| `ChatRuns.AlwaysStaffed` | crates/choruz-application/src/conversations.rs:46-650 | In every state reachable by any operations, occupied moves and deletions included, every conversation has its creator and a human among its members |
| `ChatRuns.MembersAreKept` | crates/choruz-application/src/conversations.rs:46-650 | From any such state on, a conversation that still exists has the type, the creator and the human members it had and, if direct, exactly the members it had |
| `ChatRuns.DirectMembersAreFixed` | crates/choruz-application/src/conversations.rs:95-222 | A direct conversation present after some operations and still present after more differs at most in its workspace |
| `ChatRuns.AlwaysIndexed` | crates/choruz-application/src/conversations.rs:95-650 | In every reachable state the index never misleads: what an entry names, if stored, is the direct conversation of that pair, and no conversation has two entries |
| `ChatRuns.OpenYieldsPair` | crates/choruz-application/src/conversations.rs:95-222 | In every such state, opening a direct conversation that succeeds yields a stored one between exactly the two parties in the chosen workspace, new only if the pair had no entry |
| `ChatRuns.ApplyAgreesExactly` | crates/choruz-application/src/conversations.rs:46-650 | From an agreeing state an operation leads to an agreeing one if and only if it neither moves a direct conversation onto an occupied pair nor deletes one |
| `ChatRuns.AgreesThroughoutExactly` | crates/choruz-application/src/conversations.rs:46-650 | The index agrees all along a run if and only if no step of it makes such a move or deletion |
| `ChatRuns.ApplyResolvedExactly` | crates/choruz-application/src/conversations.rs:46-650 | Only deleting a conversation that has an index entry leaves an entry dangling; an occupied move never does |
| `ChatRuns.NeverInconsistent` | crates/choruz-application/src/conversations.rs:126-133 | In a run that deletes no indexed conversation the internal inconsistency error is never answered |
| `ChatRuns.OccupiedMoveHappens` | crates/choruz-application/src/conversations.rs:587-650 | A run from the empty state in which a permitted third step moves a direct conversation onto an occupied pair and ends the agreement |
| `ChatRuns.ErasureDangles` | crates/choruz-application/src/conversations.rs:46-76 | A run from the empty state in which opening, deleting and opening again meets the internal inconsistency error |
| `ChatAnswers.OpenDirectMeans` | crates/choruz-application/src/conversations.rs:95-222 | Exactly when opening a direct conversation is refused, answered with what the pair's entry names, or creates one, and what is then created |
| `ChatAnswers.OpenGroupMeans` | crates/choruz-application/src/conversations.rs:224-341 | Exactly when a group is created, its name and workspace, and its members: creator, all invited, and the workspace's human only if none of them is one |
| `ChatAnswers.InviteMeans` | crates/choruz-application/src/conversations.rs:343-436 | An invitation by a participant succeeds if and only if everyone invited is a member or reaches the workspace, and then all are members; otherwise exactly those before the first who does not have been added |
| `ChatAnswers.ExpelMeans` | crates/choruz-application/src/conversations.rs:438-521 | Exactly when a member is removed; then that member is gone and everyone else stays |
| `ChatAnswers.RenameMeans` | crates/choruz-application/src/conversations.rs:523-579 | Exactly when a group is updated; then it has the new name if one is given, and nothing else changes |
| `ChatAnswers.EraseMeans` | crates/choruz-application/src/conversations.rs:46-76 | Exactly when a conversation is deleted; then it alone is gone |
| `ChatAnswers.MigrateMeans` | crates/choruz-application/src/conversations.rs:587-650 | Exactly when a conversation is moved; then it alone is in the new workspace and its index entry, if direct, is that of the same pair there |
| `ChatAnswers.HumanForExactly` | crates/choruz-application/src/conversations.rs:156-180 | The human added to agents is the owner of the workspace if a human who reaches it, else the only human who does, else there is none |
| `ChatAnswers.ReachesExactly` | crates/choruz-application/src/lib.rs:83-100 | Who reaches a workspace: active, and at home there or enrolled in its company, which is not deleted |
| `ChatAnswers.NobodyReachesDeleted` | crates/choruz-application/src/lib.rs:89-94 | Nobody reaches a deleted company |
| `ChatAnswers.DeletedCompanyIsFrozen` | crates/choruz-application/src/conversations.rs:46-650 | No operation changes a conversation in a deleted company except to delete it, and none gets into one |
| `ChatAnswers.NothingOpensInDeleted` | crates/choruz-application/src/conversations.rs:95-341 | No conversation is created in a deleted company |
| `ChatState.Chat.CreateDirect` | crates/choruz-application/src/conversations.rs:95-222 | In any state: refused, answered with what the pair's entry says, or one conversation with its entry created, exactly as specified |
| `ChatState.Chat.CreateGroup` | crates/choruz-application/src/conversations.rs:224-341 | In any state: succeeds exactly as specified, with the creator, all invited and, if none of them is human, the workspace's human |
| `ChatState.Chat.AddGroupMembers` | crates/choruz-application/src/conversations.rs:343-436 | In any state: for a participating actor the loop adds the invited before the first who may not join, who stay even though the call then fails; otherwise nothing changes |
| `ChatState.Chat.RemoveGroupMember` | crates/choruz-application/src/conversations.rs:438-521 | In any state: succeeds exactly for a participating actor and an active agent member who is not the creator, and removes only that member |
| `ChatState.Chat.UpdateGroup` | crates/choruz-application/src/conversations.rs:523-579 | In any state: succeeds exactly for a participating actor and changes at most the name |
| `ChatState.Chat.DeleteConversation` | crates/choruz-application/src/conversations.rs:46-76 | In any state: succeeds exactly for an active human member, removes that conversation and leaves the index alone |
| `ChatState.Chat.FindKey` | crates/choruz-application/src/conversations.rs:613-616 | Finds an index entry of the conversation if there is one, whatever the scan order |
| `ChatState.Chat.MigrateWorkspace` | crates/choruz-application/src/conversations.rs:587-650 | In any state: succeeds exactly for an active human who reaches both workspaces, moves only that conversation and the entry the scan found, which is the only one in every reachable state |
| `ChatState.Chat.CollectMembers` | crates/choruz-application/src/conversations.rs:251-268 | The loop gathers the actor and all invited, refuses exactly when one of them may not join, and notes whether a human is among them |
| `Decisions.ChosenIsOption` | crates/choruz-decision/src/lib.rs:170-240 | A choice read from a validated response is one of the options that were asked |
| `Decisions.QuestionsCover` | crates/choruz-decision/src/programs.rs:310-344 | An operation is offered if and only if some element supports it, and then its question lists exactly those elements and an abstention |
| `Decisions.SelectionIsObserved` | crates/choruz-decision/src/programs.rs:350-374 | A selected target is always an element that the page showed for the selected operation |
| `Decisions.SelectionIsConfident` | crates/choruz-decision/src/programs.rs:352-367 | An element is selected for an operation if and only if the threshold is a probability and the provider chose both that operation and that element with a confidence of at least the threshold; without an element no such operation is reported |
| `Decisions.ResponseIsSound` | crates/choruz-decision/src/lib.rs:170-228 | A validated response answers exactly the questions asked, each with one of its options, which no option outweighs beyond the tolerance, and gives probabilities for exactly the options |
| `Workflow.BrowserAction` | crates/choruz-decision/src/programs.rs:280-374 | A selection is made if and only if the page is acceptable and the provider's answer validates; its target is offered by the page for that operation |
| `Workflow.BrowserActionIsConfident` | crates/choruz-decision/src/programs.rs:350-374 | The selection carries the provider's own answer, and names an element for an operation if and only if that answer reaches the threshold for both |
| `Workflow.RunSteps` | crates/choruz-decision/src/workflow.rs:209-372 | For any browser, provider and assistant: a run happens exactly when its inputs validate; actions are applied at most once per step, in order, on an in-scope page, on an element shown under an approved label with the step's operation and value; an unconfirmed action is the last; every receipt is true; an action taken on the decision has the pinned model sure, to the threshold, of its operation and of its element; at most two handoffs; success is reported exactly when all steps were confirmed and the final in-scope page shows all expected text, which the first page did not; and any other reason given for stopping is true of the step reached |
| `Workflow.TakeStep` | crates/choruz-decision/src/workflow.rs:232-352 | One step extends a safe run by one confirmed action or stops it with a true reason and no retry |
| `Workflow.ObservePage` | crates/choruz-decision/src/workflow.rs:233-274 | Continues only on an in-scope page with unambiguous targets and, at first, none of the expected text; otherwise stops for a true reason |
| `Workflow.ChooseTarget` | crates/choruz-decision/src/workflow.rs:275-329 | The decision is used whenever it is the pinned model's and fits the step; the assistant only on that model's abstention, at most twice, and only for an element of the narrowed page; a different model is never taken for an abstention |
| `Workflow.PrepareStep` | crates/choruz-decision/src/workflow.rs:233-329 | Readies an approved target on the observed page or stops with a true reason, leaving the actions untouched |
| `Workflow.VerifyOutcome` | crates/choruz-decision/src/workflow.rs:353-371 | The final observation alone decides the outcome, and the report names it |
| `Workflow.Narrow` | crates/choruz-decision/src/workflow.rs:254-261 | Exactly the elements with an approved label and the step's operation remain, each reduced to that operation |

## Left out

- HTTP, storage, the desktop and web front ends, agent processes and provider clients: they surround the modelled logic and appear only as arbitrary inputs.
- Floating point: scores, means and probabilities are reals, so rounding, infinities and not-a-number are not represented; a score outside the unit interval is refused as in the source.
- Text: strings are sequences of characters, so limits count characters where the source counts bytes, and white space is the ASCII kind.
- SHA-256: the bucket of a name and the digests used as case identifiers are arbitrary functions, so the results hold for every hash; the corpus version in a suite's name is a parameter.
- JSON: team proposals arrive decoded or marked malformed; size limits of encoded values, and the equality of encoded rows and answers, are stated on the values themselves.
- SearchMachine.Optimization.CompleteScoredRollout: keeps the score, output and preflight text of an observation but not the assessment attached to a judged one, because nothing in the search reads it.
- Suites.ValidateSuite: does not model the provenance rules for cases copied from traces, the size of an encoded check, nor the environment of a replay beyond its step limit, because none takes part in the search.
- TraceSuite.MeasuredTraceSuite: the validity of a single trace case is an arbitrary predicate, because only its verdict matters for sampling.
- EventLog.RunFaithful: sequence numbers are unbounded, so overflow of a 64-bit counter is not represented.
- EventLog.EventService.SetEventWebhook: the rate limit and the authority of the actor over the target arrive as one flag; the same holds for the activity and scope checks of listing and acknowledging.
- EventLog.EventService.PendingDeliveries: states the deliveries of one webhook; the concatenation over all principals in sorted order is not modelled.
- Conversations.Rebuild: rebuilds the direct index; the renumbering of events from stored envelopes is not modelled.
- ChatState.Chat.UpdateGroup: description, avatar and time stamps are not fields of the model.
- ChatState.Chat.CreateDirect: the kinds of refusal are one value, and the new identifier is a parameter; that new identifiers are never drawn twice is an assumption of the results on runs that need it.
- Events and audit entries that conversation operations emit are not attached to them; injection of rows from storage is not modelled.
- ProcessScope.RunKeeps: a job begun without a key has a private scope that nobody can retire, and is not represented.
- Decisions.ChosenIsOption: only choice questions are modelled, other kinds of answer are one invalid value; that probabilities sum to one within the tolerance, and the limit on the encoded request, are arbitrary predicates.
- Workflow.RunSteps: the elapsed time and the list of generated inputs are not fields of the report.
- Training.ShuffleIsFair: states that shuffling permutes; statistical uniformity of the generator is not claimed.
- Analysis reports, changed-case contexts, decision programs other than browser actions, and harness accounts are not modelled; they would add only easy members.
