# bonsai-agent: a verified model of its metrics, compaction and recovery logic

bonsai-agent is a Rust coding agent with Python scripts for its experiments. This project models the parts of it
that decide something by calculation alone and proves what those decisions guarantee:

- **Context compaction** (`Messages`, `CompactLevel0` to `CompactLevel3`, `CompactLevel2Thoughts`, `CompactLevel2Rerun`,
  `CompactLevel2Repeated`, `CompactLevel2Witnesses`, `Compaction`, `CompactionLaws`, `Budget`): the staged, in-place
  rewrite of the conversation, driven by token estimates, and the four-way token budget.
- **Benchmark metrics** (`Trajectory`, `PassMetrics`, `SecondsBuckets`, `Correlation`, `MultiRun`, `Frontier`): the
  longest-common-subsequence table and the trajectory score, passing streaks and PASS@(k,T), epsilon buckets,
  reliability decay, the cancellable k-run driver and context-length buckets.
- **Experiment acceptance** (`Wilcoxon`, `WilcoxonLaws`, `AcceptGate`): the exact signed-rank test by enumeration of
  sign masks, and the accept gate built on it.
- **Loop, failure and recovery machines** (`LoopDetection`, `EditCycle`, `CircuitBreaking`, `Escalation`, `FastPath`):
  classes whose fields refine the history of everything they were told.
- **The notes archiver** (`Lines`, `ArchiveParser`, `ArchiveRewriter`, `ArchiveSafety`): the line scanner, the
  back-to-front splice and the archive it feeds.

`Sequences`, `Reals`, `Text` and `Cooldown` hold shared vocabulary. `dafny verify dfyconfig.toml` checks everything.

## How the model reads the source

- Floats are reals. A square root is a parameter `sqrt` required to be one. The normal approximation of the Wilcoxon
  test beyond 25 pairs is a parameter.
- Strings are sequences of Unicode scalar values; byte lengths are those of their UTF-8 encoding.
- Clocks are `nat` parameters that do not run backwards. Regular expressions, the salient hash, the embedding scorer,
  title extraction, handoff wording and the agent loop are function parameters. A file write is one too: within one
  compaction it takes a content to the path it went to or to failure, and another compaction may see other outcomes.
- Loops that update state are methods with invariants; objects with `&mut self` methods are classes. The recovery
  classes carry a ghost history, and `Valid` ties each field to it.
- Library sorts are a stable insertion sort (`Sequences.StableSort`).

## What turned out differently from what the source says about itself

- Level 1 is idempotent on every input, with no condition on placeholder lengths: the boundary is computed from a tail
  that pruning never touches (`CompactLevel1.Level1Idempotent`). Placeholder length matters only to the token
  estimate, and there the condition is exact (`CompactLevel1.NeverRaisesExactly`).
- The rules protecting tool pairs across the boundary and the first and last user message never shield a tool output
  before the boundary, so importance scores, axis overflow and visiting order do not change what level 1 produces
  (`CompactLevel1.VisitingCandidatesIsLevel1`).
- Level 2 recomputes its limit on every call, and its own markers count towards the summary axis that tightens the
  limit. So even without thinking blocks a second application can cut a message the first let pass
  (`CompactLevel2Witnesses.SecondLimitCuts`). When the second application changes nothing is characterised on the
  conversation before the first (`CompactLevel2Rerun.SecondRunExactly`).
- Applied over and over, level 2 never stops changing a conversation exactly when some conclusion is never lost
  (`CompactLevel2Repeated.RepeatedExactly`). Without a budget that means a conclusion within the one limit
  (`CompactLevel2Repeated.RepeatedWithoutBudget`). With a budget it must survive the first cut and one at the smaller
  limit, or stand in the message that receives the preserved conclusions and be carried past the full limit, where the
  message is marked, before the summary axis overflows. Surviving the first cut alone is not enough
  (`CompactLevel2Witnesses.SurvivorFades`). Every configuration has a conversation that grows for ever
  (`CompactLevel2Witnesses.SurvivingBlockGrows`); without conclusions in reach two applications always settle
  (`CompactLevel2Rerun.TwoRunsSettle`).
- The recent messages are protected from levels 1 to 3 but not from level 0, which moves a large tool output to a file
  wherever it stands (`CompactionLaws.RecentOutputMoves`); they are untouched exactly when none of them is such an
  output (`CompactionLaws.CompactionKeepsRecent`).
- Compacting again after a stop at level 0 or 1 changes nothing exactly when a later level 0 moves none of the stubs,
  placeholders and other messages the stop leaves, placeholders being within the threshold
  (`CompactionLaws.EarlyStopsAreFinal`). With stubs within the threshold too, that fails only for an output whose write
  failed, that level 1 leaves in full, and whose write succeeds later (`CompactionLaws.EarlyStopsExactly`); a threshold
  below a stub's length makes the stub itself move (`CompactionLaws.SmallThresholdRewritesStub`). The default threshold
  is above every stub's length (`CompactLevel0.StubsFitTheDefault`).
- Level 3, the emergency step, makes a conversation grow at every further run when its kept tail holds a system
  message and at least two messages stand before it (`CompactLevel3.RepeatedRunsGrow`).
- `allocate` can hand out more than the total for ratios the normalisation test accepts
  (`Budget.OvershootHappens`); it is exact on every total precisely when they sum to at most one
  (`Budget.ConservesExactly`).
- `decide_recovery` aborts on a detected loop whatever the attempt, as its comment says, and the agent asks it directly.
  A caller that reports loops to the escalation site, as its interface allows, gets a replan on the third failure in a
  row and a stop from the fourth on (`Escalation.LoopAbortsOnlyEarly`).
- The accept gate cannot pass with fewer than 4 (smoke) or 5 (full) non-zero pairs; at the script's default of 5 pairs
  the full mode needs every pair to be a win (`AcceptGate.SmallestSampleNeedsAllWins`).
- Cycles of three or more actions escape the loop detector's windows and run until the frequency threshold
  (`LoopDetection.LongCyclesReachTheBound`), and so do two actions in the pattern A B B A when three repeats are needed
  for a report (`LoopDetection.TwoActionsReachTheBound`).
- The archiver promises to keep the most recent items in detail; it does exactly when none of them shares its number
  with an older verbose item (`ArchiveSafety.RecentKeptExactly`). `ArchiveSafety.DuplicateNumberHitsRecent` gives a text
  where a recent item is replaced and the old one stays.

## Model

| member | source | states |
|---|---|---|
| Messages.ByteRuleDecides | src/agent/compaction.rs:338-342 | The estimate of any text is its byte rule: the character rule never decides. |
| Messages.EstimateIsLeast | src/agent/compaction.rs:338-342 | The estimate is the least number of tokens, at least one, whose two and a half bytes each hold the text. |
| Text.CharBytesAreLeast | src/agent/compaction.rs:338-342 | The bytes counted for a character are the fewest that UTF-8 has room for it in. |
| Messages.MeasureAxisUsage | src/agent/compaction.rs:934-948 | The loop charges each message to the axis it is classified under. |
| Messages.ClassifiedExactly | src/agent/compaction.rs:890-928 | Which messages are charged to each axis, one equivalence per axis. |
| Messages.AxesShareEverything | src/agent/compaction.rs:934-948 | The five axes together account for every quarter-byte token, once. |
| Messages.OverflowAxes | src/agent/compaction.rs:958-980 | Exactly the axes over grant plus tolerance are reported, with their excess, none larger than the one before. |
| Messages.ToleranceExactly | src/agent/compaction.rs:986-999 | The tolerance is a thousandth of the total rounded down, and never less than one. |
| CompactLevel1.CountKeepByTokens | src/agent/compaction.rs:1015-1026 | The backward scan keeps exactly the messages that fit the protected allowance together with everything after them. |
| CompactLevel1.Level1Exactly | src/agent/compaction.rs:1005-1089 | What level 1 makes of every message: a placeholder exactly for tool outputs over the minimum size outside the recent ones whose tokens, with all after them, exceed the allowance. |
| CompactLevel1.FindAiToolPairs | src/agent/compaction.rs:344-353 | The pairs found are exactly the assistant messages directly followed by a tool message. |
| CompactLevel1.CandidateIndices | src/agent/compaction.rs:1031-1070 | Candidates are exactly the indices before the boundary that no protection rule shields. |
| CompactLevel1.VisitAllIsAMap | src/agent/compaction.rs:1082-1088 | Visiting any indices, in any order and with repeats, prunes exactly the prunable messages visited. |
| CompactLevel1.VisitOrderIrrelevant | src/agent/compaction.rs:671-687 | Two visiting orders over the same indices produce the same conversation. |
| CompactLevel1.VisitingCandidatesIsLevel1 | src/agent/compaction.rs:1031-1088 | Every tool message before the boundary is a candidate, so visiting the candidates is one map over the prefix. |
| CompactLevel1.Level1Frame | src/agent/compaction.rs:1082-1088 | Only contents of tool messages outside the recent suffix change; count, roles, ids and attachments stay. |
| CompactLevel1.SameTailKeepsAsMuch | src/agent/compaction.rs:1015-1026 | A conversation with the same protected tail protects at least as many messages. |
| CompactLevel1.Level1Idempotent | src/agent/compaction.rs:1014-1088 | The recomputed boundary never moves later, and a second level 1 changes nothing, for every input. |
| CompactLevel1.Level1NeverRaises | src/agent/compaction.rs:1082-1088 | When each tool id's placeholder fits, the token estimate never rises. |
| CompactLevel1.NeverRaisesExactly | src/agent/compaction.rs:1082-1088 | An id can make level 1 raise some conversation's estimate if and only if its placeholder does not fit. |
| CompactLevel2.Level2Frame | src/agent/compaction.rs:1125-1156 | Only assistant contents outside the recent suffix change. |
| CompactLevel2.PrefixContents | src/agent/compaction.rs:1122-1156 | What every message in reach becomes: cut and marked if long and unmarked, and only the last assistant receives the preserved thoughts. |
| CompactLevel2.TightenedExactly | src/agent/compaction.rs:1107-1122 | The limit is tightened, to seven tenths rounded down but at least one, exactly when the summary axis overflows in the whole conversation. |
| CompactLevel2.PrefixFixpoint | src/agent/compaction.rs:1121-1156 | The prefix is unchanged exactly when it has no closed thought to preserve and no overlong unmarked assistant message. |
| CompactLevel2Rerun.LimitsFromInput | src/agent/compaction.rs:1107-1122 | The limits of the first and second application, both from the conversation before the first: the second adds up what each message is charged once cut, marked or extended. |
| CompactLevel2Rerun.SecondRunExactly | src/agent/compaction.rs:1095-1157 | A second level 2 changes nothing exactly when, on the original conversation, no conclusion survives the first cut, the receiver of the preserved ones is marked or within the second limit, and no other unmarked message lies between the two limits. |
| CompactLevel2Rerun.SummaryAxisOfReach | src/agent/compaction.rs:1107-1122 | The usage that decides the limit is charged by the assistant messages in reach alone. |
| CompactLevel2Thoughts.AppendedThoughts | src/agent/compaction.rs:404-431 | Appending text that neither completes nor closes a tag adds and removes no conclusion. |
| CompactLevel2Thoughts.PreservedClosesNothing | src/agent/compaction.rs:1141-1156 | The preserved conclusions of any conversation are such a text: none holds a closing tag. |
| CompactLevel2Thoughts.CutThoughts | src/agent/compaction.rs:404-431 | The thoughts found in a cut and marked text are an initial part of those in the original. |
| CompactLevel2Thoughts.LastSentenceExactly | src/agent/compaction.rs:435-443 | The conclusion of a block is its last line that is not blank, trimmed; it is empty only when every line is blank. |
| CompactLevel2Thoughts.ClosedBlockConcludes | src/agent/compaction.rs:404-431 | Up to its first closed block a text yields that line of the block, cut to 200 characters, followed by what the rest yields. |
| CompactLevel2Thoughts.FirstThreeInOrder | src/agent/compaction.rs:404-431 | The conclusions extracted are the first three, message after message, of the assistant messages alone. |
| CompactLevel2Thoughts.PreservedLines | src/agent/compaction.rs:1141-1156 | The text appended is the heading and one bulleted line per conclusion. |
| CompactLevel2Rerun.IdempotentWithoutThoughts | src/agent/compaction.rs:1095-1157 | With no closed thought in reach, a second level 2 changes nothing exactly when no unmarked message lies between the two limits computed from the original conversation; without a budget always. |
| CompactLevel2Witnesses.SecondLimitCuts | src/agent/compaction.rs:1107-1140 | Two plain messages on which the second limit is 70 instead of 100 and the second application cuts again. |
| CompactLevel2Rerun.TwoRunsSettle | src/agent/compaction.rs:1095-1157 | With no closed thought in reach, a third application never changes anything, whatever limits the budget gives. |
| CompactLevel2Repeated.RepeatedExactly | src/agent/compaction.rs:1095-1157 | For every conversation and budget: all further applications change something if and only if a conclusion survives both limits, or its receiver outgrows the full limit before the summary axis overflows. |
| CompactLevel2Repeated.RepeatedWithoutBudget | src/agent/compaction.rs:1095-1157 | Without a budget: if a conclusion survives the limit every application changes something, and otherwise the third changes nothing. |
| CompactLevel2Witnesses.SurvivorFades | src/agent/compaction.rs:1107-1156 | A conversation whose conclusion survives the first cut, and which settles under every budget. |
| CompactLevel2Witnesses.SurvivingBlockGrows | src/agent/compaction.rs:1121-1156 | For every configuration, budget and recent tail, a conversation that n applications make longer by n copies of its own conclusion. |
| CompactLevel3.SystemsSurvive | src/agent/compaction.rs:700-720 | Every system message survives in order, ahead of the handoff and of the tail's own, repeated, system messages. |
| CompactLevel3.HandoffExactly | src/agent/compaction.rs:696-744 | The whole result: system messages, a note exactly when some assistant message that goes has more than twenty bytes, and the tail. |
| CompactLevel3.TailSurvives | src/agent/compaction.rs:707-720 | The conversation ends with exactly the messages it ended with, `emergency_keep` of them when the level acts. |
| CompactLevel3.SecondRun | src/agent/compaction.rs:696-744 | Applied to its own kind of result, the level writes no handoff and repeats the tail's system messages. |
| CompactLevel3.IdempotentExactly | src/agent/compaction.rs:696-744 | After an acting run, a second changes nothing exactly when the tail holds no system message or at most one message precedes it. |
| CompactLevel3.RepeatedRunsGrow | src/agent/compaction.rs:696-721 | Otherwise the conversation grows by the tail's system messages at every further run. |
| Compaction.StagesFireAsAPrefix | src/agent/compaction.rs:841-857 | For any rewrites: level k means exactly stages 1..k ran, and a level below 3 certifies the final estimate. |
| CompactLevel0.StubBytes | src/agent/compaction.rs:605-624 | A stub takes at most 815 bytes besides its path and the digits of the byte count. |
| CompactLevel0.DecimalReadsBack | src/agent/compaction.rs:618-619 | The byte count written into the stub reads back as the number. |
| CompactLevel0.StubSpelledOut | src/agent/compaction.rs:615-619 | A stub, character by character. |
| CompactLevel0.StubsFitTheDefault | src/agent/compaction.rs:605-624 | With the source's paths and machine-word byte counts no stub exceeds a threshold of 871 or more, so none is moved itself. |
| Compaction.Conversation.ApplyLevel0 | src/agent/compaction.rs:605-624 | Large tool outputs whose file write succeeds are replaced by their stub, in place, and the paths written are returned in order. |
| Compaction.Conversation.ApplyLevel1 | src/agent/compaction.rs:1005-1089 | With any scores, with or without a budget, the in-place rewrite equals the level-1 map. |
| Compaction.RankCandidates | src/agent/compaction.rs:1061-1080 | Each candidate once, with its own score and overflow flag; none of an overflowing axis after one of another, and within each group scores never fall. |
| Compaction.Conversation.ApplyLevel2 | src/agent/compaction.rs:1095-1157 | The shortening loop and the append to the last assistant equal the level-2 rewrite. |
| Compaction.Conversation.ApplyLevel3 | src/agent/compaction.rs:696-721 | Clearing and extending the list equals the level-3 rewrite. |
| Compaction.Conversation.CompactIfNeeded | src/agent/compaction.rs:823-857 | The pipeline is level 0 and the staged run of the levels, and returns the files written; returning 0, 1 or 2 bounds the final estimate. |
| CompactionLaws.CompactionKeepsSpeakers | src/agent/compaction.rs:839-857 | Through level 0 and every other level system messages survive in order; below level 3 system and user messages are exactly the original ones. |
| CompactionLaws.CompactionKeepsRecent | src/agent/compaction.rs:839-857 | As many recent messages as both keep settings protect come out as level 0 leaves them, and untouched exactly when none is a large tool output whose write changes it. |
| CompactionLaws.RecentOutputMoves | src/agent/compaction.rs:605-624 | The last message, a plain tool output just over the threshold, does not come through untouched. |
| CompactionLaws.UnchangedMovesNothing | src/agent/compaction.rs:839-857 | A conversation that a whole compaction leaves alone is one whose outputs level 0 leaves alone. |
| CompactionLaws.EarlyStopsAreFinal | src/agent/compaction.rs:839-857 | After a stop at level 0 or 1, compacting again changes nothing when a later level 0 moves none of the stubs, placeholders and untouched messages that the stop leaves, each given from the original conversation, and only then if placeholders are within the threshold. |
| CompactionLaws.EarlyStopsExactly | src/agent/compaction.rs:605-857 | When stubs and placeholders fit the threshold, that is unless an output whose write failed is left in full, level 1 not running, protecting it or sparing its size, and can be written later. |
| CompactionLaws.SmallThresholdRewritesStub | src/agent/compaction.rs:605-624 | With a threshold below a stub's length, a conversation stops at level 0 and is changed by compacting again. |
| Budget.AllocationBounds | src/agent/compaction.rs:183-214 | Normalised ratios hand out at least the total, less than 1.001 of it, and exactly it when they sum to at most one. |
| Budget.AxisShares | src/agent/compaction.rs:198-214 | Each axis gets its own ratio of the total rounded down, nothing for a ratio that is not positive; only the buffer may get more, up to the total. |
| Budget.ConservesExactly | src/agent/compaction.rs:198-214 | Every total is handed out exactly if and only if the ratios sum to at most one. |
| Budget.OvershootHappens | src/agent/compaction.rs:183-214 | Concrete accepted ratios hand out 10005 of 10000. |
| Budget.RoundingIsSmall | src/agent/compaction.rs:198-214 | With ratios summing to one the buffer absorbs at most three tokens of rounding. |
| Budget.AdjustedSumsToOne | src/agent/compaction.rs:219-236 | Adjustment with relevances and alpha in [0,1] keeps every axis non-negative and the sum exactly one. |
| Budget.AdjustedProportions | src/agent/compaction.rs:219-236 | Each axis is tilted by its own relevance, and the axes keep the proportions that gives them. |
| Budget.AdjustThenAllocateConserves | src/agent/compaction.rs:198-236 | Adjusting and then allocating hands out the budget exactly. |
| Trajectory.LcsLength | src/agent/benchmark.rs:215-230 | The table's last entry is the length of a longest common subsequence: one exists, none is longer. |
| Trajectory.PerfectAccuracy | src/agent/benchmark.rs:179-180 | Sequence accuracy is in [0,1] and 1 exactly when the expected calls were made in order. |
| Trajectory.AccuracyMonotone | src/agent/benchmark.rs:179-180 | Inserting calls into the actual trajectory never lowers sequence accuracy. |
| Trajectory.CoverageRange | src/agent/benchmark.rs:182-188 | Coverage is in [0,1] and 1 whenever the expected calls were made in order. |
| Trajectory.CoverageExtremes | src/agent/benchmark.rs:182-188 | Coverage is 1 exactly when every expected tool was called, in any order, and 0 exactly when none was. |
| Trajectory.PerfectComposite | src/agent/benchmark.rs:169-211 | The composite is in (0,1] and 1 exactly for in-order trajectories without unexpected tools, or when nothing was expected. |
| Trajectory.OrderIsSixTenths | src/agent/benchmark.rs:204-211 | With exactly the expected tools called, the composite is 0.4 plus six tenths of the sequence accuracy. |
| Trajectory.ExtrasShareATenth | src/agent/benchmark.rs:190-211 | In order and complete it is 0.9 plus a tenth shared out over one more than the unexpected calls. |
| Trajectory.NothingElseCounts | src/agent/benchmark.rs:190-211 | When nothing expected was called only that tenth is left. |
| PassMetrics.LongestStreak | src/agent/benchmark.rs:513-523 | The scan returns the length of a longest passing run: one exists, none is longer. |
| PassMetrics.StreakPigeonhole | src/agent/benchmark.rs:510-524 | With p passes in k runs the streak L satisfies L <= p and L(k-p+1) >= p. |
| PassMetrics.RatesAgreeAtOne | src/agent/benchmark.rs:510-524 | The streak rate never exceeds the pass rate, they reach 1 together, and without runs both are 0. |
| PassMetrics.StepsCurve | src/agent/benchmark.rs:337-359 | PASS@(k,T) over steps is monotone, at most pass@k, and equal to it exactly when T covers every passing run. |
| PassMetrics.StepsValue | src/agent/benchmark.rs:337-359 | Each point is its threshold with the number of runs that pass within it, over k. |
| PassMetrics.SecondsCurve | src/agent/benchmark.rs:367-391 | The same over seconds. |
| PassMetrics.SecondsValue | src/agent/benchmark.rs:367-391 | The same over seconds. |
| SecondsBuckets.CompositePassAtKSeconds | src/agent/benchmark.rs:889-914 | The aggregation loop reports the means of the buckets of all samples; the keys in the report rise by at least a millionth, and every sample is within a millionth of one. |
| SecondsBuckets.BucketizeFaithful | src/agent/benchmark.rs:894-906 | Keys are at least epsilon apart, every sample is near its bucket's key, and each bucket holds exactly the samples whose first near key it is. |
| SecondsBuckets.NothingLost | src/agent/benchmark.rs:894-914 | Means weighted by counts add up to all input rates, and counts to all samples. |
| SecondsBuckets.ReportAscending | src/agent/benchmark.rs:909-914 | The ordered buckets are strictly ascending with neighbouring keys at least epsilon apart. |
| Correlation.CauchySchwarz | scripts/lab_v22_metric.py:94-101 | The covariance squared never exceeds the product of the variances. |
| Correlation.PearsonRange | scripts/lab_v22_metric.py:89-101 | The coefficient is within [-1,1] on every input and is positive, zero or negative as the covariance is, constant samples included. |
| Correlation.PearsonSquared | scripts/lab_v22_metric.py:89-101 | The square of the coefficient, times both variance sums, is the covariance sum squared. |
| Correlation.PerfectCorrelation | scripts/lab_v22_metric.py:89-101 | The coefficient is 1 exactly when both samples vary and the second is a rising straight line over the first. |
| Correlation.DecayExtremes | src/agent/benchmark.rs:285-312 | On every input decay is in [0,1] without the upper clamp; 0 exactly when it is defined and loss rises linearly with effort, 1 exactly when it is undefined or they are not positively related. |
| Correlation.DecayOfScores | src/agent/benchmark.rs:285-312 | Read off iterations and scores themselves: when decay is undefined, and that it is otherwise 1 exactly when the scores do not fall with the iterations. |
| Correlation.DecaySquared | src/agent/benchmark.rs:285-312 | Between the extremes, what the decay lacks to one has the same square law. |
| MultiRun.RunTask | src/agent/benchmark.rs:2087-2160 | The runs recorded are the first ones with their durations, failures scored zero at full budget, the last finished run kept; every recorded run found the token alive, a short result ends at the poll that saw it cancelled, and no result means a reset failed. |
| MultiRun.RunK | src/agent/benchmark.rs:2074-2271 | Where each task begins to poll; each recorded task and run found the token alive, a task short of runs or a task missing is followed by the poll that saw it cancelled, and the call fails only over a failing reset. |
| MultiRun.AliveUntilTheLastRun | src/agent/benchmark.rs:2074-2160 | So no task is begun and no run recorded after any poll of the call has seen the token cancelled. |
| Frontier.ParsedBucketsIncrease | src/agent/frontier.rs:35-61 | Boundaries come out strictly increasing whatever the environment holds, and a well-formed list is kept. |
| Frontier.BucketIsCount | src/agent/frontier.rs:68-77 | Scanning for the first boundary above a count is counting the boundaries it has reached. |
| Frontier.BucketMonotone | src/agent/frontier.rs:68-77 | A longer context never falls into a lower bucket. |
| Frontier.ComputeBucketScores | src/agent/frontier.rs:150-169 | A bucket is reported exactly when it has results, with their mean. |
| Frontier.BucketScoresConserve | src/agent/frontier.rs:150-169 | Means weighted by bucket counts add up to the total score. |
| Wilcoxon.RankTable | scripts/lab_v22_metric.py:174-183 | The position counter gives every magnitude its average rank: those below, plus half of its ties and one. |
| Wilcoxon.RanksFollowSize | scripts/lab_v22_metric.py:173-183 | One delta ranks below another exactly when its square is smaller. |
| Wilcoxon.SignedRankP | scripts/lab_v22_metric.py:160-211 | The script's loops compute the rank sum of the positive deltas and its share of the masks reaching it. |
| Wilcoxon.RanksSum | scripts/lab_v22_metric.py:173-183 | For any tie pattern the average ranks sum to n(n+1)/2. |
| WilcoxonLaws.WPlusConserved | scripts/lab_v22_metric.py:168-186 | The rank sums of the data and of its negation add up to n(n+1)/2. |
| WilcoxonLaws.MaskOfBits | scripts/lab_v22_metric.py:192-197 | Every sign pattern is one of the masks enumerated. |
| WilcoxonLaws.BitsDetermineMask | scripts/lab_v22_metric.py:192-197 | Different masks are different sign patterns. |
| WilcoxonLaws.ComplementMirrorsSum | scripts/lab_v22_metric.py:192-197 | Complementing a mask mirrors its rank sum about the total. |
| WilcoxonLaws.PairedP | scripts/lab_v22_metric.py:189-201 | p of the data and p of its negation add up to one plus the probability of the observed sum, more than one. |
| WilcoxonLaws.SmallestP | scripts/lab_v22_metric.py:189-201 | p is at least 2^-n, and equal to it exactly when no delta is negative. |
| WilcoxonLaws.LargestP | scripts/lab_v22_metric.py:189-201 | p is 1 exactly when no delta is positive. |
| WilcoxonLaws.MoreWinsSmallerP | scripts/lab_v22_metric.py:186-201 | Turning losses into wins of the same size makes p strictly smaller. |
| AcceptGate.JudgeAccept | scripts/lab_v22_metric.py:255-343 | Accepts exactly when effect, Wilcoxon and dz gates pass; the reasons list exactly the failed gates, the advisory one included. |
| AcceptGate.AcceptedMeans | scripts/lab_v22_metric.py:268-289 | The three gates in numbers: a mean of 0.010 and of twice the noise floor, p within 0.05 or 0.10, dz of 0.40 or 0.30, never on fewer than two pairs. |
| AcceptGate.SanityExactly | scripts/lab_v22_metric.py:214-240 | The advisory gate passes exactly with summaries of at least eight facts each, 78 per cent matched and at most 5 per cent unknown on average. |
| AcceptGate.TooFewPairsNeverPass | scripts/lab_v22_metric.py:269-286 | No data passes the Wilcoxon gate with fewer than 4 (smoke) or 5 (full) non-zero pairs. |
| AcceptGate.SmallestSampleNeedsAllWins | scripts/lab_v22_metric.py:269-286 | At that many pairs it passes exactly when every pair is a win. |
| AcceptGate.MirroredSampleFails | scripts/lab_v22_metric.py:189-286 | If an exactly tested sample passes the Wilcoxon gate, its mirror image has p above one minus the threshold and fails. |
| AcceptGate.DzGateSquared | scripts/lab_v22_metric.py:140-157 | The dz gate is a positive mean whose square reaches the threshold squared times the variance, zero variance included. |
| AcceptGate.VarianceBySquares | scripts/lab_v22_metric.py:149 | The variance is the sum of squares less n times the squared mean, over n - 1. |
| AcceptGate.TTableAntitone | scripts/lab_v22_metric.py:119-132 | Across the interpolated table a larger t never gives a larger p, which stays in [0.01, 1]. |
| AcceptGate.TTableEntries | scripts/lab_v22_metric.py:119-132 | The values at every knot and in the middle of every piece. |
| LoopDetection.LoopDetector.RecordAndCheck | src/agent/error_recovery.rs:697-745 | Both windows are the last entries of the history and a report is exactly the hash window, the cycle or the frequency. |
| LoopDetection.ReportedExactly | src/agent/error_recovery.rs:717-741 | A report read off the last actions directly: the repeats, the back and forth of four, or the count. |
| LoopDetection.ExactRepeatIsHashRepeat | src/agent/error_recovery.rs:717-731 | Exact repetition is subsumed by hash repetition. |
| LoopDetection.QuietRunsAreShort | src/agent/error_recovery.rs:697-745 | An unreported run over K distinct hashes has at most K(threshold-1) actions. |
| LoopDetection.LongCyclesReachTheBound | src/agent/error_recovery.rs:683-745 | Going round K >= 3 distinct actions stays unreported for exactly that many. |
| LoopDetection.TwoActionsReachTheBound | src/agent/error_recovery.rs:683-745 | Two actions do so as well, in the pattern A B B A, when the repeat threshold is at least three. |
| LoopDetection.TwoActionsStopAtFour | src/agent/error_recovery.rs:683-745 | At a repeat threshold of two and a window of four or more, a run over two hashes is reported by its fourth action. |
| EditCycle.CountPaths | src/agent/error_recovery.rs:808-811 | The tally holds every file in the window with its number of edits. |
| EditCycle.MultiFileEditCycleDetector.RecordAndCheck | src/agent/error_recovery.rs:799-841 | A nudge is issued exactly for a cycling window, which is then cleared. |
| EditCycle.NudgesAmortised | src/agent/error_recovery.rs:799-845 | In every run, resets included, four times the nudges plus the window never exceed the edits recorded. |
| EditCycle.AlternatingReachesTheBound | src/agent/error_recovery.rs:799-841 | Two files edited in turn draw a nudge every fourth edit, so the bound is attained. |
| CircuitBreaking.CircuitBreaker.IsAvailable | src/agent/error_recovery.rs:511-521 | A tool is refused exactly when its failures since its last success reach the threshold and the last is within the cooldown. |
| CircuitBreaking.CircuitBreaker.RecordFailure | src/agent/error_recovery.rs:524-531 | The count and time kept are those of the tool's current streak. |
| CircuitBreaking.CircuitBreaker.RecordSuccess | src/agent/error_recovery.rs:534-536 | A success ends the tool's streak and no other. |
| CircuitBreaking.ToolsIndependent | src/agent/error_recovery.rs:511-536 | A tool's verdict depends on its own events alone. |
| CircuitBreaking.TrippedFailuresAreSpaced | src/agent/error_recovery.rs:511-531 | In runs that respect the breaker, failures past the threshold are at least a cooldown apart. |
| CircuitBreaking.StreakTakesTime | src/agent/error_recovery.rs:511-531 | So a streak of n failures takes at least n - threshold cooldowns after the breaker trips. |
| Escalation.ContinueSite.DecideEscalatedRecovery | src/agent/error_recovery.rs:161-190 | The advice is a function of the failures since the last success. |
| Escalation.FourthFailureStops | src/agent/error_recovery.rs:168-174 | Whatever came before, every fourth or later failure in a row is answered with a stop. |
| Escalation.LadderExact | src/agent/error_recovery.rs:161-268 | Exactly when the site retries, stops and aborts, over all histories, modes and budgets. |
| Escalation.RetryKinds | src/agent/error_recovery.rs:200-268 | Which kind of failure gets which retry, and which a replan. |
| Escalation.LoopAbortsOnlyEarly | src/agent/error_recovery.rs:161-206 | A loop reported to the site aborts exactly when it is one of the first two failures in a row; as the third it is replanned. |
| FastPath.FastPathDispatcher.TryHandle | src/agent/fast_path.rs:92-117 | Answers for the first matching rule unless its name is cooling down, without falling through to later rules. |
| FastPath.AnswersAreRateLimited | src/agent/fast_path.rs:100-112 | A name answers n times only over at least n-1 cooldowns. |
| Lines.JoinSplit | scripts/claudemd_archive.py:153-166 | Joining the lines of a text gives the text back. |
| Lines.SplitJoin | scripts/claudemd_archive.py:153-166 | Splitting joined single lines gives them back. |
| ArchiveParser.ParseItems | scripts/claudemd_archive.py:52-92 | The scanner finds one item per item line, reaching to the next item line, section header or the end. |
| ArchiveParser.ParseComplete | scripts/claudemd_archive.py:73-90 | Every item line opens an item, and every item carries its line's number and runs exactly to the next stop or the end. |
| ArchiveParser.ParsedItems | scripts/claudemd_archive.py:52-92 | Ranges are disjoint and increasing; each body is its joined lines without trailing white space, its size the body's bytes. |
| ArchiveParser.BodyExactly | scripts/claudemd_archive.py:66 | The body is the joined lines less trailing white space and nothing else. |
| ArchiveParser.PyBlankListed | scripts/claudemd_archive.py:66 | White space, character by character. |
| ArchiveRewriter.ChosenMembers | scripts/claudemd_archive.py:150-151 | The items replaced are the last of each archived number. |
| ArchiveRewriter.SpliceBackToFront | scripts/claudemd_archive.py:155-164 | Splicing from the last range to the first equals one forward substitution. |
| ArchiveRewriter.RewriteNotes | scripts/claudemd_archive.py:142-166 | The rewrite of parsed notes is the forward substitution over the chosen ranges, joined. |
| ArchiveRewriter.ForwardLength | scripts/claudemd_archive.py:155-164 | The result is shorter by exactly the lines the ranges give up. |
| ArchiveRewriter.OutsideKept | scripts/claudemd_archive.py:155-164 | Every line outside the ranges is kept, moved up by the lines given up before it. |
| ArchiveRewriter.OutsideInOrder | scripts/claudemd_archive.py:155-164 | Kept lines keep their order. |
| ArchiveRewriter.RangeSummarised | scripts/claudemd_archive.py:155-164 | Every range becomes its one-line summary at the place its first line moves to. |
| ArchiveSafety.AppendToArchive | scripts/claudemd_archive.py:169-187 | The loop's parts, joined, are the archive less trailing newlines followed by the archived items, whose numbers never fall. |
| ArchiveSafety.ArchivedCount | scripts/claudemd_archive.py:174-175 | The items archived are all those of an archived number, as often as they occur. |
| ArchiveSafety.NewlinesStripped | scripts/claudemd_archive.py:186-187 | The archive loses its trailing newlines, all of them and nothing else. |
| ArchiveSafety.AppendedContains | scripts/claudemd_archive.py:169-187 | Every archived body is in the archive verbatim, after everything already there. |
| ArchiveSafety.RewrittenLines | scripts/claudemd_archive.py:142-166 | The lines of the new notes are exactly those of the forward substitution. |
| ArchiveSafety.NoLineLost | scripts/claudemd_archive.py:252-275 | Each line of the notes stands in the new notes or lies in a replaced item whose body is in the new archive and holds the line less trailing white space. |
| ArchiveSafety.ArchivedIsReplacedIffDistinct | scripts/claudemd_archive.py:150-178 | The items archived are the items replaced if and only if no archived number repeats. |
| ArchiveSafety.SortKeepsLast | scripts/claudemd_archive.py:95-112 | The sort by number leaves the last item of every number the last of it. |
| ArchiveRewriter.RecentAreHighest | scripts/claudemd_archive.py:105-110 | The recent items are the highest-numbered ones, as many as asked for, and the older ones all the others. |
| ArchiveSafety.RecentKeptExactly | scripts/claudemd_archive.py:95-151 | Some of the most recent items is replaced if and only if one of them shares its number with an older item over the size threshold. |
| ArchiveSafety.RecentItemsKept | scripts/claudemd_archive.py:95-151 | So with distinct numbers none of them is. |
| ArchiveSafety.DuplicateNumberHitsRecent | scripts/claudemd_archive.py:52-151 | For every keep and size setting, a text whose old verbose item stays while one of its recent items is replaced. |

## Left out

- Floating-point rounding, NaN and infinities: the model computes with reals; sorting by score assumes comparable scores.
- Machine-integer overflow: `usize` arithmetic is unbounded here; the source would need texts of exabyte size to overflow.
- Normal approximations: the branches beyond 25 pairs, and for t statistics of other sizes than five, are parameters or absent.
- The hash in a level-0 path, the flush to the memory store and all logging: effects only.
- The text of handoffs, nudges, recovery instructions and placeholders' previews beyond what decides a branch.
- Role-based importance scores: level 1 is proved for arbitrary scores, so the particular ones add nothing.
- `from_n_ctx_budget`, environment overrides and `memory_relevance_from_messages`: default filling and one-line estimates.
- `TrialSummary`, `FileStuckGuard`, `RecoveryHint`, `weakest_tier`, `paper_delta_map` and graceful degradation: easy members of kinds already covered.
- `composite_pass_at_k_t_steps` and the injection-score aggregation: exact-key versions of the bucket aggregation in `Frontier`.
- The scores of `run_k`'s filler-injection runs: only their polls of the cancellation token and their resets are modelled.
- The fact-check gate's detail dictionary and the printed reports: text only.
- Command-line handling, git commits, servers, databases and sensor threads: input and output.
- CompactionLaws.EarlyStopsAreFinal: the "only then" half assumes placeholders within the threshold; a longer one could be moved to a file and pruned back.
