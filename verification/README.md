# BantAI policy core: a verified model

BantAI classifies Philippine scam messages. Its `ai/` directory decides which retrained model may
replace the served one, which messages belong to one scam campaign, what a retraining run is fed,
and what is shipped to phones. This project models that deciding code in Dafny and proves what it
promises.

Each file is one module. Code that works by changing things step by step (a loop, a dictionary
being filled, an object with fields) is a method or a class, proved against a specification
written as functions; the theorems are lemmas about those functions. Code that is an expression
is a function.

| modules | what they are about |
|---|---|
| `Sampling` | the reservoir that draws a training sample from a stream of unknown length |
| `Binomial`, `Promotion`, `PromotionMeaning`, `PromotionExamples`, `PromotionThreeClasses` | the gate that lets a retrained model replace the incumbent |
| `PageHinkley` | the detector that notices the served model's quality sliding |
| `Snapshot`, `SnapshotMeaning` | assembling one training set out of corrections and sampled history |
| `DisjointSets`, `Connectivity`, `CampaignGroups`, `CampaignMeaning` | grouping near-duplicate messages with union-find |
| `Matcher`, `MatcherMeaning` | attaching a message to a campaign: service loop, vector rule, precomputed rule |
| `Vectors`, `CampaignSpace`, `SpaceMeaning` | the transformed space messages are compared in, and its guard |
| `Evolution`, `EvolutionLoops`, `EvolutionPartition`, `EvolutionMeaning`, `EvolutionSplits`, `EvolutionRepeats`, `EvolutionSurges` | what changed between two clusterings |
| `PortableModel`, `PortableMeaning`, `GraphMeaning`, `MatrixMeaning`, `OverlookedOutput` | re-encoding a signed int8 model as unsigned bytes, and what the re-encoded graph computes |
| `SpecialTokens`, `StitchMeaning` | splitting text at added tokens and stitching token ids |
| `DatasetDigest`, `BundleDigest`, `DigestMeaning` | the texts a training set and a model bundle are digested from |
| `Sync` | replacing the backend's campaigns while requests may fail |
| `Limits` | admission control for expensive routes |
| `Wrappers`, `Collections`, `Sorting`, `Ordering`, `Grouping`, `Substrings`, `Fractions` | shared vocabulary |

Conventions:

- Floating-point numbers are exact reals. Python strings are sequences of characters compared
  by code point.
- What the code takes from outside is a parameter: the draws of the random generator, the
  masking of a message text, lower-casing, cosine similarity, the square root, the ids a
  tokenizer graph returns, the meaning of every ONNX operator (of `MatMulInteger`, all but the
  subtraction of zero points), the outcome of every HTTP request, the order in which concurrent
  requests make progress. A theorem holds for every value of them.
- A probability is a count. "Exactly k/n" is stated as: the draw sequences that keep an item,
  times n, are k times all draw sequences.
- Exceptions are the error case of a `Result`, with the condition under which each is raised.
- `hide` statements only keep definitions away from the solver where a proof does not need them.

## Findings

Places where the code and what is said about it differ, or where a promise needs a condition.
Each is a theorem below.

- The script says it never leaves the backend without an active campaign. That holds exactly
  when there is something to create: with an empty payload list the old set is retired and
  nothing replaces it (`Sync.NeverEmptyIffPayloads`). A cluster file without centroids yields an
  empty list, and nothing between the file and `sync` stops it.
- `sync` says that after a failed creation the clusters created so far are deactivated again.
  Whatever comes next, the backend is restored exactly when the failing request had no effect and
  every deactivation took effect: a creation whose reply was lost stays active, because the script
  never learns its id (`Sync.UndoRestoresExactlyWhen`).
- The re-encoding looks for unexpected consumers among node inputs only. A signed initializer
  that is itself a graph output is shifted too: outputs are kept exactly when none of them names a
  shifted initializer (`GraphMeaning.OutputsKeptExactlyWhen`), and there is an accepted, valid graph
  that runs and returns something else afterwards (`OverlookedOutput.AcceptedButChanged`).
- An ONNX initializer may be overridden by an input of the same name. The re-encoded graph runs where
  the original does exactly when a caller overrides no signed matrix without its zero point, nor the
  other way round (`GraphMeaning.RunsExactlyWhen`). Given the zero point alone, and an equal one, an
  accepted graph that ran does not run any more (`OverlookedOutput.AcceptedButStopped`).
- The comment on `ALPHA` says the F1 floor already rejects a significant regression. It need not:
  with 1 fix against 8 regressions on 31 rows, p is 20/512 and macro-F1 and Scam recall both rise,
  so the default gate is left with its direction check
  (`PromotionExamples.RegressionPassesTheFloors`). A floor refuses such a candidate exactly if it is
  missed (`Promotion.SignificantRegression`). With a level above 1, which nothing rules out, an even
  split of fixes and regressions is promoted (`Promotion.EvenSplitPromotedIff`), as two rows show
  (`PromotionExamples.EvenSplitOnTwoRows`).
- Grouping skips every bucket of more than 300 messages, as common trigrams are no evidence. Copies of
  one message fill all its buckets, so they form one group exactly if there are 4 to 300 of them, and
  301 or more form none (`CampaignMeaning.SameMessageGrouped`).
- A split's primary fragment is said to be reported under continuing as well. It is exactly when no
  other previous cluster matched it (`EvolutionSplits.PrimaryContinuesIff`); otherwise it is a merge
  target, as in `EvolutionSplits.PrimaryMayBeMerged`.
- A reservoir of size 0 returns before it reads the stream, so a snapshot whose cap is not above
  the number of different masked texts reported counts no dataset row at all
  (`Snapshot.BuildSnapshot`).
- `_active` also counts requests that have left their route and are about to give their slot
  back; it is the number of running routes exactly when there is none of those
  (`Limits.CounterIsExact`), and there can be one (`Limits.CounterMayExceedRunning`).
- The canonical text of a bundle does not escape file names. With digests without tabs and line
  breaks, it tells bundles apart among names without line breaks (`BundleDigest.OneTextPerBundle`),
  and among all names exactly up to the one file they read as (`BundleDigest.OneTextPerReading`). A
  bundle shares its text with a different one exactly when it holds two or more files, or one whose
  name reads as two (`BundleDigest.SharedTextIff`).

## Model

| member | source | states |
|---|---|---|
| `Sampling.ReservoirSample` | ai/retraining/sampling.py:56-75 | a negative size is refused; size 0 reads nothing; otherwise the whole stream is read once and the result is the reservoir the draws determine |
| `Sampling.KeptDistinct` | ai/retraining/sampling.py:40-43 | whatever is drawn, the reservoir holds min(n, k) different stream positions |
| `Sampling.ReservoirHoldsKeptItems` | ai/retraining/sampling.py:64-75 | what is returned are the stream's own items at those positions |
| `Sampling.SlotHolds` | ai/retraining/sampling.py:64-75 | a slot holds the last item whose draw hit it, or the one it was filled with if none did |
| `Sampling.TracesAreAllDraws` | ai/retraining/sampling.py:68-71 | the draw sequences counted below are all those with the i-th draw in 0..i, and no others |
| `Sampling.TraceCount` | ai/retraining/sampling.py:68-71 | there are n!/k! of them |
| `Sampling.RetentionIsExact` | ai/retraining/sampling.py:14-15 | every item is kept in exactly k/n of all draw sequences, wherever it arrived |
| `Sampling.SubsetsAreEquallyLikely` | ai/retraining/sampling.py:6-7 | the sample is uniform as a set: every k-element set of positions results from exactly (n-k)! draw sequences |
| `Binomial.ChooseCountsFlips` | ai/retraining/promotion.py:37-39 | the coefficient used for the p-value is the number of coin-flip sequences with that many fixes |
| `Binomial.FlipsAreAll` | ai/retraining/promotion.py:37-39 | those sequences are all sequences of that many flips |
| `Binomial.TailsAreNoLikelier` | ai/retraining/promotion.py:37-39 | which outcomes are no likelier than the observed one: exactly those at least as far from the middle |
| `Binomial.TwoSidedClosedForm` | ai/retraining/promotion.py:190 | the two-sided p-value of a majority of fixes is twice the lower tail, or 1 for an even split |
| `Binomial.PValueSymmetric` | ai/retraining/promotion.py:190 | fixes and regressions exchanged give the same p-value |
| `Binomial.EvenSplitIsCertain` | ai/retraining/promotion.py:190 | equal counts give p = 1 |
| `Binomial.MoreFixesShrinkP` | ai/retraining/promotion.py:190 | one more fix never raises the p-value of a majority of fixes |
| `Binomial.FewerRegressionsShrinkP` | ai/retraining/promotion.py:190 | one regression less never raises it |
| `Binomial.PValueFloor` | ai/retraining/promotion.py:190 | no outcome of n disagreements has a p-value below 2/2^n |
| `Promotion.DiscordantIndices` | ai/retraining/promotion.py:122-138 | different lengths are refused; otherwise exactly the fixed rows and exactly the broken rows, each in row order |
| `Promotion.McNemarCounts` | ai/retraining/promotion.py:151-152 | the sizes of those two sets of rows |
| `Promotion.VerdictMeans` | ai/retraining/promotion.py:184-244 | promoted if and only if the models disagree, fixes are not fewer than regressions, both floors are met and p < alpha; a missed floor is the reported reason whatever the test says |
| `PromotionMeaning.ReasonMeans` | ai/retraining/promotion.py:192-244 | for each of the six reasons, exactly when it is given: the F1 floor before the Scam floor, both before the test |
| `PromotionMeaning.DefaultGateMeans` | ai/retraining/promotion.py:52-65 | promotion under the default gate, with its tolerances of a hundredth and its level of 1 in 20 |
| `PromotionMeaning.F1Means` | ai/retraining/promotion.py:184-185 | a class's F1 is twice the rows both sequences give it over the rows each does; it lies in 0..1 and is 1 if and only if both give it the same rows, and some |
| `PromotionMeaning.F1IsHarmonic` | ai/retraining/promotion.py:184-185 | it is the harmonic mean of precision and recall |
| `PromotionMeaning.MacroF1IsMean` | ai/retraining/promotion.py:184-185 | macro-F1 times the number of classes that occur is the sum of their F1, however they are listed |
| `PromotionMeaning.MacroF1Between` | ai/retraining/promotion.py:184-185 | it lies between the least and the greatest F1 of those classes |
| `PromotionMeaning.MacroF1IsOneIff` | ai/retraining/promotion.py:184-185 | it lies in 0..1, and is 1 if and only if every prediction is right |
| `PromotionMeaning.RecallMeans` | ai/retraining/promotion.py:155-158 | recall times the rows of the class is the number of them found; there is none exactly if the truth has no such row |
| `Promotion.SignificantRegression` | ai/retraining/promotion.py:205-244 | a significant result with more regressions than fixes is refused by a floor if and only if one is missed, and by the direction check otherwise |
| `Promotion.PromotionMeansMoreFixes` | ai/retraining/promotion.py:226-244 | at a level of at most 1, a promoted candidate fixes more rows than it breaks |
| `Promotion.EvenSplitPromotedIff` | ai/retraining/promotion.py:226-244 | an even split with both floors met is promoted exactly when alpha exceeds 1 |
| `PromotionExamples.RegressionPassesTheFloors` | ai/retraining/promotion.py:56-59 | the floors do not catch every significant regression: 31 rows on which the default gate refuses a significantly worse candidate although both floors are met and macro-F1 rises |
| `PromotionThreeClasses.ThreeClassesPromoted` | ai/retraining/promotion.py:184-244 | 100 Ham, 5 Spam and 1 Scam: 14 fixes against 4 regressions cost more than 0.009 and less than 0.01 of macro-F1, and the default gate promotes with p = 8096/262144 |
| `PromotionExamples.EvenSplitOnTwoRows` | ai/retraining/promotion.py:226-244 | two rows on which a level above 1 promotes an even split, and no other level does |
| `Promotion.NeverPromotedBothWays` | ai/retraining/promotion.py:226-244 | two models are never each promoted over the other |
| `Promotion.PromotionNeedsEvidence` | ai/retraining/promotion.py:56-59 | a promotion needs alpha * 2^n > 2, hence at least 6 disagreements at the default level |
| `Promotion.FixesAlonePromote` | ai/retraining/promotion.py:184-244 | without regressions and with both floors met a candidate is promoted if and only if alpha * 2^fixes > 2; under the default gate, if and only if it has at least 6 fixes |
| `Promotion.CorrectingMovesOneRow` | ai/retraining/promotion.py:129-138 | correcting one wrong prediction adds exactly that row to the fixes or removes it from the regressions |
| `Promotion.CorrectingKeepsF1` | ai/retraining/promotion.py:184-185 | it lowers no class's F1, and a class that vanishes from the predictions had F1 0 |
| `Promotion.CorrectingKeepsClasses` | ai/retraining/promotion.py:184-185 | it adds no class to the macro average; it can only remove the wrongly predicted one |
| `Promotion.CorrectingKeepsMacroF1` | ai/retraining/promotion.py:184-185 | it never lowers macro-F1, although the number of classes averaged over may change |
| `Promotion.CorrectingKeepsRecall` | ai/retraining/promotion.py:155-158 | it never lowers the recall of any class |
| `Promotion.CorrectingKeepsSignificance` | ai/retraining/promotion.py:189-190 | it never raises the p-value of a majority of fixes |
| `Promotion.PromotionIsMonotone` | ai/retraining/promotion.py:184-244 | a promoted candidate stays promoted when any one of its wrong predictions is corrected, for all thresholds |
| `PageHinkley.Detector.constructor` | ai/retraining/triggers.py:84-98 | a fresh detector has seen nothing |
| `PageHinkley.Detector.Update` | ai/retraining/triggers.py:100-128 | after every call n*mean is the sum of all inputs since the last reset and both running sums are those of the whole history; the result is true if and only if min_samples values were seen and more evidence than the threshold was collected since some past point |
| `PageHinkley.AlarmMeans` | ai/retraining/triggers.py:122-128 | an alarm is just that, and no stream shorter than min_samples raises one |
| `PageHinkley.Detector.Reset` | ai/retraining/triggers.py:130-135 | the history is forgotten |
| `PageHinkley.GapIsMostEvidence` | ai/retraining/triggers.py:113-128 | the gap from the running maximum is the most evidence (mean - value - delta, summed) collected since any past point, and never negative |
| `PageHinkley.SteadyStreamNeverAlarms` | ai/retraining/triggers.py:113-128 | a stream in which no value lies more than delta below an earlier one never alarms |
| `PageHinkley.NonDecreasingIsSteady` | ai/retraining/triggers.py:113-118 | such are all streams that never decrease |
| `PageHinkley.BandIsSteady` | ai/retraining/triggers.py:76-78 | and all streams that stay in a band of width delta |
| `PageHinkley.LastingDropIsDetected` | ai/retraining/triggers.py:69-74 | after m >= min_samples arbitrary observations, a lasting drop by d below their mean alarms at every step T <= m with T*(d/2 - delta) > threshold |
| `Snapshot.SortReports` | ai/retraining/snapshot.py:155-158 | a permutation of the reports, undated before dated, then by time, ties in source order |
| `Snapshot.StableSortIsOne` | ai/retraining/snapshot.py:155-158 | there is only one such order, so the sort is fixed by what is said of it |
| `Snapshot.CollectOwners` | ai/retraining/snapshot.py:159-161 | every masked key once, in order of first use, with the last report that maps to it |
| `Snapshot.LastWriterOwns` | ai/retraining/snapshot.py:148-161 | the last writer in sorted order is the most recently validated report with that masked text, the later one in the source on a tie |
| `Snapshot.OwnerUnique` | ai/retraining/snapshot.py:148-154 | a masked text has one owner |
| `Snapshot.FindOwners` | ai/retraining/snapshot.py:155-161 | sorting and overwriting give every reported masked text its owner |
| `Snapshot.DictionaryIsOne` | ai/retraining/snapshot.py:155-161 | the dictionary, order of keys included, is a function of the reports |
| `Snapshot.CorrectsByOwner` | ai/retraining/snapshot.py:183-188 | a row counts as relabelled exactly when an owner of its text has another label |
| `Snapshot.History` | ai/retraining/snapshot.py:172-195 | the rows streamed are the first occurrences of texts no report owns; rows seen = superseded + duplicates + streamed |
| `Snapshot.StreamIs` | ai/retraining/snapshot.py:183-195 | the stream has every unowned dataset text exactly once and no owned one |
| `Snapshot.SampleHistory` | ai/retraining/snapshot.py:197-205 | the whole stream without a cap, otherwise the reservoir of what the cap leaves beside the owners; a budget of zero reads no row |
| `Snapshot.CountLabels` | ai/retraining/snapshot.py:211-214 | every label that occurs, with the number of rows that have it |
| `Snapshot.BuildSnapshot` | ai/retraining/snapshot.py:155-225 | the result is one row per owner in dictionary order followed by the sample; report ids, label counts, digested text and counters are those of these rows; a cap not above the number of owners reads no dataset row |
| `Snapshot.SnapshotIsClean` | ai/retraining/snapshot.py:155-225 | no masked text twice; every reported text present and with its owner's label; nothing that neither source has |
| `SnapshotMeaning.EveryRowIs` | ai/retraining/snapshot.py:155-208 | where a report has the masked text of a row, the row has the text and label of the most recently validated one; otherwise text, label and origin of the first dataset row with that masked text, and "dataset" where it has no origin |
| `SnapshotMeaning.UncappedHistoryIs` | ai/retraining/snapshot.py:172-198 | without a cap the rows after the reports are, in dataset order, those that are the first with their masked text where no report has it |
| `SnapshotMeaning.FirstUsesAre` | ai/retraining/snapshot.py:159-161 | the report rows come in the order in which the sorted reports first use their masked texts |
| `SnapshotMeaning.SupersededCounts` | ai/retraining/snapshot.py:183-185 | the superseded counter is the number of dataset rows whose masked text a report has |
| `SnapshotMeaning.RelabelledCounts` | ai/retraining/snapshot.py:186-187 | the relabelled counter is the number of those whose most recent report has another label |
| `SnapshotMeaning.GivenIdsAre` | ai/retraining/snapshot.py:169 | the report ids are those given, in order; a report without one adds none |
| `Snapshot.CapBoundsSnapshot` | ai/retraining/snapshot.py:197-205 | the exact size under a cap: the owners, or the smaller of the cap and owners plus stream |
| `Snapshot.UncappedIsUnion` | ai/retraining/snapshot.py:197-198 | without a cap the masked texts are exactly the union of both sources |
| `Snapshot.TakenMeans` | ai/retraining/snapshot.py:197-208 | under a cap, a text no report owns is in the snapshot exactly under the draws counted in the next row |
| `Snapshot.HistoryIsFair` | ai/retraining/snapshot.py:199-205 | every dataset text no report owns is in the snapshot for exactly min(k, n)/n of all draw sequences, k being what the cap leaves beside the owners and n the number of such texts |
| `DatasetDigest.DigestText` | ai/retraining/snapshot.py:218-222 | the loop digests the sorted pairs of masked text and label |
| `Sorting.OrderIsUnique` | ai/retraining/snapshot.py:219 | a multiset has one sorted list under any total order, so how it is sorted does not matter |
| `DatasetDigest.OneTextPerDataset` | ai/retraining/snapshot.py:216-223 | two datasets have one digest text if and only if they hold the same pairs, each equally often: when texts have no line break, as normalized ones have none, and labels neither line break nor NUL; or when texts have no NUL and labels no line break |
| `Snapshot.RowOrderIsIrrelevant` | ai/retraining/snapshot.py:216-223 | the digested text does not move with row order, whatever the rows contain |
| `DigestMeaning.DigestMeans` | ai/retraining/snapshot.py:215-223 | two snapshots are digested from one text if and only if they have equally many rows of every masked text and label; neither the text before masking nor the origin counts |
| `DigestMeaning.RowsAscend` | ai/retraining/snapshot.py:218 | rows are digested by masked text, and rows of one text by label |
| `DigestMeaning.OneRowText` | ai/retraining/snapshot.py:218-222 | the bytes of one row |
| `Ordering.LessMeans` | ai/retraining/snapshot.py:218 | one string comes before another if at the first difference it ends or has the smaller character |
| `DisjointSets.HalvingKeepsRoots` | ai/scripts/calibrate_match_threshold.py:95-99 | path halving changes no representative and moves strictly closer to it |
| `DisjointSets.LinkingMergesRoots` | ai/scripts/calibrate_match_threshold.py:101-104 | hanging one root below another merges exactly those two classes and keeps every walk finite |
| `DisjointSets.Forest.constructor` | ai/scripts/calibrate_match_threshold.py:93 | everyone alone |
| `DisjointSets.Forest.Find` | ai/scripts/calibrate_match_threshold.py:95-99 | terminates without ranks, returns the representative, changes no class |
| `DisjointSets.Forest.Union` | ai/scripts/calibrate_match_threshold.py:101-104 | the two classes become one, the others stay |
| `CampaignGroups.BlockKeys` | ai/scripts/calibrate_match_threshold.py:108 | the first twelve trigrams in code-point order, or all if there are fewer |
| `CampaignGroups.FillBuckets` | ai/scripts/calibrate_match_threshold.py:106-109 | bucket g lists, in row order, exactly the messages filed under g |
| `CampaignGroups.JoinPair` | ai/scripts/calibrate_match_threshold.py:118-120 | skipping a pair that is already joined loses nothing: afterwards a linked pair shares a class, and classes only grow inside components |
| `CampaignGroups.JoinBucket` | ai/scripts/calibrate_match_threshold.py:112-120 | after one bucket every linked pair in it is joined; buckets below 2 or above 300 are skipped |
| `CampaignGroups.JoinBuckets` | ai/scripts/calibrate_match_threshold.py:111-120 | after all buckets every linked pair that met in one is joined, and nothing unconnected is |
| `Connectivity.ConnectedIsEquivalence` | ai/scripts/calibrate_match_threshold.py:86-90 | being in one component is reflexive, symmetric and transitive |
| `CampaignGroups.LinkGraphIsUndirected` | ai/scripts/calibrate_match_threshold.py:111-120 | the links between messages form an undirected graph on the rows, so the theorems on components apply to them |
| `CampaignGroups.NoLinkIsLost` | ai/scripts/calibrate_match_threshold.py:106-120 | every pair with a bucket of at most 300 in common and Jaccard >= 0.75 ends in one class |
| `Connectivity.RootsAreExact` | ai/scripts/calibrate_match_threshold.py:111-123 | a forest that joins every link and nothing else has exactly the connected components as its classes |
| `CampaignGroups.CollectLists` | ai/scripts/calibrate_match_threshold.py:122-124 | grouping by `find` lists the components, each in row order, by their first message |
| `CampaignGroups.FindCampaignGroups` | ai/scripts/calibrate_match_threshold.py:85-125 | the result is the list of connected components with at least four members |
| `Connectivity.ComponentsPartition` | ai/scripts/calibrate_match_threshold.py:122-124 | every node lies in exactly one listed component, its own: the unfiltered groups partition the messages |
| `CampaignGroups.GroupsAreBigComponents` | ai/scripts/calibrate_match_threshold.py:125 | a group is reported if and only if it is a component with at least four members |
| `CampaignMeaning.TrigramsAre` | ai/scripts/calibrate_match_threshold.py:74-76 | a string is a trigram of a text if and only if it is three consecutive characters of the padded text |
| `CampaignMeaning.JaccardCounts` | ai/scripts/calibrate_match_threshold.py:79-82 | the similarity of non-empty sets lies in 0..1, is 1 if and only if they are equal, and reaches 0.75 if and only if four times what they share is three times what they cover |
| `CampaignMeaning.LinkedMeans` | ai/scripts/calibrate_match_threshold.py:106-120 | which messages are linked, in counts: a trigram among the first twelve of both, filed under by 2 to 300 messages, and that similarity |
| `CampaignMeaning.TwinsAreConnected` | ai/scripts/calibrate_match_threshold.py:106-120 | messages with equal trigrams that share a bucket of at most 300 lie in one component |
| `CampaignMeaning.SameMessageGrouped` | ai/scripts/calibrate_match_threshold.py:85-125 | n copies of one message are one group of all of them if 4 <= n <= 300, and no group otherwise |
| `CampaignMeaning.GroupsInOrder` | ai/scripts/calibrate_match_threshold.py:122-125 | groups come by their first message, and each lists its messages in row order |
| `Matcher.CampaignMatcher.Build` | ai/service/campaign.py:293-308 | an uncalibrated space is refused; otherwise the bars are the space's own, or the raw ones with the given threshold |
| `Matcher.CampaignMatcher.ReplaceCentroids` | ai/service/campaign.py:310-312 | the centroids are the new ones |
| `Matcher.CampaignMatcher.Match` | ai/service/campaign.py:345-439 | for all centroids, bars and texts the loop attaches the message to exactly the campaign the vector rule picks, with that centroid's scores and the deciding tier; otherwise it reports the best similarity |
| `Matcher.ScanCentroids` | ai/service/campaign.py:387-413 | after the loop each tier's hit is the first best of its candidates, and best_sim the maximum |
| `Matcher.PickIsChosen` | ai/scripts/calibrate_campaign_space.py:162-166 | `_pick` returns the first best of the masked columns, or none exactly if the mask is empty |
| `Matcher.ChosenUnique` | ai/scripts/calibrate_campaign_space.py:162-166 | there is only one such answer |
| `Matcher.FastFormIsVectorRule` | ai/scripts/calibrate_campaign_space.py:173-198 | the precomputed form answers like the vector rule for every query, floor, gate and threshold, switched-off tiers included |
| `Matcher.MatchesAreJustified` | ai/service/campaign.py:122-132 | a match meets the bar of the tier it names, is that tier's best, and no stronger tier had a candidate; no match means no tier had one |
| `Matcher.TextOnlyAddsMatches` | ai/service/campaign.py:130-132 | what the embedding alone attaches is attached with any text, and text changes the answer only through a corroborated tier |
| `MatcherMeaning.LexicalIsDice` | ai/service/lexical.py:244-263 | the wording overlap is twice the shared shingles over both sets together; it reaches the gate if and only if 40 times the shared ones are 9 times both, with a profile of at least four |
| `MatcherMeaning.AttachedIff` | ai/service/campaign.py:345-439 | a message is attached if and only if some campaign supports it: similar enough by itself, or less so with a shared domain or like wording |
| `MatcherMeaning.RawAttachedIff` | ai/service/campaign.py:113-189 | the same without a space, with the constants 0.90 and 0.99 and 9/40 of the shingles |
| `MatcherMeaning.MatchMeans` | ai/service/campaign.py:387-439 | which one: the most similar with a shared domain, else the one with the largest overlap of those worded alike, else the most similar, always the first of equals |
| `MatcherMeaning.ThresholdsRoundTrip` | ai/service/campaign_space.py:130-164 | thresholds set are thresholds read: a label's own by its messages and no others, the shared ones by all that have none |
| `MatcherMeaning.LabelDecides` | ai/service/campaign_space.py:141-164 | giving one label thresholds decides the messages of that label by them and changes no answer for the rest |
| `Vectors.DotOfConcat` | ai/service/campaign_space.py:172 | the dot product multiplies entry by entry and adds up |
| `CampaignSpace.AppliedIsInSpace` | ai/service/campaign_space.py:166-173 | with orthonormal directions `apply` leaves exactly nothing on any of them |
| `CampaignSpace.CentroidStaysInSpace` | ai/service/campaign.py:453-469 | neither does the re-normalized mean of such vectors |
| `CampaignSpace.InSpaceHolds` | ai/service/campaign_space.py:175-181 | a vector with nothing on the removed directions passes `holds` |
| `CampaignSpace.BuiltCentroidsHold` | ai/service/campaign.py:496-519 | every centroid built with a space passes that space's check |
| `CampaignSpace.TagRoundTrip` | ai/service/campaign_space.py:253-263 | the space id written into a label is read back, whatever the label contains |
| `CampaignSpace.UntaggedIsRaw` | ai/service/campaign_space.py:253-263 | a label tagged with no space declares none |
| `CampaignSpace.RetagReplaces` | ai/service/campaign_space.py:253-256 | tagging again replaces the old tag |
| `SpaceMeaning.TagReads` | ai/service/campaign_space.py:253-256 | how a label without a tag is written with one |
| `CampaignSpace.BuiltSetsAreAccepted` | ai/service/campaign_space.py:266-321 | a set built in a space, labelled or with its labels lost, is accepted exactly when the space is calibrated and fitted on the served model; never refused because of its vectors |
| `CampaignSpace.EnabledMeansConsistent` | ai/service/campaign_space.py:266-321 | matching in a space is enabled only for the loaded space, on its model, with every checked centroid in it and no other label; raw matching only with no label and no checked centroid in the space |
| `SpaceMeaning.HoldsMeans` | ai/service/campaign_space.py:175-181 | a vector passes if and only if it has the dimension of the space and the squares of its products with the removed directions add up to less than 0.001 squared times its own square |
| `SpaceMeaning.EnabledInSpaceIff` | ai/service/campaign_space.py:266-321 | matching in a space is enabled if and only if there are centroids, it is loaded and usable, every checked centroid passes, and the labels name it or name none and the vectors identify it |
| `SpaceMeaning.EnabledRawIff` | ai/service/campaign_space.py:285-314 | raw matching is enabled if and only if there is no centroid, or no label names a space, no centroid passes, and the set does not look transformed where no space is loaded |
| `SpaceMeaning.LabelledReasonIs` | ai/service/campaign_space.py:339-356 | for each reason to refuse a labelled set that its vectors do not contradict, exactly when it is given |
| `SpaceMeaning.LabelledOutsideIsRefused` | ai/service/campaign_space.py:316-320 | a labelled set with a unit centroid of which a thousandth or more lies along a removed direction is never enabled |
| `SpaceMeaning.UnlabelledOutsideIsRaw` | ai/service/campaign_space.py:292-314 | an unlabelled set of only such centroids stays raw; one that also has centroids in the space is a half-finished sync |
| `SpaceMeaning.AppliedIs` | ai/service/campaign_space.py:166-173 | `apply` removes the mean and the removed directions and nothing else, and gives a unit vector unless nothing is left |
| `SpaceMeaning.CentroidIs` | ai/service/campaign.py:453-469 | a centroid points where the sum of its members points, and is a unit vector unless they cancel out |
| `SpaceMeaning.MembersAre` | ai/service/campaign.py:496-519 | the members of a cluster are its own rows, transformed, in order |
| `SpaceMeaning.LooksTransformedMeans` | ai/service/campaign_space.py:331-336 | two or more centroids of one dimension look transformed if and only if the products of all pairs of their unit vectors average below 0.36 |
| `Evolution.FindBestMatch` | ai/campaign_evolution.py:233-251 | the first of the most similar candidates, if it clears the threshold |
| `Evolution.ClosestIsMaximum` | ai/campaign_evolution.py:245-248 | no candidate is more similar, and no earlier one as similar |
| `Evolution.NoMatchMeansNoneClears` | ai/campaign_evolution.py:249-251 | if any candidate clears the threshold there is a match, at least as similar |
| `Evolution.ParentIsMatched` | ai/campaign_evolution.py:328-334 | a previous cluster that an unclaimed current one resembles has a match of its own |
| `Evolution.OffshootsAreKnown` | ai/campaign_evolution.py:346-357 | so every lookup of the split loop is defined |
| `EvolutionLoops.MatchPrevious` | ai/campaign_evolution.py:280-284 | the recorded matches, each key where it was first written and with what was written last |
| `EvolutionLoops.ClaimCurrent` | ai/campaign_evolution.py:289-291 | per claimed cluster its claimants, in the order of the recorded matches |
| `EvolutionLoops.ReportClaims` | ai/campaign_evolution.py:293-323 | one claimant gives a continuing entry, several a merge, with their sizes, shares and new domains |
| `EvolutionLoops.SortUnclaimed` | ai/campaign_evolution.py:326-343 | unclaimed clusters are new, or offshoots listed under the previous cluster they resemble |
| `EvolutionLoops.CollectDissolved` | ai/campaign_evolution.py:325 | the previous clusters without a match |
| `EvolutionLoops.ReportSplits` | ai/campaign_evolution.py:345-357 | one split per previous cluster with offshoots, with its primary fragment, its offshoots sorted and as often as they were listed, and its sizes |
| `Ordering.SortOfDistinct` | ai/campaign_evolution.py:353 | sorting a list, which keeps its repeats, is sorting the set of its elements if there are none |
| `EvolutionLoops.FindMergeCandidates` | ai/campaign_evolution.py:371-388 | the double loop computes the list the next two rows are about |
| `EvolutionMeaning.MergeCandidatesMean` | ai/campaign_evolution.py:371-388 | the candidates are exactly the pairs of an earlier and a later current cluster at or above the threshold, with their similarity |
| `EvolutionMeaning.MergeCandidatesOnce` | ai/campaign_evolution.py:371-388 | each such pair is listed once |
| `EvolutionLoops.DetectEvolution` | ai/campaign_evolution.py:254-368 | for all snapshots, repeated ids included, every lookup is defined and the loops compute the report of the dictionaries, `DictionaryReport`; without repeated ids that is `TheReport` |
| `EvolutionLoops.DistinctIdsAreReported` | ai/campaign_evolution.py:275-357 | between snapshots that repeat no id, going through dictionaries loses, overwrites and reorders nothing |
| `EvolutionRepeats.RecordedIsLast` | ai/campaign_evolution.py:280-284 | of the previous clusters with one id, the last that matched anything is the one recorded |
| `EvolutionRepeats.ContinuingMeans` | ai/campaign_evolution.py:296-314 | for all snapshots: an id continues as another if and only if that one is recorded for it and for no other |
| `EvolutionRepeats.MergeMeans` | ai/campaign_evolution.py:315-323 | for all snapshots: an id is a merge target if and only if it is recorded for several previous ids |
| `EvolutionRepeats.MergeNamesItsSources` | ai/campaign_evolution.py:315-323 | and the merge names exactly those |
| `EvolutionRepeats.NewMeans` | ai/campaign_evolution.py:326-340 | for all snapshots: an id is new if and only if it is recorded for none and a cluster of this id matches nothing |
| `EvolutionRepeats.SplitMeans` | ai/campaign_evolution.py:326-357 | for all snapshots: an id is an offshoot of another if and only if it is recorded for none and a cluster of this id is most similar to one of the other, above the threshold |
| `EvolutionRepeats.PreviousCounted` | ai/campaign_evolution.py:293-325 | for all snapshots: a previous id is reported once if a match is recorded for it, otherwise as dissolved, as often as it occurs |
| `EvolutionRepeats.CurrentCounted` | ai/campaign_evolution.py:293-357 | for all snapshots: a current id is reported once if it is recorded for some previous id, otherwise as new or as an offshoot, as often as it occurs |
| `EvolutionMeaning.ContinuingMeans` | ai/campaign_evolution.py:296-314 | i continues as j if and only if i matched j and no other previous cluster did |
| `EvolutionMeaning.ContinuingCarries` | ai/campaign_evolution.py:299-314 | its entry carries both sizes, the similarity (which clears the threshold), exactly the domains only the newer one has, in order, and both shares |
| `EvolutionMeaning.MergeMeans` | ai/campaign_evolution.py:315-323 | j is a merge target if and only if at least two previous clusters matched it |
| `EvolutionMeaning.MergeNamesItsSources` | ai/campaign_evolution.py:315-323 | a merge names exactly the previous clusters that matched its target, and carries the target's size |
| `EvolutionMeaning.DissolvedMeans` | ai/campaign_evolution.py:325 | a previous cluster is dissolved if and only if it matched nothing |
| `EvolutionMeaning.NewMeans` | ai/campaign_evolution.py:326-340 | a current cluster is new if and only if nothing matched it and it matches nothing |
| `EvolutionMeaning.SplitMeans` | ai/campaign_evolution.py:326-357 | j is an offshoot of i if and only if nothing matched j and j is most similar to i, above the threshold |
| `EvolutionSplits.SplitCarries` | ai/campaign_evolution.py:346-357 | a split's primary fragment is the current cluster its previous cluster matched; its total is the sizes of the primary and of every cluster that broke off |
| `EvolutionSplits.OneSplitEach` | ai/campaign_evolution.py:345-357 | no previous cluster is split twice |
| `EvolutionSplits.PrimaryContinuesIff` | ai/campaign_evolution.py:159-160 | the primary fragment is also continuing if and only if no other previous cluster matched it, and a merge target otherwise |
| `EvolutionSplits.PrimaryMayBeMerged` | ai/campaign_evolution.py:159-160 | two clusters in each snapshot where it is a merge target |
| `EvolutionPartition.PreviousIsPartitioned` | ai/campaign_evolution.py:293-325 | weighed in any way, previous ids weigh as much as continuing, merged and dissolved ids together |
| `EvolutionPartition.PreviousExactlyOnce` | ai/campaign_evolution.py:293-325 | each previous id is reported exactly once: continuing, in one merge, or dissolved |
| `EvolutionPartition.CurrentIsPartitioned` | ai/campaign_evolution.py:293-357 | the same for current ids: continuing, merge target, new, or offshoot |
| `EvolutionPartition.CurrentExactlyOnce` | ai/campaign_evolution.py:293-357 | each current id is reported exactly once among those four |
| `EvolutionPartition.PreviousSizesConserved` | ai/campaign_evolution.py:304-325 | the previous sizes add up: continuing before-sizes, merge totals and the sizes of the dissolved |
| `EvolutionSurges.ShareMeans` | ai/campaign_evolution.py:68-71 | a share is known if and only if the population is given and positive, and of it makes the size |
| `EvolutionSurges.SurgingIff` | ai/campaign_evolution.py:94-130 | an entry surges if and only if its share grew by the ratio, or its size where a population is not known; one of size 0 never does |
| `EvolutionSurges.SurgingMeans` | ai/campaign_evolution.py:185-186 | the same of the two snapshots: which campaigns of the report surge |
| `EvolutionSurges.TopUpIsNoSurge` | ai/campaign_evolution.py:105-113 | where all counts grow by one factor a campaign surges only at a ratio of at most 1, although its size reaches every ratio up to the factor |
| `PortableModel.CollectUses` | ai/scripts/make_android_portable_model.py:46-53 | which node reads which tensor at which input; stops exactly at a MatMulInteger whose signed matrix lacks a signed zero point or whose matrix is no initializer |
| `PortableModel.RewriteTensors` | ai/scripts/make_android_portable_model.py:54-69 | every signed initializer is shifted and no other changes, exactly if all are used only as matrix or zero point and there are 148 |
| `PortableModel.Convert` | ai/scripts/make_android_portable_model.py:46-69 | succeeds if and only if the graph is acceptable; the exactness check never fires |
| `PortableMeaning.AcceptedMeans` | ai/scripts/make_android_portable_model.py:46-69 | which graphs are acceptable: every MatMulInteger matrix is an initializer, with a signed zero point if it is signed; every signed initializer is read, as matrix or zero point only; and there are 148 |
| `PortableModel.FlipAdds128` | ai/scripts/make_android_portable_model.py:3-4 | xor with 128 on the byte is +128 on the signed value, for every byte |
| `GraphMeaning.MatMulUnchanged` | ai/scripts/make_android_portable_model.py:3-4 | shifting a signed matrix together with its zero point changes no product, for every rank, every pairing of cells with zero points and every kernel on the centred operands |
| `MatrixMeaning.UnitRowPicks` | ai/scripts/make_android_portable_model.py:3-4 | the two-dimensional product: a unit row picks a row of the matrix |
| `MatrixMeaning.UnitColumnPicks` | ai/scripts/make_android_portable_model.py:3-4 | and a unit column a column |
| `MatrixMeaning.MatMulPicks` | ai/scripts/make_android_portable_model.py:3-4 | the operator on bytes: a unit row picks a row of the matrix, each byte read by its type, less the zero point |
| `MatrixMeaning.DotAddsUp` | ai/scripts/make_android_portable_model.py:3-4 | and the product of a sum of rows is the sum of their products |
| `MatrixMeaning.Int32Means` | ai/scripts/make_android_portable_model.py:3-4 | the accumulator is the value modulo 2^32 in the signed 32-bit range |
| `PortableModel.SignedUsesAllowed` | ai/scripts/make_android_portable_model.py:58-61 | in an accepted graph a signed initializer is read only as matrix or zero point of a MatMulInteger |
| `GraphMeaning.ConversionPreservesMeaning` | ai/scripts/make_android_portable_model.py:3-5 | every value computed by any node of a valid accepted graph is unchanged, for all inputs that override a signed matrix and its zero point together or not at all, and all meanings of the other operators; both graphs fail together |
| `GraphMeaning.RunsExactlyWhen` | ai/scripts/make_android_portable_model.py:58-61 | where the original runs, the re-encoded graph runs if and only if the inputs override signed matrices and their zero points together |
| `GraphMeaning.OutputsKeptExactlyWhen` | ai/scripts/make_android_portable_model.py:58-61 | the graph's outputs are unchanged if and only if none of them names a shifted initializer |
| `OverlookedOutput.AcceptedButChanged` | ai/scripts/make_android_portable_model.py:46-69 | a graph of 147 products and one shared zero point that is accepted, runs, and returns something else once re-encoded |
| `OverlookedOutput.AcceptedButStopped` | ai/scripts/make_android_portable_model.py:46-69 | the same graph, with the zero point given by the caller, runs before the re-encoding and not after |
| `SpecialTokens.SplitSpecialTokens` | ai/scripts/build_mobile_bundle.py:97-125 | the cursor loop computes the split at the first token, then of the rest |
| `SpecialTokens.RenderSplit` | ai/scripts/build_mobile_bundle.py:97-125 | rendering the pieces gives the text back |
| `SpecialTokens.SplitIsNormal` | ai/scripts/build_mobile_bundle.py:110-124 | no piece is empty, no two ordinary pieces are adjacent, no ordinary piece contains a token |
| `SpecialTokens.SplitRender` | ai/scripts/build_mobile_bundle.py:97-125 | splitting the rendering of any normal piece list gives that list: the split is a bijection onto them |
| `SpecialTokens.SplitAround` | ai/scripts/build_mobile_bundle.py:104-120 | the split of t1 + token + t2 is the split of t1, the token, the split of t2 |
| `SpecialTokens.CollectContent` | ai/scripts/build_mobile_bundle.py:144-156 | the ids of the pieces with each segment's own wrapper removed; refused exactly if a segment is not wrapped in BOS and EOS |
| `SpecialTokens.ContentAroundToken` | ai/scripts/build_mobile_bundle.py:135-140 | before truncation, the ids of t1 + token + t2 are those of t1, the token's id, those of t2 |
| `StitchMeaning.TokensAre` | ai/scripts/build_mobile_bundle.py:104-120 | each of the five added tokens cuts a text in two and becomes its id |
| `StitchMeaning.PlainText` | ai/scripts/build_mobile_bundle.py:144-156 | a text without tokens is asked about in one piece and gives the graph's ids without their wrapper |
| `StitchMeaning.ContentFailsIff` | ai/scripts/build_mobile_bundle.py:149-155 | stitching fails if and only if the graph does not wrap its answer for some ordinary piece |
| `SpecialTokens.Stitch` | ai/scripts/build_mobile_bundle.py:141-161 | BOS, the longest prefix of the content that fits, EOS right after it, then only padding; never longer than max_length and exactly that long when padded; the two error cases |
| `BundleDigest.CanonicalText` | ai/retraining/checksum.py:102-104 | sorting and then dropping the version file gives the lines of the covered files in code-point order |
| `BundleDigest.OneTextPerBundle` | ai/retraining/checksum.py:93-101 | two bundles with ordinary names have one text if and only if they hold the same files with the same digests up to case, whatever their version files |
| `BundleDigest.OneTextPerReading` | ai/retraining/checksum.py:102-104 | whatever the names, two bundles have one text if and only if they read as the same one file, by name and lower-case digest |
| `BundleDigest.LineBreakInNameCollides` | ai/retraining/checksum.py:102-104 | every bundle of two or more covered files, whatever their names, shares its text with a bundle of one file |
| `BundleDigest.SharedTextIff` | ai/retraining/checksum.py:102-104 | whatever the names, a bundle shares its text with a different one if and only if it covers two or more files, or one whose name is a first name, tab, digest, line break and a later name |
| `DigestMeaning.OneFileText` | ai/retraining/checksum.py:102-104 | the text of one file: name, tab, digest in lower case, line feed |
| `DigestMeaning.LowerMeans` | ai/retraining/checksum.py:103 | A to Z become a to z and every other character stays |
| `DigestMeaning.VersionFileLeftOut` | ai/retraining/checksum.py:93-104 | adding or changing the version file changes nothing |
| `Sync.Backend.constructor` | ai/scripts/sync_campaigns_to_backend.py:164 | a backend with the given active campaigns |
| `Sync.Backend.Post` | ai/scripts/sync_campaigns_to_backend.py:169 | creates a campaign, or not, or creates it and loses the reply |
| `Sync.Backend.Deactivate` | ai/scripts/sync_campaigns_to_backend.py:172-177 | deactivates one campaign, with the same three outcomes |
| `Sync.Synchronize` | ai/scripts/sync_campaigns_to_backend.py:158-179 | for any outcomes, the script's loops are a complete run of the state machine, and it returns normally exactly if that run succeeded |
| `Sync.EveryPointIsSafe` | ai/scripts/sync_campaigns_to_backend.py:10-11 | at every point of every run all old campaigns are active or all new ones are, and nothing else is |
| `Sync.SuccessIsExact` | ai/scripts/sync_campaigns_to_backend.py:166-179 | success leaves exactly the new campaigns active, each with its payload |
| `Sync.FailedCreateKeepsOld` | ai/scripts/sync_campaigns_to_backend.py:161-173 | after a failed listing or creation every old campaign stays active to the end, and the run does not succeed |
| `Sync.UndoRestoresExactlyWhen` | ai/scripts/sync_campaigns_to_backend.py:161-173 | whatever the requests after a failed creation meet, every old campaign stays active, and the backend is as before if and only if the failing request had no effect and each deactivation took effect |
| `Sync.NeverEmptyIffPayloads` | ai/scripts/sync_campaigns_to_backend.py:10-11 | no run ever leaves the backend without an active campaign, if and only if there is a payload |
| `Sync.CompletesWhenNothingFails` | ai/scripts/sync_campaigns_to_backend.py:164-179 | if no request fails, the run succeeds after 1 + created + retired requests |
| `Limits.WorkLimit.constructor` | ai/service/limits.py:19-24 | both limits are at least 1 |
| `Limits.WorkLimit.ReadBody` | ai/service/limits.py:51-58 | accepts exactly the bodies within the cap, and at no time holds more than the cap |
| `Limits.WorkLimit.Screen` | ai/service/limits.py:33-58 | the three verdicts, from the header and from the bytes received |
| `Limits.WorkLimit.Admit` | ai/service/limits.py:60-67 | takes a slot exactly if one is free |
| `Limits.WorkLimit.Release` | ai/service/limits.py:71-72 | gives one slot back |
| `Limits.WorkLimit.Turn` | ai/service/limits.py:30-72 | one request's next step, as the interleaving semantics has it |
| `Limits.EveryRunIsWithinLimits` | ai/service/limits.py:47-72 | in every interleaving the counter is the number of slots taken and at most the limit; whoever is inside brought a complete body within the cap, whatever its header said |
| `Limits.CounterIsExact` | ai/service/limits.py:60-72 | the counter is the running routes plus those about to release, and the running ones alone if and only if there is none of those; at most max_concurrent run at once |
| `Limits.CounterMayExceedRunning` | ai/service/limits.py:60-72 | under every cap and every limit, four steps lead to a counter of 1 with nothing running |
| `Limits.QuietServerIsFree` | ai/service/limits.py:68-72 | once every request is answered the counter is 0: no slot leaks |
| `Limits.AnswersAreRight` | ai/service/limits.py:33-67 | an answered limited request got 400 exactly for a bad header, 413 exactly for a good one if the announced or the received length passes the cap, and was otherwise served or turned away as busy; other routes are served |
| `Limits.BusyOnlyWhenFull` | ai/service/limits.py:60-66 | a request at the door is turned away if and only if all slots are taken at that moment |

## Left out

- Floating-point rounding: float32 vectors, means and quotients are exact reals; `binomtest`'s relative tolerance of 1e-7 when it compares outcome probabilities is not modelled, outcomes are compared exactly.
- `Promotion.VerdictMeans`: does not model what `f1_score` does on an empty validation set or its warnings; with no class at all macro-F1 is 0.
- `Snapshot.BuildSnapshot`: leaves out `created_at`, stops at the text that SHA-256 digests, and has `label_counts` as a map, without its order.
- `Snapshot.SortReports`: takes a report's time as a number, so time zones and their conversion to UTC are outside.
- `CampaignGroups.FindCampaignGroups`: takes lower-casing as a parameter.
- `Matcher.CampaignMatcher.Match`: takes cosine similarity as any function above -2, and a text as its shingles and domains; building profiles, shingling and domain extraction are not part of this model.
- `CampaignSpace.BuiltCentroidsHold`: speaks of one cluster at a time; the order of cluster ids and the lexical profiles of `build_matcher_from_clusters` are not modelled. Orthonormal directions are assumed of a space, as fitting one (mean, SVD, sign convention) is not part of this model.
- `EvolutionLoops.DetectEvolution`: takes similarity as any symmetric function above -2; the rendered dictionary is left out.
- `GraphMeaning.ConversionPreservesMeaning`: nodes with subgraphs, file hashes, the manifest and the report are left out.
- `SpecialTokens.SplitSpecialTokens`: the token table and its all-false strip flags are fixed, so the two whitespace branches are never taken and not modelled; verifying the tokenizer against that table is left out.
- `BundleDigest.OneTextPerBundle`: SHA-256 itself is left out, and lower-casing covers ASCII.
- `Sync.Synchronize`: one script at a time, ids never reused, the listing complete; retries after a 429, building the payloads and the HTTP client are left out.
- `Limits.EveryRunIsWithinLimits`: assumes a request that finished its route gets the lock in `finally` (no cancellation while it waits for it); parsing the header's integer and which paths are limited are given.
- `triggers.evaluate`, the `search` and `split` of the calibration scripts, threshold sweeps, stitching parity checks and `hash_bundle`: each is a few comparisons or a call into a library, with no state to keep.
- The regular expressions for masking and labels, campaign naming, language detection and the lexicons.
- Torch, ONNX Runtime, HDBSCAN and everything outside `ai/`.
