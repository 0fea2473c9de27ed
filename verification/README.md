# Verified models of the telemetry and calibration pipeline

This project models, in Dafny, the parts of the repository where a small slip loses telemetry or
quietly changes a security threshold:

- the **consume / transform / commit loop** of the feature transformer (`CommitLoop`, with
  `CommitRuns`, `CommitDelivery` and `CommitSchedule` on its whole runs, where its records went and when it
  commits and flushes; `Transformer`, `Pipeline`): one partition is polled, drained in batches, each record is skipped, dead-lettered or
  emitted, the producer is flushed and offsets are committed per message (`sync`) or per batch;
- the **routing filter** of edge and central instances (`Routing`, on `Text`);
- the **presence mask, coverage and imputation codec** (`FeatureMask`, `FlowFeatures`);
- the **threshold calibration** scripts (`Thresholds`, `RocCurve`, `CalibrationError`, `ProviderSweep`, with
  `Curve` and `BrierScore` for the area under a curve and the Brier score);
- the **bounded in-flight load test** and its percentiles (`LoadScheduler`, `Percentile`);
- the **deduplicating merges** of YARA rules and malware hashes (`RuleDedup`, `HashMerge`), the
  **signing bytes** of anomaly messages (`SignBytes`) and the **determinism check** that compares two
  gateway runs (`DeterminismCheck`);
- the **quorum arithmetic** of the consensus engine (`Quorum`).

`Options`, `Sequences`, `Rates` and `Arithmetic` hold what several of these share: the optional value,
sequences without repetitions and sums, rates and the F1 score, and a few nonlinear facts.
`dafny verify dfyconfig.toml` checks everything.

## How the loop is modelled

`CommitLoop` states the loop as a function of its environment: an `Env` gives, for every poll, what the
consumer returns (nothing, an error event, the next record, an exception), for every record what the
transform makes of it, and for every clock reading its value. `Head(c, e, i)` is the state after `i`
iterations; statements about all `c`, `e` and `i` are statements about every reachable loop head of
every run. Each send to a topic or the table, each flush, settlement and commit is recorded in a history,
and the safety predicates are monitors over that history, so they speak of every point inside an
iteration as well. `Transformer.FeatureTransformer` is the same loop as an object that updates its
fields; each of its methods is proved equal to the corresponding function.

A record counts as handled once it is skipped, dead-lettered or emitted and everything its verdict owes
it has gone out: the dead letter or the event if there is Kafka output, the row if the insert succeeds.

A `commit()` without a message commits the consumer's position, because only auto-commit is turned off
(`telemetry-layer/feature-transformer_python/kafka_client.py:42`). That makes the forced commits
dangerous, and the model says exactly when:

- over **all** runs, every commit covers only handled records **if and only if** the drain is off (limit 1
  or zero milliseconds) and either nothing in the handling of a record can raise (no Kafka output and no
  inserts) or every record is committed before the next is polled, in batch mode (batch size or message
  limit 1) (`AllRunsSafeExactly`). Each other configuration has an explicit run that commits a record it
  has not handled;
- over the runs that no exception has ended, it holds **if and only if** the drain is off or commits are
  per message with no message limit (`CommitSafetyExactly`);
- with the drain off or in sync mode, an iteration that an exception ends is safe **if and only if** it
  polled no record, or in batch mode nothing was pending as it began (`EscapeExactly`).

Handled is not the same as kept. A failed insert is swallowed and a rejected record needs a dead-letter
topic, so with output to Postgres alone both are committed and gone. Over the runs that no exception has
ended, in the configurations where those are commit-safe, every committed record was skipped or went to
some sink **if and only if** there is Kafka output (`NothingLostExactly`).

While the loop runs, every flush and every commit comes exactly where one is due, at a produce or a
settled record (`HeadTimed`); once it is left, by return or exception, everything produced has been
flushed out (`LeftFlushed`).

Other facts the proofs bring out:

- the mask is decodable **if and only if** it has an even number of digits; with any other number of
  feature names both sinks silently lose it. The 79 columns in use give 20 digits;
- with the default coverage threshold and 79 columns a flow is emitted only if it claims both its
  metrics and its timing known;
- an edge and a central instance divide the flows **if and only if** some filter is set; with none, both
  take everything;
- turning `metrics_known` on only adds mask bits as long as the metric fields are readable; otherwise the
  transform raises and the flow is dead-lettered (`ClaimingAddsBits`);
- the two calibration scripts choose differently for a false-positive target: one takes the least grid
  threshold that meets it, the other the nearest rate on either side. They agree, and the second meets the
  target, **if and only if** no rate above the target is at least as near as every rate that meets it
  (`ScriptsAgreeExactly`, with a sample for which the 10% target gets 12.5%);
- samples scored exactly 1 fall in no calibration bin;
- the preference of signature-base over yara-rules never has an effect when signature-base is collected
  first;
- with `max_in_flight` 1 the load test ends after its first event, whatever its duration: the in-flight set
  runs empty at the first completion (`RunEventsTimed`);
- `_build_sign_bytes` says it matches `state.BuildSignBytes`, which puts a zero byte after the domain; what
  it does match is the anomaly verifier, which rebuilds exactly the signed bytes (`SignedIsVerified`);
- two quorums of 2f + 1 validators share an honest one, whatever the f faulty ones, **if and only if** the
  number of validators is 1 modulo 3 (`HonestOverlapExactly`); the quorum check asks only for four.

## Model

| member | source | states |
|---|---|---|
| CommitRuns.AllRunsSafeExactly | telemetry-layer/feature-transformer_python/transformer.py:536-707 | for every clamped configuration: all runs, ended by an exception or not, commit only handled records, exactly when the drain is off and either no handling can raise or batch mode commits every record before the next poll |
| CommitRuns.CommitSafetyExactly | telemetry-layer/feature-transformer_python/transformer.py:536-698 | for every clamped configuration: all runs not ended by an exception commit only handled records, exactly when the drain is off or commits are per message without a limit |
| CommitRuns.CommitSafety | telemetry-layer/feature-transformer_python/transformer.py:541-574 | at every commit of every such run, all records below the stored offset were settled before it, and whatever their verdict owed them (event, dead letter, row) had been sent, with a flush in between when sync flush is set |
| CommitDelivery.NothingLostExactly | telemetry-layer/feature-transformer_python/transformer.py:651-692 | in those configurations, over runs not ended by an exception, every committed record was skipped or went to a topic or the table, exactly when there is Kafka output |
| CommitDelivery.ReachedExactly | telemetry-layer/feature-transformer_python/transformer.py:651-692 | on every run a handled record went somewhere exactly when its verdict and the outputs left it somewhere to go |
| CommitDelivery.DroppedRun | telemetry-layer/feature-transformer_python/transformer.py:665-682 | any verdict without a sink, a failed insert without Kafka output among them, has a run of one iteration that commits the record and sends it nowhere |
| CommitDelivery.SentExactlyOnce | telemetry-layer/feature-transformer_python/transformer.py:651-692 | on every run a handled record was sent exactly once to each topic or table it belongs in (event, row, dead letter of a rejection or a failed insert), and to no other |
| CommitSchedule.HeadTimed | telemetry-layer/feature-transformer_python/transformer.py:541-707 | on every run, while the loop runs, a flush follows a produce exactly when each is to be flushed or the interval since the last flush is over, and a commit follows a settled record exactly in sync mode, with a full batch, or past the commit interval; a loop that is left ends with a flush |
| CommitSchedule.ScheduledStep | telemetry-layer/feature-transformer_python/transformer.py:541-574 | the schedule read at one step of a history |
| CommitSchedule.LeftFlushed | telemetry-layer/feature-transformer_python/transformer.py:695-707 | once the loop is left, by return or exception, everything ever produced was flushed out afterwards |
| CommitSchedule.SyncCommitsAll | telemetry-layer/feature-transformer_python/transformer.py:543-545 | in sync mode, drained or not, everything handled is committed at every head of the running loop |
| CommitSchedule.IterationEnds | telemetry-layer/feature-transformer_python/transformer.py:594-707 | an iteration is ended by an exception exactly when a poll raises or a polled record within the limit does; otherwise the loop returns exactly when the records polled reach the limit |
| CommitRuns.CommitSafeAt | telemetry-layer/feature-transformer_python/transformer.py:541-561 | the monitor read at a single commit: each record below the committed offset was handled at an earlier point of the history |
| CommitRuns.EscapeExactly | telemetry-layer/feature-transformer_python/transformer.py:594-707 | with the drain off or in sync mode, an iteration that an exception ends is commit-safe exactly when it polled no record, or in batch mode nothing was pending as it began |
| CommitRuns.UnsafeEscapeInSync | telemetry-layer/feature-transformer_python/transformer.py:665-707 | sync mode with the drain off: a first record whose handling raises is committed |
| CommitRuns.UnsafeEscapeInBatch | telemetry-layer/feature-transformer_python/transformer.py:665-707 | batch mode with the drain off and room for a pending record: a skipped record and then one whose handling raises, and both are committed |
| CommitRuns.UnsafeEscapeInDrain | telemetry-layer/feature-transformer_python/transformer.py:576-707 | sync mode with the drain on: a record and then a poll that raises, and the record is committed unhandled |
| CommitRuns.UnsafeBatchRun | telemetry-layer/feature-transformer_python/transformer.py:551-592 | batch mode with the drain on: an explicit run of one iteration commits a record it has not handled |
| CommitRuns.UnsafeLimitRun | telemetry-layer/feature-transformer_python/transformer.py:576-698 | sync mode with the drain on and a message limit: an explicit run commits past the limit when it returns |
| CommitRuns.BatchBound | telemetry-layer/feature-transformer_python/transformer.py:551-561 | at every loop head the pending counter is the number of records handled since the last commit and is below the batch size; with the drain off it is the lag of the stored offset |
| CommitRuns.BatchBoundThroughout | telemetry-layer/feature-transformer_python/transformer.py:541-698 | at every point of the history, inside iterations too, at most one batch is handled and uncommitted; with the drain off the stored offset never runs ahead and lags by at most that |
| CommitRuns.NothingPendingAfterReturn | telemetry-layer/feature-transformer_python/transformer.py:693-707 | with the drain off, after a normal return the stored offset, the handled count and the message limit coincide |
| CommitRuns.Conservation | telemetry-layer/feature-transformer_python/transformer.py:594-698 | on every run the handled records are a prefix of the polled ones, in order, once each, with the outcome the transform gave them; the counter is the sum of the three outcomes and respects the limit |
| CommitLoop.HeadKeeps | telemetry-layer/feature-transformer_python/transformer.py:594-698 | the inductive invariant of every loop head: order, handled prefix, limit, batch counter, and safety under per-message commits |
| CommitLoop.RecordKeeps | telemetry-layer/feature-transformer_python/transformer.py:601-698 | one record keeps the invariant through each of its branches, and an exception leaves the loop exactly when the dead letter of a failed insert cannot be rendered or the output cannot be encoded |
| CommitLoop.BatchKeeps | telemetry-layer/feature-transformer_python/transformer.py:600-698 | a drained batch whose records line up with the log keeps the invariant and is handled completely unless the loop is left |
| CommitLoop.DrainKeeps | telemetry-layer/feature-transformer_python/transformer.py:576-592 | draining changes only the consumer and the clock, and the batch holds exactly the records between the handled count and the position, in order; item after item is what the polls gave, within the limit, ending early only at a quiet poll, an exception or the deadline |
| CommitLoop.ForceKeeps | telemetry-layer/feature-transformer_python/transformer.py:546-561 | a forced commit from a safe state is safe exactly when every polled record is handled, or in batch mode nothing is pending |
| CommitLoop.InsertKeeps | telemetry-layer/feature-transformer_python/transformer.py:665-682 | after the database step the row is stored, or the dead letter of a failed insert is out when there is Kafka output; nothing already established is lost |
| CommitLoop.PublishKeeps | telemetry-layer/feature-transformer_python/transformer.py:563-574 | after a produce the record is out, and flushed when sync flush is set; nothing already established is lost |
| CommitRuns.SettledOnce | telemetry-layer/feature-transformer_python/transformer.py:600-698 | in an ordered history a record is settled once if its turn has come and never otherwise |
| Transformer.FeatureTransformer.constructor | telemetry-layer/feature-transformer_python/transformer.py:536-539 | the fields start as the initial state of the loop |
| Transformer.FeatureTransformer.MaybeCommit | telemetry-layer/feature-transformer_python/transformer.py:541-561 | the object's commit step is the loop function's, in both modes |
| Transformer.FeatureTransformer.MaybeFlushProducer | telemetry-layer/feature-transformer_python/transformer.py:563-574 | the object's flush step is the loop function's |
| Transformer.FeatureTransformer.DrainBatch | telemetry-layer/feature-transformer_python/transformer.py:576-592 | the draining `while` loop computes the specified batch and consumer state |
| Transformer.FeatureTransformer.SettleMessage | telemetry-layer/feature-transformer_python/transformer.py:693-698 | commit, count and, at the limit, the two forced commits and flushes of the return |
| Transformer.FeatureTransformer.HandleMessage | telemetry-layer/feature-transformer_python/transformer.py:609-698 | the branches of one message: skip, dead letter, Postgres failure, encoding failure, emit |
| Transformer.FeatureTransformer.HandleMessages | telemetry-layer/feature-transformer_python/transformer.py:600-698 | the loop over a drained batch is the specified handling of the batch |
| Transformer.FeatureTransformer.Close | telemetry-layer/feature-transformer_python/transformer.py:699-707 | the `finally` block |
| Transformer.FeatureTransformer.Run | telemetry-layer/feature-transformer_python/transformer.py:594-707 | after any number of iterations the object is at the specified loop head, so the limit, the batch bound and commit safety hold of it |
| Pipeline.EmittedMeetsCoverage | telemetry-layer/feature-transformer_python/transformer.py:622-643 | on every run with the mask enabled, decoding the mask of an emitted event gives at least the configured coverage |
| Pipeline.OneInstanceTakesEach | telemetry-layer/feature-transformer_python/transformer.py:622-632 | once an edge and a central run over the same log have both handled a decodable record, exactly one of them skipped it |
| Pipeline.SettledVerdict | telemetry-layer/feature-transformer_python/transformer.py:609-692 | what a run settles for a record is the outcome of its verdict |
| Pipeline.OutcomeExactly | telemetry-layer/feature-transformer_python/transformer.py:609-663 | on every run and for every role an undecodable record is dead-lettered, a decodable one skipped exactly when it is not for the role, and of the others exactly those emitted that are complete, readable, name their flow and meet the coverage |
| Routing.NormalizeIdempotent | telemetry-layer/feature-transformer_python/transformer.py:168-178 | normalising a normalised source type changes nothing |
| Routing.FormsAgree | telemetry-layer/feature-transformer_python/transformer.py:154-178 | the number, the printed number and the name of a mapped source type normalise alike |
| Routing.RoutingIgnoresForm | telemetry-layer/feature-transformer_python/transformer.py:168-212 | no role can tell those forms apart |
| Routing.ExactlyOneRole | telemetry-layer/feature-transformer_python/transformer.py:191-212 | a flow passes exactly one of the edge and central filters if and only if the lists are not both empty |
| Routing.RolesPartition | telemetry-layer/feature-transformer_python/transformer.py:191-212 | the two instances divide every flow log between them, nothing lost and nothing taken twice |
| Routing.TakenExactly | telemetry-layer/feature-transformer_python/transformer.py:191-212 | an instance takes every occurrence of the flows meant for it and no other |
| Routing.SameTypeExactly | telemetry-layer/feature-transformer_python/transformer.py:154-178 | two source types normalise alike exactly when they are forms of one mapped type or the same cleaned text |
| Routing.RolesExactly | telemetry-layer/feature-transformer_python/transformer.py:191-212 | with filters an edge instance takes exactly the flows whose stripped id is listed or whose type is a listed one in any form, a central one exactly the others, any other role all; without filters every role all |
| Text.StripParts | telemetry-layer/feature-transformer_python/transformer.py:173 | stripping removes all spaces at the two ends and nothing else |
| FeatureMask.Mask | telemetry-layer/feature-transformer_python/transformer.py:375-381 | the accumulating loop prints the number whose bits are the presence of each name |
| FeatureMask.MaskHexShape | telemetry-layer/feature-transformer_python/transformer.py:380-381 | the text has exactly the width of the name list and is hexadecimal for that number |
| FeatureMask.MaskRoundTrip | telemetry-layer/feature-transformer_python/transformer.py:231-236 | decoding to bytes succeeds exactly for a non-empty name list with an even number of digits, and then each bit says which feature was present, spare bits are clear, and the count of bits is the count of features |
| FeatureMask.RecoverInverts | telemetry-layer/feature-transformer_python/transformer.py:436-443 | the decoded mask and the imputed numbers give back every optional value |
| FeatureMask.UnknownIsZero | telemetry-layer/feature-transformer_python/transformer.py:392-399 | where the decoded mask has no bit the imputed value is zero, where it has one it is the known value |
| FeatureMask.Impute | telemetry-layer/feature-transformer_python/transformer.py:392-399 | the loop returns the same keys with zero exactly where nothing is known |
| FeatureMask.CoverageIsPopCount | telemetry-layer/feature-transformer_python/transformer.py:384-389 | with distinct names that are the keys, coverage is the population count of the printed mask over the number of names |
| FeatureMask.MorePresentMoreBits | telemetry-layer/feature-transformer_python/transformer.py:375-381 | more features present means a superset of mask bits |
| FlowFeatures.ComputeFeatures | telemetry-layer/feature-transformer_python/transformer.py:270-372 | it raises exactly when an integer it reads is unreadable; otherwise the group-by-group writes build the dictionary given by one formula per name |
| FlowFeatures.WriteMetrics | telemetry-layer/feature-transformer_python/transformer.py:300-334 | the guarded writes of the metrics branch leave under each metric the value of its own formula, or nothing |
| FlowFeatures.PresentFrom | telemetry-layer/feature-transformer_python/transformer.py:270-372 | exactly which names are present for a flow: claimed groups, readable fields, positive denominators |
| FlowFeatures.KnowingAddsBits | telemetry-layer/feature-transformer_python/transformer.py:270-381 | turning any of the three known claims on only adds mask bits |
| FlowFeatures.ClaimingAddsBits | telemetry-layer/feature-transformer_python/transformer.py:286-381 | claiming more keeps a payload readable exactly when the metrics it then claims are readable, and in that case only adds mask bits |
| FlowFeatures.TransformFlow | telemetry-layer/feature-transformer_python/transformer.py:463-488 | no event exactly when an integer is unreadable; otherwise the identity fields with the normalised source type, the mask and coverage when enabled, and the imputed features |
| FlowFeatures.IdentityOfPayload | telemetry-layer/feature-transformer_python/transformer.py:469-483 | each identity field of the event is the payload's own, with missing integers zero, and mask and coverage are there exactly when enabled |
| FlowFeatures.PlainFieldsOfPayload | telemetry-layer/feature-transformer_python/transformer.py:297-370 | the ports, the known timings and the known flags of an event are the payload's |
| FlowFeatures.MetricsOfPayload | telemetry-layer/feature-transformer_python/transformer.py:300-334 | a metric of the event is the formula over the payload's own counters |
| FlowFeatures.RatesOfFlow | telemetry-layer/feature-transformer_python/transformer.py:316-320 | each rate times the duration in milliseconds is a thousand times its count, and without a duration there is none |
| FlowFeatures.MeansOfFlow | telemetry-layer/feature-transformer_python/transformer.py:322-334 | each mean or ratio times its denominator is its numerator, and without a positive denominator there is none |
| FlowFeatures.ClearBitMeansZero | telemetry-layer/feature-transformer_python/transformer.py:375-399 | a bit of the decoded mask is set exactly when the flow yields the feature, and where it is clear the feature is zero |
| FlowFeatures.ProducedEvent | telemetry-layer/feature-transformer_python/transformer.py:640-643 | an event past the gate decodes to a mask of at least the demanded coverage from which all optional values can be read back |
| FlowFeatures.TenMaskBytes | telemetry-layer/feature-transformer_python/transformer.py:231-236 | 79 columns always decode, to ten bytes |
| FlowFeatures.DefaultGateNeedsMetricsAndTiming | telemetry-layer/feature-transformer_python/config.py:169 | with 79 columns and threshold 0.45 only flows claiming both metrics and timing pass the gate |
| Thresholds.CountsMonotone | sentinel/scripts/calibration_ember_v2.py:161-169 | flagged counts never increase and unflagged counts never decrease with the threshold |
| Thresholds.RatesMonotone | sentinel/scripts/calibration_ember_v2.py:161-192 | true and false positive rates never rise and the miss rate never falls with the threshold |
| Thresholds.CountIsSize | sentinel/scripts/calibration_ember_v2.py:164-169 | a count is the number of samples with the label at or above the threshold, or below it |
| Thresholds.MetricsIdentities | sentinel/scripts/calibration_ember_v2.py:164-192 | the four counts are numbers of samples that share out the labels, each rate times its whole is its part, complements sum to 1, and F1 is 2TP / (2TP + FP + FN) |
| Thresholds.ArgMax | sentinel/scripts/calibration_ember_v2.py:214-219 | the first index of the maximum |
| Thresholds.Select | sentinel/scripts/calibration_ember_v2.py:226-230 | filtering then taking the first maximum gives the first best among the allowed entries, none exactly when none is allowed |
| Thresholds.PickAtFpr | sentinel/scripts/calibration_ember_v2.py:221-230 | the threshold picked for an FPR target is the least grid threshold meeting it; none exactly when none meets it |
| Thresholds.PickAtFnr | sentinel/scripts/calibration_ember_v2.py:232-240 | the threshold picked for an FNR target meets it at the FPR of the greatest grid threshold that does, and is the least with that FPR |
| Thresholds.FindOptimalThresholds | sentinel/scripts/calibration_ember_v2.py:195-249 | the whole report: the sweep, the area under its curve in [0, 1], the first maximisers of Youden's J and of F1, and every target selection as specified |
| Curve.ArgSort | sentinel/scripts/calibration_ember_v2.py:211 | every index once, by increasing value |
| Curve.AreaBound | sentinel/scripts/calibration_ember_v2.py:212 | the trapezoid area over sorted abscissae lies between zero and the width swept |
| Curve.AreaOfLine | sentinel/scripts/calibration_ember_v2.py:212 | the area under points of a straight line is the exact integral of the line |
| Curve.AreaSplits | sentinel/scripts/calibration_ember_v2.py:212 | the area splits at any point of the list |
| Curve.AucBounded | sentinel/scripts/calibration_ember_v2.py:210-212 | in whatever order ties are sorted, the area under points of the unit square lies in [0, 1] |
| RocCurve.SweepCurve | sentinel/scripts/calibration_ember.py:228-242 | dividing by the counts gives the same rates as dividing by the label totals |
| RocCurve.ComputeRocCurve | sentinel/scripts/calibration_ember.py:219-283 | the curve, its area in [0, 1], the first maximiser of Youden's J, and for each target the first threshold of the nearest rate |
| RocCurve.NearestExceedsExactly | sentinel/scripts/calibration_ember.py:255-264 | the chosen rate exceeds its target exactly when some rate above it is at least as near as every rate that meets it |
| RocCurve.ScriptsAgreeExactly | sentinel/scripts/calibration_ember.py:255-264 | the choice is the least grid threshold meeting the target, as the other script chooses, exactly when the rates do not overshoot |
| RocCurve.OvershootExample | sentinel/scripts/calibration_ember.py:255-264 | eight samples on which the 10% target gets a rate of 12.5% |
| CalibrationError.BinsDisjoint | sentinel/scripts/calibration_ember.py:298-299 | no score lies in two bins |
| CalibrationError.BinsCoverAllButOnes | sentinel/scripts/calibration_ember.py:293-299 | bin sizes sum to the samples minus those scored exactly 1 |
| CalibrationError.EceBelowMce | sentinel/scripts/calibration_ember.py:305-307 | 0 <= ECE <= MCE <= 1 for any bins with gaps in [0, 1] |
| BrierScore.SquareOfSum | sentinel/scripts/calibration_ember.py:289-290 | the square of the total absolute error is at most the number of samples times the total squared error |
| BrierScore.SquareBelowBrier | sentinel/scripts/calibration_ember.py:289-290 | whatever is at most the mean absolute error has a square of at most the Brier score |
| CalibrationError.EceSquaredBelowBrier | sentinel/scripts/calibration_ember.py:289-307 | the square of the expected calibration error never exceeds the Brier score |
| CalibrationError.BinFacts | sentinel/scripts/calibration_ember.py:300-316 | a bin's accuracy, confidence and gap, once per sample, are its label sum, its score sum and the absolute difference of the two |
| CalibrationError.SumInSplits | sentinel/scripts/calibration_ember.py:301-302 | sums over adjacent bins add up, and over a bin of all samples give the whole sum |
| BrierScore.BrierTimes | sentinel/scripts/calibration_ember.py:290 | the Brier score, once per sample, is the sum of the squared errors |
| BrierScore.SquareSumSplits | sentinel/scripts/calibration_ember.py:290 | squared errors add up over any split, and a single one is the square of its error |
| CalibrationError.CalibrationMetrics | sentinel/scripts/calibration_ember.py:286-328 | the Brier score is the mean squared error, at most 1 and at least the square of ECE; ECE, once per sample, is the absolute differences of the bins' label and score sums added up; the loop's ECE is the weighted sum over the non-empty bins, MCE their maximum gap, sizes add up, and 0 <= ECE <= MCE <= 1 |
| ProviderSweep.ConfusionMatrix | sentinel/scripts/calibrate_providers.py:445-462 | the four counters are the numbers of pairs flagged or not and malicious or not, and sum to the length of the paired prefix |
| ProviderSweep.SevenToThree | sentinel/scripts/calibrate_providers.py:577-580 | the raw weight is three parts accuracy to seven parts F1 |
| Rates.HarmonicIsF1 | sentinel/scripts/calibrate_providers.py:432-434 | the harmonic mean of precision and recall is 2TP / (2TP + FP + FN) |
| ProviderSweep.OptimalThreshold | sentinel/scripts/calibrate_providers.py:402-442 | the first grid threshold of maximal F1 when that is positive, otherwise the default |
| ProviderSweep.MatrixReproduces | sentinel/scripts/calibrate_providers.py:445-462 | the matrix recomputed at the returned threshold reproduces the returned precision, recall, F1 and accuracy, each as a rate of its counts |
| ProviderSweep.AssignWeights | sentinel/scripts/calibrate_providers.py:577-586 | weights end as the raw weights over their total, summing to 1, when that is positive, and stay raw otherwise |
| LoadScheduler.LimitIs | sentinel/scripts/phase4_loadtest.py:357 | a limit given and not zero is the limit; otherwise it is 64, or 32 per worker if that is more |
| LoadScheduler.Fill | sentinel/scripts/phase4_loadtest.py:385-393 | topping up keeps the accounting, the round robin and the in-flight limit, and stops only at the limit or past the end |
| LoadScheduler.CompleteKeeps | sentinel/scripts/phase4_loadtest.py:395-405 | completing any in-flight submission keeps the accounting, the round robin and the limit |
| LoadScheduler.RunEventsTimed | sentinel/scripts/phase4_loadtest.py:345-405 | at every point the loop is watched or left: submitted = completed + in flight, in flight within the limit, each completion with its own latency; on a normal exit every submission is completed; pool positions differ by at most one submission; exits follow what the waits brought; with room for two the run ends only once time is over, with room for one after its first submission |
| LoadScheduler.UsesOf | sentinel/scripts/phase4_loadtest.py:377-383 | round robin uses a position once per full turn and once more if the last turn passed it |
| Percentile.SortedUnique | sentinel/scripts/phase4_loadtest.py:58 | a sorted list is determined by its elements |
| Percentile.AtMonotone | sentinel/scripts/phase4_loadtest.py:59-66 | interpolation is monotone in the fractional rank, within and across segments |
| Percentile.AtWhole | sentinel/scripts/phase4_loadtest.py:62-63 | a whole rank is that element |
| Percentile.AtSegment | sentinel/scripts/phase4_loadtest.py:64-66 | between two neighbouring ranks the value runs along the straight line through the two elements |
| Percentile.AtMidpoint | sentinel/scripts/phase4_loadtest.py:64-66 | halfway between two ranks of a segment lies the mean of their values |
| Percentile.PercentileIsMedian | sentinel/scripts/phase4_loadtest.py:55-66 | the 50th percentile is the median of the list |
| Percentile.PercentileMonotone | sentinel/scripts/phase4_loadtest.py:55-66 | the percentile is monotone in the requested rank for every list |
| Percentile.PercentileEnds | sentinel/scripts/phase4_loadtest.py:55-66 | rank 0 is the minimum and rank 100 the maximum |
| Percentile.PercentileOfPermutation | sentinel/scripts/phase4_loadtest.py:55-66 | the order of the values does not matter |
| Percentile.MeanBounds | sentinel/scripts/phase4_loadtest.py:75 | the mean lies between the minimum and the maximum |
| Percentile.MeanTimes | sentinel/scripts/phase4_loadtest.py:75 | the mean, once per value, is the sum |
| Sequences.SumSplits | sentinel/scripts/phase4_loadtest.py:75 | sums add up over any split, and a single element is its own sum |
| Percentile.Stats | sentinel/scripts/phase4_loadtest.py:69-80 | min <= p50 <= p95 <= p99 <= max and min <= mean <= max, with the true minimum, maximum and mean, and p50 the median; zeros for no values |
| RuleDedup.FreeName | sentinel/scripts/process_yara_rules.py:166-177 | the collision loop terminates for every finite directory with a free name: the file's own, or the first free numbered one |
| RuleDedup.TriedBound | sentinel/scripts/process_yara_rules.py:175-177 | numbers tried without success never outnumber the names taken |
| RuleDedup.CollectedInOrder | sentinel/scripts/process_yara_rules.py:117-131 | collecting signature-base first, with paths telling the origins apart, puts no signature-base file after a yara-rules file |
| RuleDedup.AddRules | sentinel/scripts/process_yara_rules.py:154-164 | new plus repeated names are all names of the file, and with ordered origins every rule keeps the file it was first seen in |
| RuleDedup.Copy | sentinel/scripts/process_yara_rules.py:166-179 | a copy goes to a place of its own that held nothing before, and adds just that name |
| RuleDedup.ProcessRepos | sentinel/scripts/process_yara_rules.py:135-181 | the files that compile are counted, distinct rules plus duplicates are all declared names, categories sum to the distinct rules, exactly the files first with some rule are copied, without overwriting; with ordered origins the preference never fires and every rule belongs to the first file declaring it, which was copied |
| HashMerge.FirstValueWins | sentinel/scripts/populate_hash_database.py:104-107 | each field of the fold holds the first non-empty value in source order |
| HashMerge.EmptyFieldSurvives | sentinel/scripts/populate_hash_database.py:104-107 | a field with no value anywhere is kept only from the first record |
| HashMerge.FoldedSources | sentinel/scripts/populate_hash_database.py:109-112 | the source list exists exactly for hashes found twice or more and is the tags in first-seen order |
| HashMerge.DistinctTagsAreDistinct | sentinel/scripts/populate_hash_database.py:109-112 | that list has no repeats and holds exactly the tags met |
| HashMerge.MergeInto | sentinel/scripts/populate_hash_database.py:102-112 | the in-place update of an aliased record is one step of the fold |
| HashMerge.MergeHashes | sentinel/scripts/populate_hash_database.py:94-114 | keys are the union of the sources; each entry is the first source's own record object, now holding the fold of the hash's records as they were before the call; all other records are unchanged |
| HashMerge.MergedRecord | sentinel/scripts/populate_hash_database.py:94-114 | what a merged record holds: first value of every field, and the distinct tags exactly when found twice or more |
| DeterminismCheck.StableIdempotent | sentinel/scripts/gateway_determinism_check.py:54-76 | projecting twice is projecting once, on every JSON tree |
| DeterminismCheck.StableExactly | sentinel/scripts/gateway_determinism_check.py:54-76 | two trees project to the same exactly when they are alike: equal scalars, arrays alike element by element, objects alike under the six keys and in the watched metadata |
| DeterminismCheck.BuildIndex | sentinel/scripts/gateway_determinism_check.py:79-83 | the loop builds the index in which later items replace earlier ones |
| DeterminismCheck.IndexContents | sentinel/scripts/gateway_determinism_check.py:79-83 | every key of an item is in the index and holds an item of the run with that key |
| DeterminismCheck.IndexIsLast | sentinel/scripts/gateway_determinism_check.py:79-83 | under each key the index holds the last item of the run with that key |
| DeterminismCheck.KeysExactly | sentinel/scripts/gateway_determinism_check.py:43-51 | two items share a key exactly when they have the same path, or neither has one and the same rendered event id, or neither has either and the same digest |
| DeterminismCheck.Compare | sentinel/scripts/gateway_determinism_check.py:102-130 | the three counters count missing and differing keys, and `ok` holds exactly when the keys are the same and the results under each are alike |
| DeterminismCheck.CompareRuns | sentinel/scripts/gateway_determinism_check.py:97-130 | two runs are reported ok exactly when their indexes have the same keys and alike results |
| DeterminismCheck.AgreementIsEquivalence | sentinel/scripts/gateway_determinism_check.py:97-130 | agreement of runs is reflexive, symmetric and transitive |
| DeterminismCheck.ReorderedRunAgrees | sentinel/scripts/gateway_determinism_check.py:79-130 | any reordering of a run with distinct keys compares equal to it |
| SignBytes.ParseInvertsBuild | ai-service/src/contracts/anomaly.py:122-147 | building succeeds exactly for 64-bit times, short keys, 16-byte nonces and 32-byte hashes, and a parser gives the fields back |
| SignBytes.BuildInvertsParse | ai-service/src/contracts/anomaly.py:122-147 | every byte string that parses is the one its fields build |
| SignBytes.BuildInjective | ai-service/src/contracts/anomaly.py:122-147 | equal sign bytes mean equal fields |
| SignBytes.BuildLaysOut | ai-service/src/contracts/anomaly.py:131-147 | the time is in the first eight bytes, the key length in the next two, then key, nonce and hash |
| SignBytes.BigEndianAt | ai-service/src/contracts/anomaly.py:132-135 | each byte weighs 256 to the power of the bytes after it |
| SignBytes.SignedIsVerified | backend/pkg/ingest/kafka/verifier.go:118-144 | for everything the producer can sign, the anomaly verifier rebuilds exactly the signed bytes, and `state.BuildSignBytes` never makes them |
| SignBytes.TimeRoundTrip | ai-service/src/contracts/anomaly.py:132 | two's-complement packing of a signed 64-bit time is undone by unpacking |
| Quorum.FourSuffice | backend/pkg/consensus/pbft/quorum.go:268-292 | the quorum check accepts exactly four validators or more; its other two refusals never happen |
| Quorum.HonestOverlapExactly | backend/pkg/consensus/pbft/quorum.go:240-253 | any two quorums share a validator outside any tolerated faulty set exactly when the number of validators is 1 modulo 3, or zero |
| Quorum.FaultyOverlap | backend/pkg/consensus/pbft/quorum.go:86-95 | for every other number, two quorums whose overlap can be entirely faulty |
| Quorum.OneBlockPerViewExactly | backend/pkg/consensus/pbft/pbft.go:221-236 | honest validators voting once per view keep a view to one certified block exactly for those numbers of validators |

## Left out

- The consensus engine beyond its quorum arithmetic (agreement across views, pacemaker, storage), the mempool, the state machine and the enforcement controller of `backend/`: not modelled.
- Kafka, Postgres, the schema registry and Prometheus: only polls, produces, flushes and commits remain, and those succeed; flush timeouts, failed commits, rebalances and several partitions are not modelled.
- Decoding, schema and required-field checks of a flow: given with each record as a yes or no; `serialises` and `encodes` likewise stand for every way rendering the event for a dead letter and building an output message can raise.
- A feature column named like an identity field of the event would overwrite it; the columns in use have no such name.
- Feature names are an enumeration of those the transformer writes, with any other column beside them; the list itself is a parameter, required to be distinct and to contain every written name where coverage is concerned.
- `bytes.fromhex` is modelled on lower-case digits, which is all a mask contains; it also takes upper case and spaces.
- Floating-point rounding, infinities and NaN: reals throughout, and the numpy grids are any strictly increasing sequence.
- Text beyond ASCII in `strip`, `lower` and `isdigit`, and booleans passed as source types.
- Transformer.FeatureTransformer.Run: watches the endless loop for a given number of iterations, any number.
- LoadScheduler.RunEventsTimed: a wait that times out raises and ends the run, so the branch for an empty result of the wait is not modelled; watches the loop for a given number of waits, any number; the clock, the latencies, what each wait brings and which future completes are free; threat-level and policy tallies are not kept.
- `compute_roc_curve` names its results by percentage; the model keeps them in target order.
- Percentile.PercentileMonotone: ranks outside 0 to 100, for which the source has no caller, are not modelled.
- ProviderSweep.AssignWeights: keeps the weights in an array instead of one statistics object per provider.
- RuleDedup.ProcessRepos: compilation, categorisation and file collection are given with the file list; the directory is a set of names per category.
- HashMerge.MergeHashes: requires every entry to be a record object of its own with a source tag and no `sources` field, as both loaders build them (`sentinel/scripts/populate_hash_database.py:26-35` and `78-86`); a `sources` list taken over from an input would be shared between two records and then appended to, which the model does not capture; field values are text or lists.
- DeterminismCheck.IndexContents: how identifiers are rendered and the fallback digest are arbitrary functions; Python's equality of `True` and `1` is not modelled.
- `DeterminismCheck` has no enumeration objects among its values, since both runs are read from JSON.
- The domain prefix, Ed25519, SHA-256, the Protobuf form of anomaly messages and `AnomalyMessage.from_bytes`.
