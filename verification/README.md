# ICAB benchmark harness: a verified model

A Dafny model of the parts of the ICAB benchmark harness whose behaviour spans
many functions, with proofs of what they keep. `dafny verify dfyconfig.toml`
checks everything.

## What is modelled

| file | modelled code |
|---|---|
| `Basics.dfy`, `Text.dfy` | shared vocabulary: options, distinctness, Python's string and tuple order, a stable sort, `join`/`split`/`strip` |
| `RunIds.dfy` | the run-id string of a run |
| `ResultStore.dfy` | `ExperimentResultStore`: three directories as maps, `save`, `load_record` |
| `Execution.dfy`, `Instances.dfy` | the loop over runs (seeds, repetitions, skip on resume, save), interruption, whole histories of sessions |
| `QuestionCampaign.dfy`, `QuestionRunner.dfy`, `CampaignLaws.dfy` | `QuestionBenchmarkRunner`: selection as a work list, the nested loops of `run` and `plan` as methods over the store, and what holds over whole campaigns |
| `ContextSpace.dfy`, `Conditions.dfy`, `Arms.dfy` | context combinations and their ids, the search for an architecture arm, the text form of an arm |
| `ExperimentDesigns.dfy`, `ContextExperiment.dfy` | the six experiment designs as selections of combinations, and `ContextExperimentRunner` |
| `Scheduler.dfy` | `ScenarioRunner.prepare`: warmup, fault and clearing cursors, steps and syncs |
| `Completeness.dfy`, `CampaignCompleteness.dfy` | `check_level_completeness` and the suite report, and what the check says of the store a campaign leaves |
| `Aggregation.dfy`, `QuestionStats.dfy`, `CampaignMetrics.dfy` | grouped aggregation, macro and micro averages, the export's own metrics |
| `Sufficiency.dfy` | minimum sufficient context among tested conditions |
| `InformationFlow.dfy`, `Grounded.dfy` | the trace scan and the trace-dependent scores |
| `Export.dfy` | the campaign export writer and its validator |

Code that works by updating state is modelled as methods with loops, over a class
where the source has an object (the result store, the two runners, the simulator and
its sync, the export writer). Every method is proved equal to a specification
function, and the laws are lemmas about those functions.

Foreign parts are parameters. The call that executes one run is an arbitrary function
`runOne` from a job to a record and a trace; `Faithful` says what `run_one` itself
guarantees, that the record carries the run id and the configuration it was given.
The hash in an instance id, the automatic campaign id, the rendering of group keys by
`str`, and the numbers and mentions found in texts are parameters too. The dimension
order and the table from dimension to architectures are an arbitrary `Catalog`;
`ContextSpace.ICAB` is the one the repository ships.

Simplifications that the claims rest on:

- Floats are exact reals; the scheduler's 1e-9 and the evaluator's 2% are kept as written.
- A file holds the value it decodes to, and `save` is one step.
- The campaign guard is a prefix test on run ids, without glob characters in the campaign name.
- An absent filter and an empty filter select alike, as in the source's truth tests.
- Human-readable reasons and messages are not kept; the branch that produces them is.

## Where the code differs from what is written about it

- **Sufficiency.** The docstring of `_minimal_sufficient_conditions` says two sufficient
  conditions of equal cardinality are always both included. One of them can strictly contain
  a third, smaller sufficient condition; only at the least cardinality are all listed
  (`EqualCardinalityMayBeBeaten`, `LeastAreListed`).
- **Completeness.** The comment on duplicate repetitions calls a re-run legitimate and merely
  flagged. The flag is an issue, and an issue makes the level incomplete, so any two runs of a
  question under one instance and repetition block completeness for good
  (`RerunNeverCompletes`). The key leaves out the seed, so a campaign over two different seeds
  can never complete a level (`TwoSeedsNeverComplete`); one over a single seed with ten
  repetitions and one executed instance for each of the 50 questions does so exactly when all
  its runs complete with their references (`IntendedCampaignCompletesIff`).
- **Resume.** A campaign can be resumed at every point exactly when its jobs are consistent
  (`CampaignResumableIff`): two jobs with one run id are the same job, which can be seen from the
  selection alone, before anything is run, since it says that selections naming one instance ask
  for the same runs (`ConsistentIffInstancesAgree`). The same condition decides whether every run
  reads back (`CampaignReadsBackIff`). Instance ids coincide in two ways. Two conditions of one
  question can resolve to one architecture arm, as C3 and C2+C3+C6 do on the shipped table when
  overshooting is allowed (`TwoConditionsOneArm`); their runs are then the same jobs and nothing is
  lost (`SameArmSameJobs`). Or a `--` inside a question or scenario id makes two readable parts the
  same (`InstanceIdsCanCollide`); a campaign with two such questions does not resume to the
  uninterrupted result from some cut (`CollidingCampaignFails`).
- **Reading back.** After `save`, `load_record` returns the saved record exactly when it had an
  evaluation or no older evaluation file was left under its id (`LoadAfterSave`); a forced re-run
  that fails reads back with the previous evaluation. A context experiment has no resume and no
  distinctness check, so a combination targeted twice runs twice under one id
  (`RepeatedTargetRepeatsRuns`); when the two runs differ, what reads back is the last one exactly
  when it has an evaluation or none came before it (`RepeatedRunReadsBackIff`).
- **Scheduler.** Active faults are the window filter when disturbances are pairwise distinct
  (`DistinctDisturbancesFollowWindows`). When two faults share a disturbance the clearing of one
  can silence the other inside its window (`SharedDisturbanceIsCut`). The last due fault is followed
  exactly unless, while its own window is open, another fault on its disturbance has ended and it was
  itself due at every boundary where that one had ended (`RunFollowsWindowIff`).
- **Export.** The validator does not compare an execution's own file with the execution, so a
  re-export of a changed record validates while the old file stays (`StaleExecutionFilePasses`).
  After any write the files agree with the exported executions exactly when no older file differed and
  records under one id do not differ from one another (`ExecutionFilesAgreeIff`); for an accepted
  export, exactly when no older file differed (`AcceptedExportAgreesIff`).
- **Arm specs.** A resolved arm is read back unless its text is a combination key, or is `all`
  while anything other than the single architecture `all` is available (`SpecRoundTrip`).

## Model

| member | source | states |
|---|---|---|
| `RunIds.RunIdInjective` | src/icab/benchmark/question_runner.py:488 | For one campaign, two run ids are the same string exactly when instance id, seed (default or any integer) and repetition are the same, for arbitrary instance-id strings |
| `ResultStore.ExperimentResultStore.Save` | src/icab/experiments/storage.py:96-112 | The new store is the old one with the raw record and trace replaced and the evaluation replaced only if there is one |
| `ResultStore.ExperimentResultStore.LoadRecord` | src/icab/experiments/storage.py:114-123 | Returns the raw file merged with the evaluation file, nothing when the raw file is missing |
| `ResultStore.LoadAfterSave` | src/icab/experiments/storage.py:96-123 | What is loaded is what was saved if and only if the record has an evaluation or no evaluation file was there |
| `Execution.RunFromFrame` | src/icab/benchmark/question_runner.py:486-523 | A loop over runs touches only its own ids, and under resume none that has a record |
| `Execution.RunFromKeepsStore` | src/icab/benchmark/question_runner.py:486-523 | The store invariant survives any loop over runs |
| `Execution.InterruptedBetween` | src/icab/benchmark/question_runner.py:486-525 | After any number of cut-off sessions each id either has no record and is as it was, or holds exactly its own run |
| `Execution.FullSession` | src/icab/benchmark/question_runner.py:486-525 | From any such store, fresh or resumed, a full session ends in the same store and results as one uninterrupted run |
| `Execution.ResumeEquivalence` | src/icab/benchmark/question_runner.py:490-498 | Any list of interruption points, each followed by a resume, ends with the same store and results as one uninterrupted run |
| `Execution.ResumableIffAgree` | src/icab/benchmark/question_runner.py:488-523 | Resumption is faithful at every interruption point if and only if runs sharing a run id write the same files |
| `Execution.SessionPreserves` | src/icab/benchmark/question_runner.py:541-551 | One session without force, fresh or resumed, cut off or not, leaves every existing file as it was |
| `Execution.HistoryPreserves` | src/icab/benchmark/question_runner.py:541-551 | No sequence of such sessions, even of different campaigns and plants, ever changes or removes a file |
| `Execution.AgreeIffConsistent` | src/icab/benchmark/question_runner.py:488-523 | Whatever the runs produce, runs sharing a run id write the same files if and only if they are one and the same job |
| `Execution.ReadBackIffConsistent` | src/icab/experiments/storage.py:96-123 | After a run over ids that were new, every id loads the record its run produced if and only if the jobs are consistent |
| `Execution.LastOutputReadsBack` | src/icab/experiments/storage.py:96-123 | Under an id saved repeatedly the last record reads back with the latest evaluation; exact condition for it being the last record itself |
| `Instances.ExecuteJob` | src/icab/benchmark/question_runner.py:488-523 | One run: skipped when resuming over a record, refused on a level mismatch, otherwise saved |
| `Instances.RunRepetitions` | src/icab/benchmark/question_runner.py:487-523 | The repetition loop over the store does what the job list says |
| `Instances.RunSeeds` | src/icab/benchmark/question_runner.py:486-525 | The seed and repetition loops together do what the job list says |
| `Instances.CountStatuses` | src/icab/benchmark/question_runner.py:273-277 | Completed and other runs are counted apart and make up all results |
| `Instances.SeedJobsDistinct` | src/icab/benchmark/question_runner.py:486-488 | Distinct seeds give every run of an instance its own run id |
| `Instances.SeedJobsCount` | src/icab/benchmark/question_runner.py:486-487 | An instance has repetitions times seeds runs |
| `QuestionCampaign.SelectionFacts` | src/icab/benchmark/question_runner.py:417-430 | Selected are exactly the questions passing all three filters, sorted by id |
| `QuestionCampaign.DefaultCombination` | src/icab/benchmark/question_runner.py:432-435 | Without explicit combinations a question runs under exactly one, that of its own required dimensions |
| `QuestionCampaign.ExecutesIffRunnable` | src/icab/benchmark/question_runner.py:242-291 | A selected combination is executed if and only if some architectures realize it exactly, or cover it and overshooting is allowed |
| `QuestionRunner.QuestionBenchmarkRunner.ExecuteInstance` | src/icab/benchmark/question_runner.py:439-525 | An instance with a faulty configuration raises before any run; otherwise store and results are those of its job list |
| `QuestionRunner.QuestionBenchmarkRunner.RunCombination` | src/icab/benchmark/question_runner.py:242-291 | One combination: skipped outcome, exception, or execution with its outcome, ids and counters |
| `QuestionRunner.QuestionBenchmarkRunner.RunQuestion` | src/icab/benchmark/question_runner.py:219-291 | The loops over scenarios and combinations carry out the question's part of the work list |
| `QuestionRunner.QuestionBenchmarkRunner.Run` | src/icab/benchmark/question_runner.py:200-315 | Store and result of a whole invocation, including the empty selection, the guard, every exception and the records the closing manifest is built from |
| `QuestionRunner.QuestionBenchmarkRunner.PlanCombination` | src/icab/benchmark/question_runner.py:366-397 | One combination of the dry run |
| `QuestionRunner.QuestionBenchmarkRunner.Plan` | src/icab/benchmark/question_runner.py:317-413 | The dry run's whole result, without touching the store |
| `CampaignLaws.CampaignJobsFacts` | src/icab/benchmark/question_runner.py:478-551 | All runs of a campaign are at its level, and the guard guarantees that none of them is on disk |
| `CampaignLaws.CampaignResume` | src/icab/benchmark/question_runner.py:200-315 | However often a campaign of consistent jobs is cut off and resumed, the last complete invocation leaves the store and returns or raises the result of one uninterrupted fresh run |
| `CampaignLaws.CampaignResumableIff` | src/icab/benchmark/question_runner.py:200-315 | That holds for every cut if and only if the jobs are consistent |
| `CampaignLaws.ConsistentIffInstancesAgree` | src/icab/benchmark/question_runner.py:219-291 | The jobs are consistent if and only if executed selections that name one instance have the same runs |
| `CampaignLaws.SameArmSameJobs` | src/icab/benchmark/question_runner.py:242-271 | Two conditions of one question and scenario that resolve to one arm are one instance with the same runs |
| `CampaignLaws.CollidingCampaignFails` | src/icab/questions/instance.py:95-117 | A campaign of two questions whose ids and scenarios spell one instance id does not resume from some cut, whatever the plant |
| `CampaignLaws.WorklistIsItsJobs` | src/icab/benchmark/question_runner.py:219-291 | The nested loops write what one loop over the flat job list writes, so interruption points of one are those of the other |
| `CampaignLaws.CampaignIdsDistinct` | src/icab/benchmark/question_runner.py:486-488 | Distinct instance ids and seeds give all runs of a campaign distinct run ids, hence consistent jobs |
| `CampaignLaws.CampaignReadsBackIff` | src/icab/experiments/storage.py:96-123 | After a fresh campaign every run loads as exactly the record it produced if and only if its jobs are consistent |
| `CampaignLaws.PlanPredictsRun` | src/icab/benchmark/question_runner.py:304-413 | When run returns, plan agrees with it outcome by outcome, its instances are those executed and its executions are total = successful + failed, also under resume and when each makes up its own campaign id |
| `CampaignLaws.SameWork` | src/icab/benchmark/question_runner.py:204-291 | What the selections of a campaign amount to does not depend on the campaign's id |
| `CampaignLaws.RunOverwritesNothing` | src/icab/benchmark/question_runner.py:200-315 | Without force an invocation, whatever it returns or raises, changes no file that was there |
| `CampaignLaws.SameInstanceIdIffSameReadable` | src/icab/questions/instance.py:95-117 | With a fixed-length hash, instance ids coincide exactly when their readable parts do |
| `CampaignLaws.InstanceIdInjective` | src/icab/questions/instance.py:95-117 | When no double dash lies in or at the left edge of scenario id, label, agent and hash, two instance ids are the same exactly when question, scenario and label are |
| `CampaignLaws.InstanceIdsCanCollide` | src/icab/questions/instance.py:111-117 | Two different question and scenario pairs with one instance id |
| `ContextSpace.AllContextCombinations` | src/icab/tasks/context_combinations.py:61-81 | The nested loops produce the enumeration |
| `ContextSpace.CombinationsMembers` | src/icab/tasks/context_combinations.py:70-81 | The size-r selections of distinct elements are exactly the order-preserving ones of length r |
| `ContextSpace.EnumerationComplete` | src/icab/tasks/context_combinations.py:61-81 | For any valid catalog of n dimensions: every non-empty set once, by growing cardinality, 2^n - 1 in all |
| `ContextSpace.SevenDimensionsGive127` | src/icab/tasks/context_combinations.py:61-68 | Seven dimensions give 127 combinations |
| `ContextSpace.IcabCatalogIsValid` | src/icab/tasks/context_dimensions.py:93-101 | The shipped dimension table meets the catalog's requirements |
| `ContextSpace.LookupInvertsId` | src/icab/tasks/context_combinations.py:88-107 | Looking up a canonical combination's id gives it back |
| `ContextSpace.IdRoundTrip` | src/icab/tasks/context_combinations.py:91-111 | For dimensions in any order and with repeats, the looked-up combination has exactly their set and the same id |
| `ContextSpace.SameIdIffSameSet` | src/icab/tasks/context_combinations.py:91-97 | Two inputs have one id exactly when they are the same set |
| `Conditions.ResolveConditionArchitectures` | src/icab/tasks/context_conditions.py:93-170 | The search loops decide as the specification over all non-empty subsets does |
| `Conditions.ExactIffRealized` | src/icab/tasks/context_conditions.py:93-170 | Exact if and only if some non-empty choice of available architectures provides exactly the target |
| `Conditions.UnrealizableIffUncovered` | src/icab/tasks/context_conditions.py:93-170 | Unrealizable if and only if all available architectures together leave part of the target uncovered |
| `Conditions.ResolvedArmIsOptimal` | src/icab/tasks/context_conditions.py:93-170 | The arm covers the target and every other covering choice ranks strictly behind it by extra dimensions, size and lexicographic order |
| `Conditions.ReportedDimensions` | src/icab/tasks/context_conditions.py:62-78 | Provided and extra dimensions are those of the returned arm, and an overshoot provides strictly more than the target |
| `Conditions.RealizableCombinations` | src/icab/tasks/context_conditions.py:173-195 | Lists every realizable dimension set once, by cardinality and id |
| `Conditions.ExactIffRealizable` | src/icab/tasks/context_conditions.py:93-195 | A target resolves exactly if and only if it is among the realizable combinations |
| `Conditions.TwoConditionsOneArm` | src/icab/tasks/context_conditions.py:93-170 | On the shipped table C2+C3+C6 and C3 resolve, exact and overshooting, to the same arm |
| `Arms.SpecRoundTrip` | src/icab/benchmark/config.py:143-166 | Writing an arm as a spec and resolving the spec gives the arm back if and only if the text is not reserved |
| `Arms.ArmsAreAvailable` | src/icab/benchmark/config.py:143-166 | Whatever the spec, every arm uses only architectures the task declares |
| `ExperimentDesigns.AblationsFacts` | src/icab/tasks/experiment_design.py:83-104 | Each ablation removes exactly one dimension of the baseline and never all of them |
| `ExperimentDesigns.AblationsAreCombinations` | src/icab/tasks/experiment_design.py:83-104 | Every ablation condition is a canonical combination of the catalog |
| `ExperimentDesigns.DefaultAblationIsRunnable` | src/icab/benchmark/context_experiment.py:330-334 | The default baseline resolves exactly and none of its ablations is unrealizable |
| `ExperimentDesigns.ProgressiveChain` | src/icab/tasks/experiment_design.py:55-74 | Any permutation of the catalog is accepted and gives one combination per prefix, with that prefix's dimensions and size |
| `ExperimentDesigns.ProgressiveStep` | src/icab/tasks/experiment_design.py:55-74 | Each combination of the chain adds exactly the next dimension to the one before |
| `ExperimentDesigns.SelectedAreCombinations` | src/icab/benchmark/context_experiment.py:306-352 | Whatever the strategy, only canonical combinations of the catalog are selected |
| `ExperimentDesigns.ReplayIsWhatWasRecorded` | src/icab/benchmark/context_experiment.py:336-352 | A replay selects exactly the combinations recorded for the task, each once, by cardinality and id |
| `ContextExperiment.ContextExperimentRunner.RunCondition` | src/icab/benchmark/context_experiment.py:201-281 | One condition: out of scope, unrealizable, skipped overshoot, exception, or executed with ids and counters |
| `ContextExperiment.ContextExperimentRunner.Run` | src/icab/benchmark/context_experiment.py:166-302 | Store and result of a whole context experiment: unknown task, refused design, guard, or the selected conditions |
| `ContextExperiment.ConditionExecutesIff` | src/icab/benchmark/context_experiment.py:201-281 | A condition that does not raise is executed if and only if it is within the use case's candidate context and runnable |
| `ContextExperiment.CountersPartition` | src/icab/benchmark/context_experiment.py:283-302 | The four outcome counters add up to the conditions, and successful plus failed to the runs |
| `ContextExperiment.RecordedCondition` | src/icab/benchmark/_execution.py:78-83 | An exact arm is recorded under the requested combination id, an overshoot arm under the id of a strict superset, never the requested one |
| `ContextExperiment.ExperimentOverwritesNothing` | src/icab/benchmark/context_experiment.py:385-421 | Without force, a context experiment changes no file that was there |
| `ContextExperiment.ExperimentIsItsJobs` | src/icab/benchmark/context_experiment.py:201-281 | The nested loops write what one loop over the flat job list writes |
| `ContextExperiment.ExperimentReadsBackIff` | src/icab/benchmark/context_experiment.py:354-410 | After a fresh experiment every run loads as exactly the record it produced if and only if its jobs are consistent |
| `ContextExperiment.ExperimentReadsBack` | src/icab/benchmark/context_experiment.py:354-410 | With dimension labels free of dashes they are, for every design, so every run of a fresh experiment reads back |
| `ContextExperiment.IcabIsDashFree` | src/icab/tasks/context_dimensions.py:93-101 | The shipped dimension labels are free of dashes |
| `ContextExperiment.ExperimentIdsDistinct` | src/icab/benchmark/context_experiment.py:383-389 | Distinct conditions and seeds give every run of an experiment its own run id |
| `ContextExperiment.RepeatedTargetRepeatsRuns` | src/icab/benchmark/context_experiment.py:201-281 | A condition targeted twice runs twice, under the same ids, and the second time is not skipped |
| `ContextExperiment.RepeatedRunReadsBackIff` | src/icab/benchmark/context_experiment.py:383-408 | When repeated runs of an id may differ, the last reads back as itself exactly when it has an evaluation or neither an earlier run nor the store had one |
| `Scheduler.OneStepFewer` | src/icab/scenarios/runner.py:77-80 | A step brings the loop one closer to its end, so both loops terminate after the rounded-up number of steps |
| `Scheduler.StepCount` | src/icab/scenarios/runner.py:105-124 | The number of step boundaries is the rounded-up quotient of what is left by the interval |
| `Scheduler.FinishNearEnd` | src/icab/scenarios/runner.py:105-124 | The loop ends within 1e-9 of its target and never beyond it |
| `Scheduler.StartsAdvance` | src/icab/scenarios/runner.py:105-124 | Boundaries are contiguous, strictly increasing and before the end |
| `Scheduler.TimelineCovered` | src/icab/scenarios/runner.py:72-127 | Warmup and run each end within 1e-9 of their nominal end, in ceil((total - 1e-9 - e0)/interval) steps after warmup, at least one if the duration exceeds 1e-9 |
| `Scheduler.SyncsAdvance` | src/icab/scenarios/runner.py:102-127 | Sync times start when warmup ends, strictly increase by at most the interval, and end at the end |
| `Scheduler.FilterIsPrefix` | src/icab/scenarios/runner.py:82-120 | For a sorted schedule the part before the cursor is exactly what the due filter keeps |
| `Scheduler.BoundaryCaughtUp` | src/icab/scenarios/runner.py:106-120 | One boundary's two cursor loops restore the invariant and produce the specified step, or meet an unknown disturbance that is due |
| `Scheduler.DriveRecorded` | src/icab/scenarios/runner.py:105-127 | An invariant kept by every boundary carries over the whole run |
| `Scheduler.ScheduleRefinesFilter` | src/icab/scenarios/runner.py:82-127 | It raises exactly when an unknown disturbance is due by the last boundary; otherwise at every recorded step the injected faults are exactly the due ones, each once, likewise the clearings, and the disturbance vector is the stated one |
| `Scheduler.DistinctDisturbancesFollowWindows` | src/icab/scenarios/runner.py:106-120 | For distinct disturbances a fault is present exactly when due and at full magnitude exactly until its duration is over, also when it opens and closes between two boundaries |
| `Scheduler.FollowsWindowIff` | src/icab/scenarios/runner.py:106-120 | At a recorded step the last due fault follows its own window if and only if its magnitude is zero, its window is over, or no fault on its disturbance ended with it due at every boundary where that fault had ended |
| `Scheduler.RunFollowsWindowIff` | src/icab/scenarios/runner.py:82-127 | The same at every step of every run that raises nothing, for the boundaries of that run |
| `Scheduler.SharedDisturbanceIsCut` | src/icab/scenarios/runner.py:114-120 | A run of two faults on one disturbance in which clearing the first silences the second inside its window |
| `Scheduler.WarmUp` | src/icab/scenarios/runner.py:77-80 | Warmup injects, clears and syncs nothing |
| `Scheduler.InjectFaults` | src/icab/scenarios/runner.py:106-112 | The injection loop does what its specification says, stopping at an unknown disturbance |
| `Scheduler.ClearFaults` | src/icab/scenarios/runner.py:114-120 | The clearing loop does what its specification says |
| `Scheduler.RunSteps` | src/icab/scenarios/runner.py:105-127 | The main loop records exactly the specified steps and syncs, also up to an exception |
| `Scheduler.Prepare` | src/icab/scenarios/runner.py:55-136 | The whole preparation: recorded steps, syncs, sync count and final environment, or which of the two errors it raises |
| `Completeness.CheckLevelCompleteness` | src/icab/benchmark/completeness.py:99-179 | The report as a function of level, bank and records |
| `Completeness.CountRepeats` | src/icab/benchmark/completeness.py:139-141 | The counter finds the number of keys that occur more than once |
| `Completeness.GroupByQuestion` | src/icab/benchmark/completeness.py:130-133 | The dictionary holds each asked question's records in order |
| `Completeness.RepeatsDetected` | src/icab/benchmark/completeness.py:135-143 | No duplicate is flagged exactly when no two records, failed ones included, share question, instance and repetition |
| `Completeness.CompletedPartition` | src/icab/benchmark/completeness.py:145-167 | Distinct questions partition the completed runs, apart from those outside the bank |
| `Completeness.Pigeonhole` | src/icab/benchmark/completeness.py:63-70 | With 50 distinct questions, 500 completed runs and ten distinct repetitions everywhere hold exactly when every question has ten completed runs with distinct repetitions and none lies outside |
| `Completeness.CompleteIffExactShape` | src/icab/benchmark/completeness.py:63-179 | A level is complete if and only if its records have the exact intended shape |
| `Completeness.RerunNeverCompletes` | src/icab/benchmark/completeness.py:135-143 | Two runs of one question under one key, whatever their status, make the level incomplete whatever is added |
| `Completeness.CompleteSuiteTotals` | src/icab/benchmark/completeness.py:77-96 | A complete six-level suite totals exactly 3,000 executions |
| `CampaignCompleteness.TwoSeedsNeverComplete` | src/icab/benchmark/completeness.py:135-143 | A fresh campaign over two different seeds leaves a store that never passes the check, in whatever larger store its files are kept |
| `CampaignCompleteness.IntendedCampaignCompletesIff` | src/icab/benchmark/completeness.py:63-179 | One seed, ten repetitions and one executed instance per question of a 50-question bank, on an empty store: the level is complete if and only if every run completed and carries its references |
| `Aggregation.SummaryBetween` | src/icab/reporting/stats.py:36-47 | Mean and median lie between minimum and maximum, which occur |
| `Aggregation.SpreadFacts` | src/icab/reporting/stats.py:36-47 | The sample variance exists for two values or more, is never negative and is zero exactly when all values are equal |
| `Aggregation.ContributionIsSum` | src/icab/reporting/stats.py:36-47 | Count times mean is the total |
| `Aggregation.GroupsConserve` | src/icab/reporting/aggregation.py:202-205 | Any measure summed group by group over distinct covering keys gives its total |
| `Aggregation.GroupsPartition` | src/icab/reporting/aggregation.py:202-242 | Every included record is in exactly one group, groups are non-empty, and their sizes add up |
| `Aggregation.GroupCounts` | src/icab/reporting/aggregation.py:221-240 | Status counts and validity counts each add up to the group's size |
| `Aggregation.ReportPartitions` | src/icab/reporting/aggregation.py:173-253 | Group sizes plus exclusions equal the input, and without include_invalid no group has a legacy run |
| `Aggregation.TotalsConserved` | src/icab/reporting/aggregation.py:207-242 | Over the groups, count times mean adds up to the sum of all usable values and the counts to their number |
| `Aggregation.FinerRefinesCoarser` | src/icab/reporting/aggregation.py:202-223 | Grouping by more dimensions: every measure of a coarse group is the sum over the fine groups whose key agrees with it |
| `Aggregation.GroupRows` | src/icab/reporting/aggregation.py:202-205 | The dictionary of groups and its insertion order |
| `Aggregation.AggregateRecords` | src/icab/reporting/aggregation.py:141-253 | The whole report, with the default metrics, the held fields that differ and their values, and the sorted source run ids, or which refusal is raised first |
| `Aggregation.DifferingFacts` | src/icab/experiments/controls.py:53-64 | The control variance holds exactly the held fields in which two included records differ, each with its distinct values |
| `Aggregation.OneGroup` | src/icab/reporting/aggregation.py:141-253 | Records that agree on the one dimension grouped by give a single group of the valid ones, or none |
| `Aggregation.RefusedIff` | src/icab/reporting/aggregation.py:173-200 | Refused if and only if a dimension is missing or unknown, a control is unknown, or, unless allowed, two included records differ in a held field |
| `QuestionStats.MetricValues` | src/icab/analysis/question_stats.py:85-95 | The loop collects exactly the usable values in order |
| `QuestionStats.UseCaseQuestionStats` | src/icab/analysis/question_stats.py:147-171 | Every question's own entry, in id order, and the macro and micro average of a use case |
| `QuestionStats.StatsOfQuestion` | src/icab/analysis/question_stats.py:102-144 | One question's counts, rate, mean, median, spread, sample size, efficiency means and run ids |
| `QuestionStats.EntriesConserve` | src/icab/analysis/question_stats.py:102-171 | Given every question that occurs, the entries account for every run and every score of the use case |
| `QuestionStats.UpperMedianFacts` | src/icab/analysis/question_stats.py:122 | The median kept here occurs among the values and is at least the one of `summarize`; the two are equal exactly for an odd number of values or equal middle ones |
| `QuestionStats.QuestionsConserve` | src/icab/analysis/question_stats.py:102-171 | Over distinct covering questions, counts and count times mean add up to the use case's |
| `QuestionStats.MicroIsWeightedMean` | src/icab/analysis/question_stats.py:147-171 | Micro times the number of values is the count-weighted sum of the question means |
| `QuestionStats.AveragesBetweenQuestionMeans` | src/icab/analysis/question_stats.py:147-171 | Both averages lie between the least and the greatest question mean |
| `QuestionStats.EqualCountsCoincide` | src/icab/analysis/question_stats.py:147-171 | With equal counts macro equals micro |
| `QuestionStats.ReplicationKeepsMacro` | src/icab/analysis/question_stats.py:10-16 | Repeating one question's runs any number of times leaves every question mean, hence macro, as it was |
| `QuestionStats.MacroIgnoresOrder` | src/icab/analysis/question_stats.py:156-161 | Any two lists of distinct questions naming the scored ones give the same macro average |
| `CampaignMetrics.BuildCampaignMetrics` | src/icab/export/metrics.py:46-120 | The whole report: totals, rates, averages, the four breakdowns, repetition consistency, failure modes and latency |
| `CampaignMetrics.ScanOne` | src/icab/export/metrics.py:68-80 | One turn of the loop files the execution under each of its names, counts its failure mode and keeps its latency |
| `CampaignMetrics.BreakdownConserves` | src/icab/export/metrics.py:59-80 | Any weight summed name by name over distinct covering names gives that of the executions filed at all |
| `CampaignMetrics.BreakdownAddsUp` | src/icab/export/metrics.py:106-109 | Each breakdown accounts for exactly the executions and scores of those that have the name it files by |
| `CampaignMetrics.MetricsAddUp` | src/icab/export/metrics.py:46-120 | Completed plus failed is the total; the per-question breakdown, the repetition table and the failure modes each account for every execution, score, success and judgement |
| `CampaignMetrics.RatesInUnit` | src/icab/export/metrics.py:27-28 | Both rates lie between 0 and 1 and exist as soon as there is something to count |
| `CampaignMetrics.LatencyBetween` | src/icab/export/metrics.py:96-118 | The latency summary's ends are the extremes, median and mean lie between them, and sorting does not change the mean |
| `CampaignMetrics.ExportAgreesWithAnalysis` | src/icab/export/metrics.py:79-106 | For one use case's valid completed runs the export's macro and micro are those of the analysis |
| `Sufficiency.FindMinimumSufficientContext` | src/icab/analysis/sufficiency.py:85-148 | The whole report, or the lookup error for an unknown combination |
| `Sufficiency.Score` | src/icab/analysis/sufficiency.py:113-121 | The inner loop's scores, and that meets holds exactly when every binding mean exists and reaches the threshold |
| `Sufficiency.SingleGroup` | src/icab/analysis/sufficiency.py:106-124 | One combination's runs aggregate to one group over its valid runs, or to none |
| `Sufficiency.TestedFacts` | src/icab/analysis/_shared.py:41-50 | Tested ids are those present, once each, by cardinality and id |
| `Sufficiency.MinimalMembers` | src/icab/analysis/sufficiency.py:151-181 | Candidates are exactly the sufficient conditions with no other sufficient one strictly below, once each, by cardinality and id |
| `Sufficiency.CandidatesAreAntichain` | src/icab/analysis/sufficiency.py:171-179 | No candidate strictly contains another |
| `Sufficiency.CandidateBelow` | src/icab/analysis/sufficiency.py:151-181 | Every sufficient condition contains the dimensions of some candidate |
| `Sufficiency.CandidatesExistIffSufficient` | src/icab/analysis/sufficiency.py:137-138 | There is a candidate exactly when something is sufficient |
| `Sufficiency.HeadIsLeast` | src/icab/analysis/sufficiency.py:137-181 | The first candidate precedes every sufficient condition by cardinality, then id |
| `Sufficiency.LeastAreListed` | src/icab/analysis/sufficiency.py:151-181 | All sufficient conditions of least cardinality are candidates |
| `Sufficiency.EqualCardinalityMayBeBeaten` | src/icab/analysis/sufficiency.py:157-160 | Of two sufficient conditions of equal cardinality one may be missing |
| `Sufficiency.ReportedMinimum` | src/icab/analysis/sufficiency.py:99-148 | The reported minimum meets the criteria and precedes every tested combination that does; it is there as soon as one does |
| `InformationFlow.ElementIdRoundTrip` | src/icab/evaluation/information_flow.py:275-285 | An element id in the documented format is resolved by its measurement name |
| `InformationFlow.NodeNameIsLatest` | src/icab/evaluation/information_flow.py:217-222 | The dictionary has a node exactly when some earlier browse has an entry for it, with the latest entry's name |
| `InformationFlow.ReadResolvesIff` | src/icab/evaluation/information_flow.py:261-266 | A read is attributed to an id exactly when the latest earlier non-error browse entry for its node carries a name known for that id, or, without such an entry or a node id, when the empty name is |
| `InformationFlow.DiscoveredIffSomeEvent` | src/icab/evaluation/information_flow.py:132-137 | An id is discovered exactly when some non-error discovery event reveals it |
| `InformationFlow.AttemptsAccounted` | src/icab/evaluation/information_flow.py:139-155 | For every event: a non-error acquisition is unresolved exactly when it adds no record, and no other event adds one or counts as unresolved; and the totals follow |
| `InformationFlow.RedundancyCounts` | src/icab/evaluation/information_flow.py:157-172 | The redundant count is acquisitions minus distinct ids, and at least the number of redundant measurements |
| `InformationFlow.AppendAcquisitions` | src/icab/evaluation/information_flow.py:146-155 | One record per id of the event's set, in an unspecified order |
| `InformationFlow.ScanEvent` | src/icab/evaluation/information_flow.py:129-155 | What one event adds to each accumulator |
| `InformationFlow.Analyze` | src/icab/evaluation/information_flow.py:119-185 | The scan's report is the one stated over the trace without a scan |
| `Grounded.RetrievedValueIds` | src/icab/evaluation/grounded.py:402-430 | The loops collect exactly the ids of value-bearing results |
| `Grounded.RelationshipConfirmed` | src/icab/evaluation/grounded.py:466-496 | The nested search answers whether some relationship event confirms the triple |
| `Grounded.Evaluate` | src/icab/evaluation/grounded.py:244-349 | The four trace-dependent scores |
| `Grounded.ScoresInUnit` | src/icab/evaluation/grounded.py:244-389 | All of them lie between 0 and 1 |
| `Grounded.ConclusionInUnit` | src/icab/evaluation/grounded.py:450-464 | So does the conclusion score |
| `Grounded.MoreEventsNeverLower` | src/icab/evaluation/grounded.py:255-349 | Appending events never lowers evidence, relationship, grounding or completeness score |
| `Grounded.EvidenceIsLocal` | src/icab/evaluation/grounded.py:402-414 | Dropping every event that bears no value leaves the evidence score unchanged |
| `Grounded.GatedScoreIsOwn` | src/icab/evaluation/grounded.py:466-496 | Dropping the relationships of other generations leaves a gated relationship score unchanged |
| `Grounded.GatingNeverRaises` | src/icab/evaluation/grounded.py:488-494 | Gating never raises the relationship score |
| `Export.CampaignExportWriter.Write` | src/icab/export/writer.py:74-116 | The directory after a write |
| `Export.CampaignExportWriter.WriteGroundTruth` | src/icab/export/writer.py:146-156 | Each question's ground truth is that of its first record in id order |
| `Export.CampaignExportWriter.WritePerExecutionFiles` | src/icab/export/writer.py:204-213 | Execution files are added only where they are missing |
| `Export.ValidateExport` | src/icab/export/validation.py:34-102 | The issues found in a directory |
| `Export.FoundedIffFirstUsable` | src/icab/export/validation.py:96-100 | Every executed question has usable ground truth exactly when each question's first record has |
| `Export.WriterSatisfiesValidator` | src/icab/export/validation.py:34-102 | After a write into any directory the validator accepts it if and only if ids and (question, repetition) pairs are distinct, levels and count match the manifest, and first records are usable |
| `Export.PlainRequestValidates` | src/icab/export/writer.py:215-234 | With extra manifest entries that touch no checked key, the same with the request's own level and count |
| `Export.HistoryKeepsExecutions` | src/icab/export/writer.py:204-213 | Over any sequence of writes no execution file on disk ever changes, markdown included when it is paired with its JSON |
| `Export.ExecutionFilesAgreeIff` | src/icab/export/writer.py:204-213 | After a write into any directory each listed execution's JSON, trace and paired markdown hold its record if and only if no older file differed and records under one id agree |
| `Export.AcceptedExportAgreesIff` | src/icab/export/writer.py:86-96 | For a request the validator accepts, exactly when no older file differed |
| `Export.StaleExecutionFilePasses` | src/icab/export/writer.py:86-96 | A changed record under an exported id validates while its old execution file stays |

## Left out

- Execution of a run: gateway, agents, simulator dynamics and context services are foreign calls; `run_one` is the parameter `runOne`.
- `BenchmarkRunner.run`: the same loops as the question runner with a task filter in front.
- Crash inside `save`: a stop between its file writes is not modelled.
- The results manifest's file and its summary numbers, git commit and fault catalog: `Run` states which records the manifest is built from.
- The split of a context experiment's scenario: its lookup is assumed to succeed and the split is not kept.
- The plant's own trip: `step` always advances by what it is asked for.
- `benchmark_level_stats`: the use-case roll-up once more, one level up.
- QuestionStats.UseCaseQuestionStats: the failure and discoverability breakdowns of a question come from other modules and are not kept.
- Aggregation.AggregateRecords: the standard deviation is kept as its square, and a varying field's values as a set.
- Scores that do not depend on the trace apart from the conclusion score: canonical-id validity, provenance, temporal flags.
- Results that are not JSON objects: reading a field of one raises in the source and yields nothing here.
- Sorted lists in the information-flow report are kept as sets.
- JSON, JSONL and CSV encoding, markdown rendering, and the contents of README and metrics files beyond what is stated.
