/**
 `ContextExperimentRunner`: the selected context combinations against one task, each
 resolved to an architecture arm and run over seeds and repetitions.
 */
module ContextExperiment {
  import opened Basics
  import opened Text
  import opened RunIds
  import opened ContextSpace
  import opened Conditions
  import opened ResultStore
  import opened Execution
  import opened Instances
  import opened ExperimentDesigns

  datatype Setup = Setup(allowOvershoot: bool, agent: string, seeds: seq<int>, repetitions: nat)

  /** `candidates` gives, per task id, the candidate context of its use case when that is registered. */
  datatype Env = Env(
    cat: Catalog,
    agents: set<string>,
    tasks: map<string, Task>,
    candidates: map<string, set<string>>,
    runOne: Job -> RunOutput)

  datatype Config = Config(taskId: string, design: Design, setup: Setup, name: string, force: bool)

  /** One invocation once its task is known. */
  datatype Campaign = Campaign(env: Env, setup: Setup, name: string, task: Task, candidate: Option<set<string>>)

  datatype ConditionStatus = NotApplicable | Resolved(status: Status)

  datatype Outcome = Outcome(
    combinationId: string,
    dimensions: seq<string>,
    cardinality: nat,
    status: ConditionStatus,
    architectures: Option<seq<string>>,
    executed: bool,
    runIds: seq<string>)

  // ---------------------------------------------------------------------
  // Running the conditions

  function RunConfigOf(x: Campaign, arm: seq<string>): RunConfig {
    var recorded := CombinationIdFor(x.env.cat, ProvidedDimensions(x.env.cat, arm));
    RunConfig(x.task.taskId, x.task.isaLevel, if recorded.Some? then recorded.value else "", arm, x.setup.agent, None,
              None, 0)
  }

  function InstanceOf(x: Campaign, combo: ContextCombination, arm: seq<string>): Instance {
    Instance(x.name, combo.combinationId + "-" + Join('+', arm), RunConfigOf(x, arm), x.setup.repetitions)
  }

  /** `build_experiment_config` raises for an unknown agent or an arm that provides nothing. */
  predicate ConfigRaises(x: Campaign, arm: seq<string>) {
    x.setup.agent !in x.env.agents || CombinationIdFor(x.env.cat, ProvidedDimensions(x.env.cat, arm)).None?
  }

  datatype Progress = Progress(disk: Disk, outcomes: seq<Outcome>, runIds: seq<string>, successful: nat, failed: nat,
                               raised: bool)

  predicate OutsideUseCase(candidate: Option<set<string>>, combo: ContextCombination) {
    candidate.Some? && !(SetOf(combo.dimensions) <= candidate.value)
  }

  predicate NotRun(x: Campaign, r: Resolution) {
    r.status == Unrealizable || (r.status == Overshoot && !x.setup.allowOvershoot)
  }

  function Reported(combo: ContextCombination, status: ConditionStatus, arm: Option<seq<string>>,
                    executed: bool, runIds: seq<string>): Outcome {
    Outcome(combo.combinationId, combo.dimensions, combo.cardinality, status, arm, executed, runIds)
  }

  function StepCondition(x: Campaign, p: Progress, combo: ContextCombination): Progress {
    if OutsideUseCase(x.candidate, combo) then
      p.(outcomes := p.outcomes + [Reported(combo, NotApplicable, None, false, [])])
    else
      var r := Resolve(x.env.cat, combo, x.task.available);
      if NotRun(x, r) then
        p.(outcomes := p.outcomes + [Reported(combo, Resolved(r.status), r.architectures, false, [])])
      else if ConfigRaises(x, r.architectures.value) then p.(raised := true)
      else ExecutedProgress(p, combo, r, RunJobs(x.env.runOne, None, false, p.disk, ConditionJobs(x, combo)))
  }

  function ExecutedProgress(p: Progress, combo: ContextCombination, r: Resolution, b: Batch): Progress {
    Progress(b.disk, p.outcomes + [Reported(combo, Resolved(r.status), r.architectures, true, IdsOf(b.results))],
             p.runIds + IdsOf(b.results), p.successful + CountCompleted(b.results),
             p.failed + |b.results| - CountCompleted(b.results), false)
  }

  /** The runs of a condition that is executed. */
  function ConditionJobs(x: Campaign, combo: ContextCombination): seq<Job> {
    var r := Resolve(x.env.cat, combo, x.task.available);
    if r.architectures.None? then []
    else SeedJobs(InstanceOf(x, combo, r.architectures.value), SeedValues(x.setup.seeds))
  }

  function RunConditions(x: Campaign, p: Progress, combos: seq<ContextCombination>): Progress
    decreases |combos|
  {
    if combos == [] || p.raised then p else RunConditions(x, StepCondition(x, p, combos[0]), combos[1..])
  }

  /** A condition that does not raise is executed exactly when it lies in the use case's scope and is runnable. */
  lemma ConditionExecutesIff(x: Campaign, p: Progress, combo: ContextCombination)
    requires !p.raised && !StepCondition(x, p, combo).raised
    ensures var outcomes := StepCondition(x, p, combo).outcomes;
            && |outcomes| == |p.outcomes| + 1
            && (outcomes[|p.outcomes|].executed
                <==> (x.candidate.Some? ==> SetOf(combo.dimensions) <= x.candidate.value)
                     && Runnable(x.env.cat, x.task.available, SetOf(combo.dimensions), x.setup.allowOvershoot))
  {
    NotSkippedIffRunnable(x.env.cat, combo, x.task.available, x.setup.allowOvershoot);
  }

  datatype Error = UnknownTask | BadDesign(error: DesignError) | Collision | ConfigError

  datatype Result =
    | Raised(error: Error)
    | Done(conditions: seq<Outcome>, executed: nat, notApplicable: nat, unrealizable: nat, overshootSkipped: nat,
           runIds: seq<string>, successful: nat, failed: nat)

  function Count(outcomes: seq<Outcome>, kind: Kind): nat {
    if outcomes == [] then 0
    else Count(outcomes[..|outcomes| - 1], kind) + (if Matches(outcomes[|outcomes| - 1], kind) then 1 else 0)
  }

  /** The four counters of the result. */
  datatype Kind = Executed | OutOfScope | CannotBeRealized | OvershootSkipped

  predicate Matches(o: Outcome, kind: Kind) {
    match kind
    case Executed => o.executed
    case OutOfScope => o.status == NotApplicable
    case CannotBeRealized => o.status == Resolved(Unrealizable)
    case OvershootSkipped => o.status == Resolved(Overshoot) && !o.executed
  }

  function Summary(p: Progress): Result {
    if p.raised then Raised(ConfigError)
    else Done(p.outcomes, Count(p.outcomes, Executed), Count(p.outcomes, OutOfScope),
              Count(p.outcomes, CannotBeRealized), Count(p.outcomes, OvershootSkipped), p.runIds, p.successful,
              p.failed)
  }

  function Start(d: Disk): Progress {
    Progress(d, [], [], 0, 0, false)
  }

  function CampaignOf(env: Env, config: Config, autoId: string): Campaign
    requires config.taskId in env.tasks
  {
    var candidate := if config.taskId in env.candidates then Some(env.candidates[config.taskId]) else None;
    Campaign(env, config.setup, if config.name != "" then config.name else autoId, env.tasks[config.taskId], candidate)
  }

  /** The guard and the loop over the selected conditions. */
  function RunSelected(x: Campaign, force: bool, combos: seq<ContextCombination>, d: Disk): (Disk, Result) {
    if !force && CampaignExists(d, x.name) then (d, Raised(Collision))
    else
      var p := RunConditions(x, Start(d), combos);
      (p.disk, Summary(p))
  }

  /** A whole invocation. */
  function RunExperiment(env: Env, config: Config, autoId: string, d: Disk): (Disk, Result) {
    if config.taskId !in env.tasks then (d, Raised(UnknownTask))
    else
      match SelectConditions(env.cat, d, config.design, env.tasks[config.taskId])
      case Refused(error) => (d, Raised(BadDesign(error)))
      case Selected(combos) => RunSelected(CampaignOf(env, config, autoId), config.force, combos, d)
  }

  class ContextExperimentRunner {
    const env: Env
    const store: ExperimentResultStore

    constructor (env: Env, store: ExperimentResultStore)
      ensures this.env == env && this.store == store
    {
      this.env := env;
      this.store := store;
    }

    /** `_execute_condition` over all seeds and repetitions. */
    method ExecuteCondition(x: Campaign, combo: ContextCombination, r: Resolution, p0: Progress) returns (p: Progress)
      requires r.architectures.Some? && p0.disk == store.OnDisk()
      modifies store
      ensures var jobs := SeedJobs(InstanceOf(x, combo, r.architectures.value), SeedValues(x.setup.seeds));
              p == ExecutedProgress(p0, combo, r, RunJobs(x.env.runOne, None, false, p0.disk, jobs))
      ensures store.OnDisk() == p.disk
    {
      var instance, seeds := InstanceOf(x, combo, r.architectures.value), SeedValues(x.setup.seeds);
      AnyLevelIsAccepted(x.env.runOne, false, Batch(store.OnDisk(), [], false), SeedJobs(instance, seeds));
      var results, raised := RunSeeds(store, x.env.runOne, None, false, instance, seeds);
      var successful, failed := CountStatuses(results);
      p := Progress(store.OnDisk(),
                    p0.outcomes + [Reported(combo, Resolved(r.status), r.architectures, true, IdsOf(results))],
                    p0.runIds + IdsOf(results), p0.successful + successful, p0.failed + failed, false);
    }

    method RunCondition(x: Campaign, combo: ContextCombination, p0: Progress) returns (p: Progress)
      requires p0.disk == store.OnDisk()
      modifies store
      ensures p == StepCondition(x, p0, combo)
      ensures store.OnDisk() == p.disk
    {
      if OutsideUseCase(x.candidate, combo) {
        return p0.(outcomes := p0.outcomes + [Reported(combo, NotApplicable, None, false, [])]);
      }
      var r := ResolveConditionArchitectures(x.env.cat, combo, x.task.available);
      if r.status == Unrealizable || (r.status == Overshoot && !x.setup.allowOvershoot) {
        return p0.(outcomes := p0.outcomes + [Reported(combo, Resolved(r.status), r.architectures, false, [])]);
      }
      if ConfigRaises(x, r.architectures.value) {
        return p0.(raised := true);
      }
      p := ExecuteCondition(x, combo, r, p0);
    }

    /** The condition loop. */
    method RunAll(x: Campaign, combos: seq<ContextCombination>) returns (p: Progress)
      modifies store
      ensures p == RunConditions(x, Start(old(store.OnDisk())), combos)
      ensures store.OnDisk() == p.disk
    {
      p := Start(store.OnDisk());
      ghost var goal := RunConditions(x, p, combos);
      var i := 0;
      assert combos[0..] == combos;
      while i < |combos| && !p.raised
        invariant 0 <= i <= |combos| && p.disk == store.OnDisk()
        invariant goal == RunConditions(x, p, combos[i..])
      {
        assert combos[i..][1..] == combos[i + 1..];
        p := RunCondition(x, combos[i], p);
        i := i + 1;
      }
    }

    /** The guard and the loop. */
    method RunGuarded(x: Campaign, force: bool, combos: seq<ContextCombination>) returns (result: Result)
      modifies store
      ensures (store.OnDisk(), result) == RunSelected(x, force, combos, old(store.OnDisk()))
    {
      if !force && CampaignExists(store.OnDisk(), x.name) {
        return Raised(Collision);
      }
      var p := RunAll(x, combos);
      if p.raised {
        return Raised(ConfigError);
      }
      result := Summary(p);
    }

    method Run(config: Config, autoId: string) returns (result: Result)
      modifies store
      ensures (store.OnDisk(), result) == RunExperiment(env, config, autoId, old(store.OnDisk()))
    {
      if config.taskId !in env.tasks {
        return Raised(UnknownTask);
      }
      var selection := SelectConditions(env.cat, store.OnDisk(), config.design, env.tasks[config.taskId]);
      match selection
      case Refused(error) => return Raised(BadDesign(error));
      case Selected(combos) => result := RunGuarded(CampaignOf(env, config, autoId), config.force, combos);
    }
  }

  lemma {:induction false} AnyLevelIsAccepted(runOne: Job -> RunOutput, resume: bool, b: Batch, jobs: seq<Job>)
    requires !b.raised
    ensures !RunFrom(runOne, None, resume, b, jobs).raised
    decreases |jobs|
  {
    if jobs != [] {
      AnyLevelIsAccepted(runOne, resume, Step(runOne, None, resume, b, jobs[0]), jobs[1..]);
    }
  }

  // ---------------------------------------------------------------------
  // The four counters partition the conditions

  ghost predicate Accounted(p: Progress, k: nat) {
    && |p.outcomes| == k
    && Count(p.outcomes, Executed) + Count(p.outcomes, OutOfScope)
       + Count(p.outcomes, CannotBeRealized) + Count(p.outcomes, OvershootSkipped) == k
    && p.successful + p.failed == |p.runIds|
  }

  lemma CountSnoc(outcomes: seq<Outcome>, o: Outcome, kind: Kind)
    ensures Count(outcomes + [o], kind) == Count(outcomes, kind) + if Matches(o, kind) then 1 else 0
  {
    assert (outcomes + [o])[..|outcomes|] == outcomes;
  }

  lemma {:induction false} StepAccounted(x: Campaign, p: Progress, combo: ContextCombination, k: nat)
    requires Accounted(p, k) && !StepCondition(x, p, combo).raised
    ensures Accounted(StepCondition(x, p, combo), k + 1)
  {
    var next := StepCondition(x, p, combo);
    var o := next.outcomes[|next.outcomes| - 1];
    assert next.outcomes == p.outcomes + [o];
    CountSnoc(p.outcomes, o, Executed);
    CountSnoc(p.outcomes, o, OutOfScope);
    CountSnoc(p.outcomes, o, CannotBeRealized);
    CountSnoc(p.outcomes, o, OvershootSkipped);
    IdsOfLength(RunJobs(x.env.runOne, None, false, p.disk, ConditionJobs(x, combo)).results);
  }

  lemma {:induction false} ConditionsAccounted(x: Campaign, p: Progress, combos: seq<ContextCombination>, k: nat)
    requires !p.raised && Accounted(p, k)
    requires !RunConditions(x, p, combos).raised
    ensures Accounted(RunConditions(x, p, combos), k + |combos|)
    decreases |combos|
  {
    if combos != [] {
      var next := StepCondition(x, p, combos[0]);
      if !next.raised {
        StepAccounted(x, p, combos[0], k);
        ConditionsAccounted(x, next, combos[1..], k + 1);
      }
    }
  }

  /** Each of `k` conditions is in exactly one of the four counts, and every run is successful or failed. */
  ghost predicate Partitioned(r: Result, k: nat) {
    r.Done? ==>
      && r.executed + r.notApplicable + r.unrealizable + r.overshootSkipped == k == |r.conditions|
      && r.successful + r.failed == |r.runIds|
  }

  /** Every selected condition is counted exactly once, and every run is successful or failed. */
  lemma CountersPartition(x: Campaign, force: bool, combos: seq<ContextCombination>, d: Disk)
    ensures Partitioned(RunSelected(x, force, combos, d).1, |combos|)
  {
    var p := RunConditions(x, Start(d), combos);
    if !p.raised {
      ConditionsAccounted(x, Start(d), combos, 0);
      AccountedSummary(p, |combos|);
    }
  }

  lemma AccountedSummary(p: Progress, k: nat)
    requires Accounted(p, k) && !p.raised
    ensures Partitioned(Summary(p), k)
  {
  }

  // ---------------------------------------------------------------------
  // The recorded condition is the provided one

  /**
   Every run of an EXACT condition is recorded under the requested combination id; every run of
   an OVERSHOOT one under the id of a strict superset, never under the requested id.
   */
  lemma {:induction false} RecordedCondition(x: Campaign, combo: ContextCombination, job: Job)
    requires Valid(x.env.cat) && IsCombination(x.env.cat, combo) && job in ConditionJobs(x, combo)
    ensures var status := Resolve(x.env.cat, combo, x.task.available).status;
            var recorded := CombinationForId(x.env.cat, job.config.combinationId);
            && recorded.Some?
            && (status == Exact ==> recorded == Some(combo) && job.config.combinationId == combo.combinationId)
            && (status == Overshoot ==>
                  SetOf(combo.dimensions) < SetOf(recorded.value.dimensions)
                    && job.config.combinationId != combo.combinationId)
  {
    var r := Resolve(x.env.cat, combo, x.task.available);
    ResolvedArmIsOptimal(x.env.cat, combo, x.task.available, {});
    var arm := r.architectures.value;
    SetOfEmpty(combo.dimensions);
    ProvidedCombination(x.env.cat, arm);
    var seed, repetition := SeedJobsMembers(InstanceOf(x, combo, arm), SeedValues(x.setup.seeds), job);
    LookupInvertsId(x.env.cat, combo.dimensions);
    var recorded := CombinationForId(x.env.cat, job.config.combinationId);
    LookupInvertsId(x.env.cat, recorded.value.dimensions);
  }

  // ---------------------------------------------------------------------
  // The flat list of runs

  /** The jobs of an experiment in execution order, up to the first exception. */
  function ExperimentJobs(x: Campaign, combos: seq<ContextCombination>): seq<Job> {
    if combos == [] then []
    else
      var r := Resolve(x.env.cat, combos[0], x.task.available);
      if OutsideUseCase(x.candidate, combos[0]) || NotRun(x, r) then ExperimentJobs(x, combos[1..])
      else if ConfigRaises(x, r.architectures.value) then []
      else ConditionJobs(x, combos[0]) + ExperimentJobs(x, combos[1..])
  }

  /** The condition loop writes what one loop over the flat list writes. */
  lemma {:induction false} ExperimentIsItsJobs(x: Campaign, p: Progress, combos: seq<ContextCombination>)
    requires !p.raised
    ensures RunConditions(x, p, combos).disk
         == RunJobs(x.env.runOne, None, false, p.disk, ExperimentJobs(x, combos)).disk
    decreases |combos|
  {
    if combos != [] {
      var r := Resolve(x.env.cat, combos[0], x.task.available);
      var next := StepCondition(x, p, combos[0]);
      if OutsideUseCase(x.candidate, combos[0]) || NotRun(x, r) {
        ExperimentIsItsJobs(x, next, combos[1..]);
      } else if !ConfigRaises(x, r.architectures.value) {
        var start, jobs, rest := Batch(p.disk, [], false), ConditionJobs(x, combos[0]), ExperimentJobs(x, combos[1..]);
        AnyLevelIsAccepted(x.env.runOne, false, start, jobs);
        var b := RunFrom(x.env.runOne, None, false, start, jobs);
        RunFromAppend(x.env.runOne, None, false, start, jobs, rest);
        ResultsDoNotMatter(x.env.runOne, None, false, b, Batch(b.disk, [], false), rest);
        ExperimentIsItsJobs(x, next, combos[1..]);
      }
    }
  }

  /** A job of an experiment comes from one of its conditions, seeds and repetitions. */
  ghost predicate JobFrom(x: Campaign, combos: seq<ContextCombination>, job: Job, combo: ContextCombination,
                          seed: Option<int>, repetition: nat) {
    var r := Resolve(x.env.cat, combo, x.task.available);
    && combo in combos && r.architectures.Some?
    && JobOf(InstanceOf(x, combo, r.architectures.value), SeedValues(x.setup.seeds), job, seed, repetition)
  }

  lemma {:induction false} JobComesFrom(x: Campaign, combos: seq<ContextCombination>, job: Job)
    returns (combo: ContextCombination, seed: Option<int>, repetition: nat)
    requires job in ExperimentJobs(x, combos)
    ensures JobFrom(x, combos, job, combo, seed, repetition)
  {
    var r := Resolve(x.env.cat, combos[0], x.task.available);
    if !OutsideUseCase(x.candidate, combos[0]) && !NotRun(x, r) && job in ConditionJobs(x, combos[0]) {
      combo := combos[0];
      seed, repetition := SeedJobsMembers(InstanceOf(x, combo, r.architectures.value), SeedValues(x.setup.seeds), job);
    } else {
      combo, seed, repetition := JobComesFrom(x, combos[1..], job);
      assert forall c :: c in combos[1..] ==> c in combos;
    }
  }

  lemma ExperimentJobsTraceable(x: Campaign, combos: seq<ContextCombination>)
    ensures Traceable(ExperimentJobs(x, combos))
  {
    var jobs := ExperimentJobs(x, combos);
    forall i, j | 0 <= i < j < |jobs| && jobs[i].runId == jobs[j].runId && jobs[i].config == jobs[j].config
      ensures jobs[i] == jobs[j]
    {
      var a, s, r := JobComesFrom(x, combos, jobs[i]);
      var b, t, q := JobComesFrom(x, combos, jobs[j]);
      RunIdInjective(x.name, InstanceOf(x, a, ArmFor(x, a)).instanceId, s, r, InstanceOf(x, b, ArmFor(x, b)).instanceId,
                     t, q);
    }
  }

  function ArmFor(x: Campaign, combo: ContextCombination): seq<string> {
    var r := Resolve(x.env.cat, combo, x.task.available);
    if r.architectures.Some? then r.architectures.value else []
  }

  lemma ExperimentJobsAreNew(x: Campaign, combos: seq<ContextCombination>, d: Disk)
    ensures AllAccepted(None, ExperimentJobs(x, combos))
    ensures forall job :: job in ExperimentJobs(x, combos) ==> x.name + "-" <= job.runId
    ensures !CampaignExists(d, x.name) ==> NoneOnDisk(d, ExperimentJobs(x, combos))
  {
    forall job | job in ExperimentJobs(x, combos) ensures x.name + "-" <= job.runId {
      var combo, seed, repetition := JobComesFrom(x, combos, job);
      RunIdHasPrefix(x.name, InstanceOf(x, combo, ArmFor(x, combo)).instanceId, seed, repetition);
    }
  }

  // ---------------------------------------------------------------------
  // Nothing overwritten, everything read back

  /** Without `force` an invocation, whatever it returns or raises, leaves every file that was there as it was. */
  lemma ExperimentOverwritesNothing(env: Env, config: Config, autoId: string, d: Disk)
    requires Faithful(env.runOne) && WellKept(d) && !config.force
    ensures Preserves(d, RunExperiment(env, config, autoId, d).0) && WellKept(RunExperiment(env, config, autoId, d).0)
  {
    if config.taskId in env.tasks {
      var selection := SelectConditions(env.cat, d, config.design, env.tasks[config.taskId]);
      if selection.Selected? {
        SelectedOverwriteNothing(CampaignOf(env, config, autoId), selection.combos, d);
      }
    }
  }

  lemma SelectedOverwriteNothing(x: Campaign, combos: seq<ContextCombination>, d: Disk)
    requires Faithful(x.env.runOne) && WellKept(d)
    ensures Preserves(d, RunSelected(x, false, combos, d).0) && WellKept(RunSelected(x, false, combos, d).0)
  {
    var jobs := ExperimentJobs(x, combos);
    ExperimentJobsAreNew(x, combos, d);
    ExperimentIsItsJobs(x, Start(d), combos);
    var session := Session(x.env.runOne, None, false, x.name, jobs, |jobs|);
    SessionPreserves(d, session);
  }

  /**
   After a fresh experiment every run reads back as exactly the record it produced if and only if its jobs
   are consistent.
   */
  lemma ExperimentReadsBackIff(x: Campaign, combos: seq<ContextCombination>, d: Disk)
    requires Faithful(x.env.runOne) && WellKept(d) && !CampaignExists(d, x.name)
    ensures AllReadBack(x.env.runOne, RunSelected(x, false, combos, d).0, ExperimentJobs(x, combos))
       <==> Consistent(ExperimentJobs(x, combos))
  {
    ExperimentJobsAreNew(x, combos, d);
    ExperimentJobsTraceable(x, combos);
    ExperimentIsItsJobs(x, Start(d), combos);
    ReadBackIffConsistent(x.env.runOne, None, false, d, ExperimentJobs(x, combos));
  }

  /** No dimension label contains the dash that ends a combination id within an instance id. */
  ghost predicate DashFree(cat: Catalog) {
    forall d :: d in cat.order ==> '-' !in d
  }

  lemma IcabIsDashFree()
    ensures DashFree(ICAB)
  {
    forall d | d in ICAB.order ensures '-' !in d {
      assert d in {"C1", "C2", "C3", "C4", "C5", "C6", "C7"};
    }
  }

  lemma {:induction false} JoinedDashFree(dims: seq<string>)
    requires forall d :: d in dims ==> '-' !in d
    ensures '-' !in Join('+', dims)
  {
    if |dims| > 1 {
      assert forall d :: d in dims[1..] ==> d in dims;
      JoinedDashFree(dims[1..]);
      assert dims[0] in dims;
    } else if |dims| == 1 {
      assert dims[0] in dims;
    }
  }

  /** A text without dashes, then a dash: the dash is the first. */
  lemma DashPosition(a: string, u: string)
    requires '-' !in a
    ensures |a| < |a + "-" + u| && (a + "-" + u)[..|a|] == a && (a + "-" + u)[|a|] == '-'
    ensures forall k :: 0 <= k < |a| ==> (a + "-" + u)[k] != '-'
  {
    assert forall k :: 0 <= k < |a| ==> (a + "-" + u)[k] == a[k] && a[k] in a;
  }

  /** Combination ids without dashes end at the first dash. */
  lemma FirstDash(a: string, u: string, b: string, v: string)
    requires a + "-" + u == b + "-" + v && '-' !in a && '-' !in b
    ensures a == b
  {
    DashPosition(a, u);
    DashPosition(b, v);
  }

  lemma SameInstanceSameCombination(x: Campaign, a: ContextCombination, b: ContextCombination, arm: seq<string>,
                                    arm': seq<string>)
    requires Valid(x.env.cat) && DashFree(x.env.cat) && IsCombination(x.env.cat, a) && IsCombination(x.env.cat, b)
    requires InstanceOf(x, a, arm).instanceId == InstanceOf(x, b, arm').instanceId
    ensures a == b
  {
    RestrictFacts(x.env.cat.order, SetOf(a.dimensions));
    RestrictFacts(x.env.cat.order, SetOf(b.dimensions));
    forall d | d in a.dimensions || d in b.dimensions ensures d in x.env.cat.order && '-' !in d && '+' !in d {
      assert d in SetOf(a.dimensions) || d in SetOf(b.dimensions);
    }
    JoinedDashFree(a.dimensions);
    JoinedDashFree(b.dimensions);
    FirstDash(a.combinationId, Join('+', arm), b.combinationId, Join('+', arm'));
    JoinInjective('+', a.dimensions, b.dimensions);
  }

  /** With dash-free labels an experiment's jobs are consistent even when conditions are repeated. */
  lemma DashFreeIsConsistent(x: Campaign, combos: seq<ContextCombination>)
    requires Valid(x.env.cat) && DashFree(x.env.cat) && forall c :: c in combos ==> IsCombination(x.env.cat, c)
    ensures Consistent(ExperimentJobs(x, combos))
  {
    var jobs := ExperimentJobs(x, combos);
    forall i, j | 0 <= i < j < |jobs| && jobs[i].runId == jobs[j].runId ensures jobs[i] == jobs[j] {
      var a, s, r := JobComesFrom(x, combos, jobs[i]);
      var b, t, q := JobComesFrom(x, combos, jobs[j]);
      RunIdInjective(x.name, InstanceOf(x, a, ArmFor(x, a)).instanceId, s, r, InstanceOf(x, b, ArmFor(x, b)).instanceId,
                     t, q);
      SameInstanceSameCombination(x, a, b, ArmFor(x, a), ArmFor(x, b));
    }
  }

  /** So with dash-free labels every run of a fresh experiment, of whatever design, reads back as its own record. */
  lemma ExperimentReadsBack(env: Env, config: Config, autoId: string, d: Disk, combos: seq<ContextCombination>)
    requires Faithful(env.runOne) && WellKept(d) && Valid(env.cat) && DashFree(env.cat) && config.taskId in env.tasks
    requires SelectConditions(env.cat, d, config.design, env.tasks[config.taskId]) == Selected(combos)
    requires !config.force && !CampaignExists(d, CampaignOf(env, config, autoId).name)
    ensures AllReadBack(env.runOne, RunExperiment(env, config, autoId, d).0,
                        ExperimentJobs(CampaignOf(env, config, autoId), combos))
  {
    var x := CampaignOf(env, config, autoId);
    forall c | c in combos ensures IsCombination(env.cat, c) {
      SelectedAreCombinations(env.cat, d, config.design, env.tasks[config.taskId], c);
    }
    DashFreeIsConsistent(x, combos);
    ExperimentReadsBackIff(x, combos, d);
  }

  /** Different conditions and seeds give every run of an experiment its own id. */
  lemma {:induction false} ExperimentIdsDistinct(x: Campaign, combos: seq<ContextCombination>)
    requires Valid(x.env.cat) && DashFree(x.env.cat) && forall c :: c in combos ==> IsCombination(x.env.cat, c)
    requires Distinct(combos) && Distinct(SeedValues(x.setup.seeds))
    ensures DistinctIds(ExperimentJobs(x, combos))
  {
    if combos != [] {
      DistinctTail(combos);
      assert forall c :: c in combos[1..] ==> c in combos;
      ExperimentIdsDistinct(x, combos[1..]);
      var r := Resolve(x.env.cat, combos[0], x.task.available);
      if !OutsideUseCase(x.candidate, combos[0]) && !NotRun(x, r) && !ConfigRaises(x, r.architectures.value) {
        var a, b := ConditionJobs(x, combos[0]), ExperimentJobs(x, combos[1..]);
        SeedJobsDistinct(InstanceOf(x, combos[0], r.architectures.value), SeedValues(x.setup.seeds));
        forall i, j | 0 <= i < |a| && 0 <= j < |b| ensures a[i].runId != b[j].runId {
          OtherCondition(x, combos[0], combos[1..], a[i], b[j]);
        }
        DistinctIdsConcat(a, b);
      }
    }
  }

  lemma OtherCondition(x: Campaign, combo: ContextCombination, others: seq<ContextCombination>, a: Job, b: Job)
    requires Valid(x.env.cat) && DashFree(x.env.cat) && IsCombination(x.env.cat, combo) && combo !in others
    requires forall c :: c in others ==> IsCombination(x.env.cat, c)
    requires a in ConditionJobs(x, combo) && b in ExperimentJobs(x, others)
    ensures a.runId != b.runId
  {
    var s, r := SeedJobsMembers(InstanceOf(x, combo, ArmFor(x, combo)), SeedValues(x.setup.seeds), a);
    var other, t, q := JobComesFrom(x, others, b);
    if a.runId == b.runId {
      RunIdInjective(x.name, InstanceOf(x, combo, ArmFor(x, combo)).instanceId, s, r,
                     InstanceOf(x, other, ArmFor(x, other)).instanceId, t, q);
      SameInstanceSameCombination(x, combo, other, ArmFor(x, combo), ArmFor(x, other));
    }
  }

  // ---------------------------------------------------------------------
  // A condition that is targeted twice

  /** None of the conditions raises. */
  ghost predicate NoneRaises(x: Campaign, combos: seq<ContextCombination>) {
    forall c :: c in combos ==>
      OutsideUseCase(x.candidate, c) || NotRun(x, Resolve(x.env.cat, c, x.task.available))
        || !ConfigRaises(x, ArmFor(x, c))
  }

  lemma {:induction false} ExperimentJobsAppend(x: Campaign, a: seq<ContextCombination>, b: seq<ContextCombination>)
    requires NoneRaises(x, a)
    ensures ExperimentJobs(x, a + b) == ExperimentJobs(x, a) + ExperimentJobs(x, b)
  {
    if a == [] {
      assert a + b == b;
    } else {
      assert (a + b)[1..] == a[1..] + b;
      assert a[0] in a && forall c :: c in a[1..] ==> c in a;
      ExperimentJobsAppend(x, a[1..], b);
    }
  }

  /** Its runs come twice, under the same ids, and the second time is not skipped. */
  lemma RepeatedTargetRepeatsRuns(x: Campaign, before: seq<ContextCombination>, c: ContextCombination,
                                  between: seq<ContextCombination>, after: seq<ContextCombination>)
    requires NoneRaises(x, before + [c] + between)
    requires !OutsideUseCase(x.candidate, c) && !NotRun(x, Resolve(x.env.cat, c, x.task.available))
    ensures ExperimentJobs(x, before + [c] + between + [c] + after)
         == ExperimentJobs(x, before) + ConditionJobs(x, c) + ExperimentJobs(x, between) + ConditionJobs(x, c)
           + ExperimentJobs(x, after)
  {
    assert NoneRaises(x, before) && NoneRaises(x, [c]) && NoneRaises(x, between);
    ExperimentJobsAppend(x, before + [c] + between + [c], after);
    ExperimentJobsAppend(x, before + [c] + between, [c]);
    ExperimentJobsAppend(x, before + [c], between);
    ExperimentJobsAppend(x, before, [c]);
    assert [c][1..] == [];
    assert ExperimentJobs(x, [c]) == ConditionJobs(x, c) + ExperimentJobs(x, []) == ConditionJobs(x, c);
  }

  /**
   If runs vary, let `outs` be what they produced, one per job. The last run `q` of an id reads back as
   itself exactly when it has an evaluation or neither an earlier run of the id nor the store had one.
   */
  lemma {:induction false} RepeatedRunReadsBackIff(d: Disk, jobs: seq<Job>, outs: seq<RunOutput>, q: nat)
    requires |outs| == |jobs| && forall k :: 0 <= k < |jobs| ==> outs[k].record.raw.runId == jobs[k].runId
    requires q < |jobs| && forall k :: q < k < |jobs| ==> jobs[k].runId != jobs[q].runId
    ensures Loaded(SaveAll(d, outs), jobs[q].runId) == Some(outs[q].record)
       <==> || outs[q].record.evaluation.Some?
            || (jobs[q].runId !in d.evaluations
                && forall p :: 0 <= p < q && jobs[p].runId == jobs[q].runId ==> outs[p].record.evaluation.None?)
  {
    var id := jobs[q].runId;
    LastOutputReadsBack(d, outs, q, id);
    NoEvaluationIff(d, outs[..q], id);
    assert forall p :: 0 <= p < q ==> outs[..q][p] == outs[p];
  }

  lemma {:induction false} NoEvaluationIff(d: Disk, outs: seq<RunOutput>, id: string)
    ensures LatestEvaluation(d, outs, id).None?
       <==> id !in d.evaluations
            && forall p :: 0 <= p < |outs| && outs[p].record.raw.runId == id ==> outs[p].record.evaluation.None?
  {
    if outs != [] {
      NoEvaluationIff(d, outs[..|outs| - 1], id);
    }
  }
}
