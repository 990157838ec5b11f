/**
 `QuestionBenchmarkRunner`: selects questions, resolves each (question, scenario,
 combination) to an architecture arm, and executes every instance over seeds and
 repetitions. An empty filter list stands for Python's `None` or `[]`, which the
 code treats alike.
 */
module QuestionCampaign {
  import opened Basics
  import opened Text
  import opened RunIds
  import opened ContextSpace
  import opened Conditions
  import opened ResultStore
  import opened Execution
  import opened Instances

  /** `scenarios` lists the keys of `realizations` in declaration order. */
  datatype Question = Question(
    questionId: string,
    useCaseId: string,
    tags: set<string>,
    requiredContext: seq<string>,
    scenarios: seq<string>,
    realizations: map<string, string>)

  /** What to run; the same for a fresh campaign and for its resumptions. */
  datatype Design = Design(
    questionIds: seq<string>,
    useCaseIds: seq<string>,
    tags: seq<string>,
    combinationIds: seq<string>,
    allowOvershoot: bool,
    scenarioIds: seq<string>,
    agent: string,
    seeds: seq<int>,
    repetitions: nat)

  datatype Config = Config(design: Design, name: string, force: bool, resume: bool)

  /** The registries, the foreign run function, and the short hash that ends an instance id. */
  datatype Env = Env(
    cat: Catalog,
    level: string,
    bank: seq<Question>,
    tasks: map<string, Task>,
    agents: set<string>,
    runOne: Job -> RunOutput,
    digest: string -> string)

  datatype Error =
    | NoQuestions | CampaignCollision | UnknownTask(taskId: string) | BadCombination(id: string)
    | UnknownAgent | EmptyContext | LevelMismatch

  datatype OutcomeStatus = NotApplicable | Resolved(status: Status)

  datatype Outcome = Outcome(
    questionId: string,
    scenarioId: string,
    combinationId: string,
    status: OutcomeStatus,
    architectures: Option<seq<string>>,
    instanceId: Option<string>,
    executed: bool,
    runIds: seq<string>)

  /** One step of the selection: something to report, something to execute, or an exception. */
  datatype Item =
    | Skip(outcome: Outcome)
    | Execute(outcome: Outcome, fault: Option<Error>, jobs: seq<Job>)
    | Raise(error: Error)

  // ---------------------------------------------------------------------
  // Selection

  predicate Wanted(design: Design, q: Question) {
    && (design.questionIds != [] ==> q.questionId in design.questionIds)
    && (design.useCaseIds != [] ==> q.useCaseId in design.useCaseIds)
    && (design.tags != [] ==> SetOf(design.tags) * q.tags != {})
  }

  predicate ById(a: Question, b: Question) {
    !StringLt(b.questionId, a.questionId)
  }

  function SelectQuestions(env: Env, design: Design): seq<Question> {
    Sort(ById, Filter(env.bank, q => Wanted(design, q)))
  }

  /** Exactly the matching questions, in id order. */
  lemma SelectionFacts(env: Env, design: Design, q: Question)
    ensures q in SelectQuestions(env, design) <==> q in env.bank && Wanted(design, q)
    ensures SortedBy(ById, SelectQuestions(env, design))
  {
    StringOrder();
    var matching := Filter(env.bank, q => Wanted(design, q));
    FilterMembers(env.bank, q => Wanted(design, q));
    SortMembers(ById, matching);
    SortProperties(ById, matching);
  }

  datatype Selection = Combos(combos: seq<ContextCombination>) | Unknown(id: string)

  function LookupAll(cat: Catalog, ids: seq<string>): Selection {
    if ids == [] then Combos([])
    else
      match CombinationForId(cat, ids[0])
      case None => Unknown(ids[0])
      case Some(combo) =>
        var rest := LookupAll(cat, ids[1..]);
        if rest.Unknown? then rest else Combos([combo] + rest.combos)
  }

  function SelectCombinations(env: Env, design: Design, q: Question): Selection {
    if design.combinationIds != [] then LookupAll(env.cat, design.combinationIds)
    else
      match CombinationIdFor(env.cat, q.requiredContext)
      case None => Unknown("")
      case Some(id) => LookupAll(env.cat, [id])
  }

  /** Without explicit combinations a question runs under the one combination of its own required context. */
  lemma DefaultCombination(env: Env, design: Design, q: Question)
    requires Valid(env.cat) && design.combinationIds == []
    requires q.requiredContext != [] && SetOf(q.requiredContext) <= SetOf(env.cat.order)
    ensures var selection := SelectCombinations(env, design, q);
            selection.Combos? && |selection.combos| == 1
              && SetOf(selection.combos[0].dimensions) == SetOf(q.requiredContext)
  {
    IdRoundTrip(env.cat, q.requiredContext);
    var id := CombinationIdFor(env.cat, q.requiredContext).value;
    var combo := CombinationForDimensions(env.cat, q.requiredContext);
    assert combo == CombinationForId(env.cat, id);
    assert LookupAll(env.cat, [id]) == Combos([combo.value]) by {
      assert [id][1..] == [] && LookupAll(env.cat, []) == Combos([]);
    }
  }

  function ScenariosOf(design: Design, q: Question): seq<string> {
    if design.scenarioIds != [] then design.scenarioIds else q.scenarios
  }

  function Readable(q: string, scenario: string, arm: seq<string>, agent: string): string {
    q + "--" + scenario + "--" + (if arm == [] then "none" else Join('+', arm)) + "--" + agent
  }

  /** `digest` also covers the model and temperature, which are fixed within a campaign. */
  function InstanceId(digest: string -> string, q: string, scenario: string, arm: seq<string>, agent: string): string {
    var readable := Readable(q, scenario, arm, agent);
    readable + "--" + digest(readable)
  }

  // ---------------------------------------------------------------------
  // Configuration of one instance

  /** `build_experiment_config` and the level check before the first run. */
  function FaultOf(env: Env, design: Design, task: Task, arm: seq<string>): Option<Error> {
    if design.agent !in env.agents then Some(UnknownAgent)
    else if CombinationIdFor(env.cat, ProvidedDimensions(env.cat, arm)).None? then Some(EmptyContext)
    else if task.isaLevel != Some(env.level) then Some(LevelMismatch)
    else None
  }

  /** The configuration every run of an instance shares; it records the PROVIDED combination. */
  function RunConfigOf(env: Env, design: Design, task: Task, arm: seq<string>, questionId: string,
                       instanceId: string): RunConfig {
    var recorded := CombinationIdFor(env.cat, ProvidedDimensions(env.cat, arm));
    RunConfig(task.taskId, task.isaLevel, if recorded.Some? then recorded.value else "", arm, design.agent,
              Some(questionId), Some(instanceId), 0)
  }

  // ---------------------------------------------------------------------
  // The work list

  function ItemOf(env: Env, design: Design, campaign: string, q: Question, scenario: string, task: Task,
                  combo: ContextCombination): Item {
    var r := Resolve(env.cat, combo, task.available);
    if r.status == Unrealizable || (r.status == Overshoot && !design.allowOvershoot) then
      Skip(Outcome(q.questionId, scenario, combo.combinationId, Resolved(r.status), r.architectures, None, false, []))
    else
      var arm := SortedSet(r.architectures.value);
      var instanceId := InstanceId(env.digest, q.questionId, scenario, arm, design.agent);
      var inst := Instance(campaign, instanceId, RunConfigOf(env, design, task, arm, q.questionId, instanceId),
                           design.repetitions);
      Execute(Outcome(q.questionId, scenario, combo.combinationId, Resolved(r.status), r.architectures,
                      Some(instanceId), false, []), FaultOf(env, design, task, arm),
              SeedJobs(inst, SeedValues(design.seeds)))
  }

  /**
   A selected combination is executed exactly when some architectures realize it, or cover it and
   overshooting is allowed.
   */
  lemma ExecutesIffRunnable(env: Env, design: Design, campaign: string, q: Question, scenario: string, task: Task,
                            combo: ContextCombination)
    ensures ItemOf(env, design, campaign, q, scenario, task, combo).Execute?
       <==> Runnable(env.cat, task.available, SetOf(combo.dimensions), design.allowOvershoot)
  {
    NotSkippedIffRunnable(env.cat, combo, task.available, design.allowOvershoot);
  }

  function ComboItems(env: Env, design: Design, campaign: string, q: Question, scenario: string, task: Task,
                      combos: seq<ContextCombination>): seq<Item> {
    if combos == [] then []
    else [ItemOf(env, design, campaign, q, scenario, task, combos[0])]
         + ComboItems(env, design, campaign, q, scenario, task, combos[1..])
  }

  function ItemsAt(env: Env, design: Design, campaign: string, q: Question, scenario: string): seq<Item> {
    if scenario !in q.realizations then
      [Skip(Outcome(q.questionId, scenario, "(n/a)", NotApplicable, None, None, false, []))]
    else if q.realizations[scenario] !in env.tasks then
      [Raise(UnknownTask(q.realizations[scenario]))]
    else
      match SelectCombinations(env, design, q)
      case Unknown(id) => [Raise(BadCombination(id))]
      case Combos(combos) => ComboItems(env, design, campaign, q, scenario, env.tasks[q.realizations[scenario]], combos)
  }

  function ScenarioItems(env: Env, design: Design, campaign: string, q: Question, scenarios: seq<string>): seq<Item> {
    if scenarios == [] then []
    else ItemsAt(env, design, campaign, q, scenarios[0]) + ScenarioItems(env, design, campaign, q, scenarios[1..])
  }

  function Worklist(env: Env, design: Design, campaign: string, questions: seq<Question>): seq<Item> {
    if questions == [] then []
    else ScenarioItems(env, design, campaign, questions[0], ScenariosOf(design, questions[0]))
         + Worklist(env, design, campaign, questions[1..])
  }

  // ---------------------------------------------------------------------
  // Executing the work list

  datatype Tally = Tally(outcomes: seq<Outcome>, runIds: seq<string>, successful: nat, failed: nat,
                         raised: Option<Error>)

  datatype Progress = Progress(disk: Disk, tally: Tally)

  function NoTally(): Tally {
    Tally([], [], 0, 0, None)
  }

  function Counted(t: Tally, outcome: Outcome, results: seq<(string, RunStatus)>): Tally {
    Tally(t.outcomes + [outcome.(executed := true, runIds := IdsOf(results))],
          t.runIds + IdsOf(results),
          t.successful + CountCompleted(results),
          t.failed + |results| - CountCompleted(results),
          None)
  }

  function StepItem(env: Env, resume: bool, p: Progress, item: Item): Progress {
    match item
    case Skip(outcome) => p.(tally := p.tally.(outcomes := p.tally.outcomes + [outcome]))
    case Raise(error) => p.(tally := p.tally.(raised := Some(error)))
    case Execute(outcome, fault, jobs) =>
      if fault.Some? then p.(tally := p.tally.(raised := fault))
      else
        var b := RunJobs(env.runOne, Some(env.level), resume, p.disk, jobs);
        Progress(b.disk, if b.raised then p.tally.(raised := Some(LevelMismatch))
                 else Counted(p.tally, outcome, b.results))
  }

  function RunItems(env: Env, resume: bool, p: Progress, items: seq<Item>): Progress
    decreases |items|
  {
    if items == [] || p.tally.raised.Some? then p
    else RunItems(env, resume, StepItem(env, resume, p, items[0]), items[1..])
  }

  datatype RunResult =
    | Raised(error: Error)
    | Done(campaign: string, outcomes: seq<Outcome>, totalSelected: nat, executedInstances: nat,
           totalRuns: nat, successful: nat, failed: nat, manifest: Option<map<string, Record>>)

  function CampaignId(config: Config, autoId: string): string {
    if config.name != "" then config.name else autoId
  }

  function CountExecuted(outcomes: seq<Outcome>): nat {
    if outcomes == [] then 0
    else CountExecuted(outcomes[..|outcomes| - 1]) + (if outcomes[|outcomes| - 1].executed then 1 else 0)
  }

  /** The records the results manifest is built from: every stored record of the level, of whatever campaign. */
  function LevelRecords(d: Disk, level: string): map<string, Record> {
    map id | id in d.raw && d.raw[id].config.isaLevel == Some(level) :: Loaded(d, id).value
  }

  /** A manifest is written only if some run was carried out or skipped as already there. */
  function Report(level: string, campaign: string, p: Progress): RunResult {
    var t := p.tally;
    if t.raised.Some? then Raised(t.raised.value)
    else Done(campaign, t.outcomes, |t.outcomes|, CountExecuted(t.outcomes), |t.runIds|, t.successful, t.failed,
              if t.runIds == [] then None else Some(LevelRecords(p.disk, level)))
  }

  /** A whole invocation of `run`: the store afterwards and what is returned or raised. */
  function RunCampaign(env: Env, d: Disk, config: Config, autoId: string): (Disk, RunResult) {
    var questions := SelectQuestions(env, config.design);
    var campaign := CampaignId(config, autoId);
    if questions == [] then (d, Raised(NoQuestions))
    else if !config.force && !config.resume && CampaignExists(d, campaign) then (d, Raised(CampaignCollision))
    else
      var p := RunItems(env, config.resume, Progress(d, NoTally()), Worklist(env, config.design, campaign, questions));
      (p.disk, Report(env.level, campaign, p))
  }

  // ---------------------------------------------------------------------
  // Planning

  datatype PlanTally = PlanTally(outcomes: seq<Outcome>, instances: nat, raised: Option<Error>)

  function StepPlan(t: PlanTally, item: Item): PlanTally {
    match item
    case Skip(outcome) => t.(outcomes := t.outcomes + [outcome])
    case Raise(error) => t.(raised := Some(error))
    case Execute(outcome, _, _) => PlanTally(t.outcomes + [outcome], t.instances + 1, None)
  }

  function PlanItems(t: PlanTally, items: seq<Item>): PlanTally
    decreases |items|
  {
    if items == [] || t.raised.Some? then t else PlanItems(StepPlan(t, items[0]), items[1..])
  }

  datatype PlanResult =
    | PlanRaised(error: Error)
    | Planned(campaign: string, outcomes: seq<Outcome>, plannedInstances: nat, plannedExecutions: nat)

  function PlannedExecutions(instances: nat, repetitions: nat, seeds: nat): nat {
    instances * repetitions * seeds
  }

  function PlanCampaign(env: Env, config: Config, autoId: string): PlanResult {
    var questions := SelectQuestions(env, config.design);
    var campaign := CampaignId(config, autoId);
    if questions == [] then PlanRaised(NoQuestions)
    else
      var t := PlanItems(PlanTally([], 0, None), Worklist(env, config.design, campaign, questions));
      if t.raised.Some? then PlanRaised(t.raised.value)
      else Planned(campaign, t.outcomes, t.instances,
                   PlannedExecutions(t.instances, config.design.repetitions, |SeedValues(config.design.seeds)|))
  }
}
