/** The loops of `run`, `_execute_instance` and `plan`, updating the store in place. */
module QuestionRunner {
  import opened Basics
  import opened RunIds
  import opened ContextSpace
  import opened Conditions
  import opened ResultStore
  import opened Execution
  import opened Instances
  import opened QuestionCampaign

  /** What `_execute_instance` returns or raises. */
  datatype InstanceResult = InstanceRaised(error: Error) | Results(results: seq<(string, RunStatus)>)

  class QuestionBenchmarkRunner {
    const env: Env
    const store: ExperimentResultStore

    constructor (env: Env, store: ExperimentResultStore)
      ensures this.env == env && this.store == store
    {
      this.env := env;
      this.store := store;
    }

    /** `_execute_instance`: the configuration checks, then seeds and repetitions. */
    method ExecuteInstance(inst: Instance, fault: Option<Error>, resume: bool, seeds: seq<Option<int>>)
      returns (r: InstanceResult)
      modifies store
      ensures fault.Some? ==> r == InstanceRaised(fault.value) && store.OnDisk() == old(store.OnDisk())
      ensures fault.None? ==>
                var b := RunJobs(env.runOne, Some(env.level), resume, old(store.OnDisk()), SeedJobs(inst, seeds));
                store.OnDisk() == b.disk && r == if b.raised then InstanceRaised(LevelMismatch) else Results(b.results)
    {
      if fault.Some? {
        return InstanceRaised(fault.value);
      }
      var results, raised := RunSeeds(store, env.runOne, Some(env.level), resume, inst, seeds);
      r := if raised then InstanceRaised(LevelMismatch) else Results(results);
    }

    /** One (question, scenario, combination): resolve, then skip or execute. */
    method RunCombination(design: Design, campaign: string, resume: bool, q: Question, scenario: string, task: Task,
                          combo: ContextCombination, t: Tally)
      returns (t': Tally)
      requires t.raised.None?
      modifies store
      ensures Progress(store.OnDisk(), t')
           == StepItem(env, resume, Progress(old(store.OnDisk()), t),
                       ItemOf(env, design, campaign, q, scenario, task, combo))
    {
      ghost var item := ItemOf(env, design, campaign, q, scenario, task, combo);
      var r := ResolveConditionArchitectures(env.cat, combo, task.available);
      if r.status == Unrealizable || (r.status == Overshoot && !design.allowOvershoot) {
        var skipped := Outcome(q.questionId, scenario, combo.combinationId, Resolved(r.status), r.architectures, None,
                               false, []);
        return t.(outcomes := t.outcomes + [skipped]);
      }
      var arm := SortedSet(r.architectures.value);
      var instanceId := InstanceId(env.digest, q.questionId, scenario, arm, design.agent);
      var inst := Instance(campaign, instanceId, RunConfigOf(env, design, task, arm, q.questionId, instanceId),
                           design.repetitions);
      assert item.Execute? && item.fault == FaultOf(env, design, task, arm)
             && item.jobs == SeedJobs(inst, SeedValues(design.seeds));
      var executed := ExecuteInstance(inst, FaultOf(env, design, task, arm), resume, SeedValues(design.seeds));
      match executed
      case InstanceRaised(error) => return t.(raised := Some(error));
      case Results(results) =>
        var successful, failed := CountStatuses(results);
        var outcome := Outcome(q.questionId, scenario, combo.combinationId, Resolved(r.status), r.architectures,
                               Some(instanceId), true, IdsOf(results));
        t' := Tally(t.outcomes + [outcome], t.runIds + IdsOf(results), t.successful + successful, t.failed + failed,
                    None);
    }

    /** The loop over the combinations of one scenario. */
    method RunCombinations(design: Design, campaign: string, resume: bool, q: Question, scenario: string, task: Task,
                           combos: seq<ContextCombination>, t0: Tally)
      returns (t: Tally)
      requires t0.raised.None?
      modifies store
      ensures Progress(store.OnDisk(), t)
           == RunItems(env, resume, Progress(old(store.OnDisk()), t0),
                       ComboItems(env, design, campaign, q, scenario, task, combos))
    {
      t := t0;
      ghost var goal := RunItems(env, resume, Progress(store.OnDisk(), t),
                                 ComboItems(env, design, campaign, q, scenario, task, combos));
      var i := 0;
      assert combos[0..] == combos;
      while i < |combos|
        invariant 0 <= i <= |combos| && t.raised.None?
        invariant goal == RunItems(env, resume, Progress(store.OnDisk(), t),
                                   ComboItems(env, design, campaign, q, scenario, task, combos[i..]))
      {
        NextItem(env, resume, Progress(store.OnDisk(), t), design, campaign, q, scenario, task, combos, i);
        t := RunCombination(design, campaign, resume, q, scenario, task, combos[i], t);
        if t.raised.Some? {
          return;
        }
        i := i + 1;
      }
    }

    static lemma NextItem(env: Env, resume: bool, p: Progress, design: Design, campaign: string, q: Question,
                          scenario: string, task: Task, combos: seq<ContextCombination>, i: nat)
      requires i < |combos| && p.tally.raised.None?
      ensures RunItems(env, resume, p, ComboItems(env, design, campaign, q, scenario, task, combos[i..]))
           == RunItems(env, resume,
                       StepItem(env, resume, p, ItemOf(env, design, campaign, q, scenario, task, combos[i])),
                       ComboItems(env, design, campaign, q, scenario, task, combos[i + 1..]))
    {
      var item := ItemOf(env, design, campaign, q, scenario, task, combos[i]);
      var rest := ComboItems(env, design, campaign, q, scenario, task, combos[i + 1..]);
      assert combos[i..][1..] == combos[i + 1..];
      assert ComboItems(env, design, campaign, q, scenario, task, combos[i..]) == [item] + rest;
      assert ([item] + rest)[1..] == rest;
    }

    /** One scenario of a question: nothing to do, an unknown task or combination, or its combinations. */
    method RunScenario(design: Design, campaign: string, resume: bool, q: Question, scenario: string, t0: Tally)
      returns (t: Tally)
      requires t0.raised.None?
      modifies store
      ensures Progress(store.OnDisk(), t)
           == RunItems(env, resume, Progress(old(store.OnDisk()), t0), ItemsAt(env, design, campaign, q, scenario))
    {
      if scenario !in q.realizations {
        var missing := Outcome(q.questionId, scenario, "(n/a)", NotApplicable, None, None, false, []);
        return t0.(outcomes := t0.outcomes + [missing]);
      }
      var taskId := q.realizations[scenario];
      if taskId !in env.tasks {
        return t0.(raised := Some(UnknownTask(taskId)));
      }
      var selection := SelectCombinations(env, design, q);
      match selection
      case Unknown(id) => return t0.(raised := Some(BadCombination(id)));
      case Combos(combos) => t := RunCombinations(design, campaign, resume, q, scenario, env.tasks[taskId], combos, t0);
    }

    /** The loop over the scenarios of one question. */
    method RunQuestion(design: Design, campaign: string, resume: bool, q: Question, t0: Tally) returns (t: Tally)
      requires t0.raised.None?
      modifies store
      ensures Progress(store.OnDisk(), t)
           == RunItems(env, resume, Progress(old(store.OnDisk()), t0),
                       ScenarioItems(env, design, campaign, q, ScenariosOf(design, q)))
    {
      t := t0;
      var scenarios := ScenariosOf(design, q);
      ghost var goal := RunItems(env, resume, Progress(store.OnDisk(), t),
                                 ScenarioItems(env, design, campaign, q, scenarios));
      var i := 0;
      assert scenarios[0..] == scenarios;
      while i < |scenarios|
        invariant 0 <= i <= |scenarios| && t.raised.None?
        invariant goal == RunItems(env, resume, Progress(store.OnDisk(), t),
                                   ScenarioItems(env, design, campaign, q, scenarios[i..]))
      {
        ghost var rest := ScenarioItems(env, design, campaign, q, scenarios[i + 1..]);
        assert ScenarioItems(env, design, campaign, q, scenarios[i..])
            == ItemsAt(env, design, campaign, q, scenarios[i]) + rest by {
          assert scenarios[i..][1..] == scenarios[i + 1..];
        }
        RunItemsAppend(env, resume, Progress(store.OnDisk(), t), ItemsAt(env, design, campaign, q, scenarios[i]), rest);
        t := RunScenario(design, campaign, resume, q, scenarios[i], t);
        if t.raised.Some? {
          return;
        }
        i := i + 1;
      }
    }

    method Run(config: Config, autoId: string) returns (r: RunResult)
      modifies store
      ensures (store.OnDisk(), r) == RunCampaign(env, old(store.OnDisk()), config, autoId)
    {
      var questions := SelectQuestions(env, config.design);
      if questions == [] {
        return Raised(NoQuestions);
      }
      var campaign := CampaignId(config, autoId);
      if !config.force && !config.resume && CampaignExists(store.OnDisk(), campaign) {
        return Raised(CampaignCollision);
      }
      ghost var goal := RunItems(env, config.resume, Progress(store.OnDisk(), NoTally()),
                                 Worklist(env, config.design, campaign, questions));
      var t := NoTally();
      var i := 0;
      assert questions[0..] == questions;
      while i < |questions|
        invariant 0 <= i <= |questions| && t.raised.None?
        invariant goal == RunItems(env, config.resume, Progress(store.OnDisk(), t),
                                   Worklist(env, config.design, campaign, questions[i..]))
      {
        ghost var rest := Worklist(env, config.design, campaign, questions[i + 1..]);
        ghost var items := ScenarioItems(env, config.design, campaign, questions[i],
                                         ScenariosOf(config.design, questions[i]));
        assert Worklist(env, config.design, campaign, questions[i..]) == items + rest by {
          assert questions[i..][1..] == questions[i + 1..];
        }
        RunItemsAppend(env, config.resume, Progress(store.OnDisk(), t), items, rest);
        t := RunQuestion(config.design, campaign, config.resume, questions[i], t);
        if t.raised.Some? {
          return Raised(t.raised.value);
        }
        i := i + 1;
      }
      r := Report(env.level, campaign, Progress(store.OnDisk(), t));
    }

    /** The dry run of one combination: the same resolution, nothing executed. */
    method PlanCombination(design: Design, campaign: string, q: Question, scenario: string, task: Task,
                           combo: ContextCombination, t: PlanTally)
      returns (t': PlanTally)
      requires t.raised.None?
      ensures t' == StepPlan(t, ItemOf(env, design, campaign, q, scenario, task, combo))
    {
      var r := ResolveConditionArchitectures(env.cat, combo, task.available);
      var outcome := Outcome(q.questionId, scenario, combo.combinationId, Resolved(r.status), r.architectures, None,
                             false, []);
      if r.status == Unrealizable || (r.status == Overshoot && !design.allowOvershoot) {
        return t.(outcomes := t.outcomes + [outcome]);
      }
      var instanceId := InstanceId(env.digest, q.questionId, scenario, SortedSet(r.architectures.value), design.agent);
      t' := PlanTally(t.outcomes + [outcome.(instanceId := Some(instanceId))], t.instances + 1, None);
    }

    method PlanCombinations(design: Design, campaign: string, q: Question, scenario: string, task: Task,
                            combos: seq<ContextCombination>, t0: PlanTally)
      returns (t: PlanTally)
      requires t0.raised.None?
      ensures t == PlanItems(t0, ComboItems(env, design, campaign, q, scenario, task, combos))
    {
      t := t0;
      ghost var goal := PlanItems(t, ComboItems(env, design, campaign, q, scenario, task, combos));
      var i := 0;
      assert combos[0..] == combos;
      while i < |combos|
        invariant 0 <= i <= |combos| && t.raised.None?
        invariant goal == PlanItems(t, ComboItems(env, design, campaign, q, scenario, task, combos[i..]))
      {
        ghost var item := ItemOf(env, design, campaign, q, scenario, task, combos[i]);
        ghost var rest := ComboItems(env, design, campaign, q, scenario, task, combos[i + 1..]);
        assert ComboItems(env, design, campaign, q, scenario, task, combos[i..]) == [item] + rest by {
          assert combos[i..][1..] == combos[i + 1..];
        }
        PlanNext(t, item, rest);
        t := PlanCombination(design, campaign, q, scenario, task, combos[i], t);
        i := i + 1;
      }
    }

    static lemma PlanNext(t: PlanTally, item: Item, rest: seq<Item>)
      requires t.raised.None?
      ensures PlanItems(t, [item] + rest) == PlanItems(StepPlan(t, item), rest)
    {
      assert ([item] + rest)[1..] == rest;
    }

    method PlanScenario(design: Design, campaign: string, q: Question, scenario: string, t0: PlanTally)
      returns (t: PlanTally)
      requires t0.raised.None?
      ensures t == PlanItems(t0, ItemsAt(env, design, campaign, q, scenario))
    {
      if scenario !in q.realizations {
        return t0.(outcomes := t0.outcomes
                   + [Outcome(q.questionId, scenario, "(n/a)", NotApplicable, None, None, false, [])]);
      }
      var taskId := q.realizations[scenario];
      if taskId !in env.tasks {
        return t0.(raised := Some(UnknownTask(taskId)));
      }
      var selection := SelectCombinations(env, design, q);
      match selection
      case Unknown(id) => return t0.(raised := Some(BadCombination(id)));
      case Combos(combos) => t := PlanCombinations(design, campaign, q, scenario, env.tasks[taskId], combos, t0);
    }

    method Plan(config: Config, autoId: string) returns (r: PlanResult)
      ensures r == PlanCampaign(env, config, autoId)
    {
      var questions := SelectQuestions(env, config.design);
      if questions == [] {
        return PlanRaised(NoQuestions);
      }
      var campaign := CampaignId(config, autoId);
      var t := PlanTally([], 0, None);
      ghost var goal := PlanItems(t, Worklist(env, config.design, campaign, questions));
      var i := 0;
      assert questions[0..] == questions;
      while i < |questions|
        invariant 0 <= i <= |questions| && t.raised.None?
        invariant goal == PlanItems(t, Worklist(env, config.design, campaign, questions[i..]))
      {
        var scenarios := ScenariosOf(config.design, questions[i]);
        ghost var rest := Worklist(env, config.design, campaign, questions[i + 1..]);
        assert questions[i..][1..] == questions[i + 1..];
        PlanItemsAppend(t, ScenarioItems(env, config.design, campaign, questions[i], scenarios), rest);
        t := PlanQuestion(config.design, campaign, questions[i], scenarios, t);
        if t.raised.Some? {
          return PlanRaised(t.raised.value);
        }
        i := i + 1;
      }
      r := Planned(campaign, t.outcomes, t.instances,
                   PlannedExecutions(t.instances, config.design.repetitions, |SeedValues(config.design.seeds)|));
    }

    method PlanQuestion(design: Design, campaign: string, q: Question, scenarios: seq<string>, t0: PlanTally)
      returns (t: PlanTally)
      requires t0.raised.None?
      ensures t == PlanItems(t0, ScenarioItems(env, design, campaign, q, scenarios))
    {
      t := t0;
      var i := 0;
      assert scenarios[0..] == scenarios;
      while i < |scenarios|
        invariant 0 <= i <= |scenarios| && t.raised.None?
        invariant PlanItems(t0, ScenarioItems(env, design, campaign, q, scenarios))
               == PlanItems(t, ScenarioItems(env, design, campaign, q, scenarios[i..]))
      {
        assert scenarios[i..][1..] == scenarios[i + 1..];
        PlanItemsAppend(t, ItemsAt(env, design, campaign, q, scenarios[i]),
                        ScenarioItems(env, design, campaign, q, scenarios[i + 1..]));
        t := PlanScenario(design, campaign, q, scenarios[i], t);
        if t.raised.Some? {
          return;
        }
        i := i + 1;
      }
    }
  }

  lemma {:induction false} PlanItemsAppend(t: PlanTally, a: seq<Item>, b: seq<Item>)
    ensures PlanItems(t, a + b) == PlanItems(PlanItems(t, a), b)
    decreases |a|
  {
    if a == [] {
      assert a + b == b;
    } else if t.raised.None? {
      assert (a + b)[1..] == a[1..] + b;
      PlanItemsAppend(StepPlan(t, a[0]), a[1..], b);
    }
  }

  lemma {:induction false} RunItemsAppend(env: Env, resume: bool, p: Progress, a: seq<Item>, b: seq<Item>)
    ensures RunItems(env, resume, p, a + b) == RunItems(env, resume, RunItems(env, resume, p, a), b)
    decreases |a|
  {
    if a == [] {
      assert a + b == b;
    } else if p.tally.raised.None? {
      assert (a + b)[1..] == a[1..] + b;
      RunItemsAppend(env, resume, StepItem(env, resume, p, a[0]), a[1..], b);
    }
  }
}
