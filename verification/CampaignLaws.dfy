/** What holds over whole campaigns: resumption, planning, run ids. */
module CampaignLaws {
  import opened Basics
  import opened RunIds
  import opened Text
  import opened ContextSpace
  import opened Conditions
  import opened ResultStore
  import opened Execution
  import opened Instances
  import opened QuestionCampaign

  /** The jobs of a work list in execution order, up to the first exception. */
  function JobsOf(items: seq<Item>): seq<Job> {
    if items == [] || items[0].Raise? || (items[0].Execute? && items[0].fault.Some?) then []
    else if items[0].Skip? then JobsOf(items[1..])
    else items[0].jobs + JobsOf(items[1..])
  }

  /** The jobs of a whole invocation. */
  function CampaignJobs(env: Env, design: Design, campaign: string): seq<Job> {
    JobsOf(Worklist(env, design, campaign, SelectQuestions(env, design)))
  }

  // ---------------------------------------------------------------------
  // Every job of the work list is at the right level and under the campaign's prefix

  /** What an execute item carries: the jobs of the instance it names, at the benchmark's level unless it faults. */
  ghost predicate OfInstance(env: Env, design: Design, campaign: string, item: Item, inst: Instance)
    requires item.Execute?
  {
    && item.outcome.instanceId == Some(inst.instanceId)
    && inst.config.questionId == Some(item.outcome.questionId) && inst.config.instanceId == Some(inst.instanceId)
    && inst.campaign == campaign && inst.repetitions == design.repetitions
    && item.jobs == SeedJobs(inst, SeedValues(design.seeds))
    && (item.fault.None? ==> inst.config.isaLevel == Some(env.level))
  }

  /** A selection outcome that has not been executed: nothing run, and an instance only if there is one to execute. */
  ghost predicate Unrun(item: Item) {
    && (item.Skip? ==> item.outcome.instanceId.None? && !item.outcome.executed && item.outcome.runIds == [])
    && (item.Execute? ==> item.outcome.instanceId.Some? && !item.outcome.executed)
  }

  ghost predicate GoodItem(env: Env, design: Design, campaign: string, item: Item) {
    Unrun(item) && (item.Execute? ==> exists inst :: OfInstance(env, design, campaign, item, inst))
  }

  ghost predicate GoodItems(env: Env, design: Design, campaign: string, items: seq<Item>) {
    forall item :: item in items ==> GoodItem(env, design, campaign, item)
  }

  lemma ItemOfIsGood(env: Env, design: Design, campaign: string, q: Question, scenario: string, task: Task,
                     combo: ContextCombination)
    ensures GoodItem(env, design, campaign, ItemOf(env, design, campaign, q, scenario, task, combo))
  {
    var item := ItemOf(env, design, campaign, q, scenario, task, combo);
    if item.Execute? {
      var arm := SortedSet(Resolve(env.cat, combo, task.available).architectures.value);
      var id := InstanceId(env.digest, q.questionId, scenario, arm, design.agent);
      var inst := Instance(campaign, id, RunConfigOf(env, design, task, arm, q.questionId, id), design.repetitions);
      assert OfInstance(env, design, campaign, item, inst);
    }
  }

  lemma {:induction false} ComboItemsAreGood(env: Env, design: Design, campaign: string, q: Question, scenario: string,
                                             task: Task, combos: seq<ContextCombination>)
    ensures GoodItems(env, design, campaign, ComboItems(env, design, campaign, q, scenario, task, combos))
  {
    if combos != [] {
      ItemOfIsGood(env, design, campaign, q, scenario, task, combos[0]);
      ComboItemsAreGood(env, design, campaign, q, scenario, task, combos[1..]);
    }
  }

  lemma {:induction false} ScenarioItemsAreGood(env: Env, design: Design, campaign: string, q: Question,
                                                scenarios: seq<string>)
    ensures GoodItems(env, design, campaign, ScenarioItems(env, design, campaign, q, scenarios))
  {
    if scenarios != [] {
      var scenario := scenarios[0];
      if scenario in q.realizations && q.realizations[scenario] in env.tasks {
        var selection := SelectCombinations(env, design, q);
        if selection.Combos? {
          ComboItemsAreGood(env, design, campaign, q, scenario, env.tasks[q.realizations[scenario]], selection.combos);
        }
      }
      ScenarioItemsAreGood(env, design, campaign, q, scenarios[1..]);
    }
  }

  lemma {:induction false} WorklistIsGood(env: Env, design: Design, campaign: string, questions: seq<Question>)
    ensures GoodItems(env, design, campaign, Worklist(env, design, campaign, questions))
  {
    if questions != [] {
      ScenarioItemsAreGood(env, design, campaign, questions[0], ScenariosOf(design, questions[0]));
      WorklistIsGood(env, design, campaign, questions[1..]);
    }
  }

  lemma {:induction false} JobsOfAreGood(env: Env, design: Design, campaign: string, items: seq<Item>, job: Job)
    requires GoodItems(env, design, campaign, items) && job in JobsOf(items)
    ensures job.config.isaLevel == Some(env.level) && campaign + "-" <= job.runId
  {
    assert items[0] in items && GoodItem(env, design, campaign, items[0]);
    if items[0].Execute? && job in items[0].jobs {
      var inst :| OfInstance(env, design, campaign, items[0], inst);
      var seed, repetition := SeedJobsMembers(inst, SeedValues(design.seeds), job);
      RunIdHasPrefix(campaign, inst.instanceId, seed, repetition);
    } else {
      assert forall item :: item in items[1..] ==> item in items;
      JobsOfAreGood(env, design, campaign, items[1..], job);
    }
  }

  /** A campaign's jobs pass the level check, and a fresh campaign finds none of them on disk. */
  lemma CampaignJobsFacts(env: Env, design: Design, campaign: string, d: Disk)
    ensures AllAccepted(Some(env.level), CampaignJobs(env, design, campaign))
    ensures !CampaignExists(d, campaign) ==> NoneOnDisk(d, CampaignJobs(env, design, campaign))
  {
    var items := Worklist(env, design, campaign, SelectQuestions(env, design));
    WorklistIsGood(env, design, campaign, SelectQuestions(env, design));
    forall job | job in JobsOf(items) ensures job.config.isaLevel == Some(env.level) && campaign + "-" <= job.runId {
      JobsOfAreGood(env, design, campaign, items, job);
    }
  }

  // ---------------------------------------------------------------------
  // Resuming a campaign

  /** The tally a work list leads to when every result is read off the run itself. */
  function IdealItems(env: Env, t: Tally, items: seq<Item>): Tally
    decreases |items|
  {
    if items == [] || t.raised.Some? then t
    else
      match items[0]
      case Skip(outcome) => IdealItems(env, t.(outcomes := t.outcomes + [outcome]), items[1..])
      case Raise(error) => t.(raised := Some(error))
      case Execute(outcome, fault, jobs) =>
        if fault.Some? then t.(raised := fault)
        else IdealItems(env, Counted(t, outcome, ResultsOf(env.runOne, jobs)), items[1..])
  }

  lemma ExecuteBetween(env: Env, resume: bool, d0: Disk, p: Progress, item: Item, jobs: seq<Job>, k: nat, stop: nat)
    requires Faithful(env.runOne) && Agree(env.runOne, jobs) && AllAccepted(Some(env.level), jobs)
    requires item.Execute? && item.fault.None? && k <= stop <= |jobs| && jobs[k..stop] == item.jobs
    requires Between(env.runOne, d0, p.disk, jobs, k)
    ensures StepItem(env, resume, p, item).tally == Counted(p.tally, item.outcome, ResultsOf(env.runOne, item.jobs))
    ensures Between(env.runOne, d0, StepItem(env, resume, p, item).disk, jobs, stop)
  {
    RunFromBetween(env.runOne, Some(env.level), resume, d0, Batch(p.disk, [], false), jobs, k, stop);
    assert [] + ResultsOf(env.runOne, item.jobs) == ResultsOf(env.runOne, item.jobs);
  }

  /**
   From any intermediate disk and in either mode, the rest of the work list is carried out as if nothing had
   happened.
   */
  lemma {:induction false} ItemsBetween(env: Env, resume: bool, d0: Disk, p: Progress, items: seq<Item>, jobs: seq<Job>,
                                        k: nat)
    requires Faithful(env.runOne) && Agree(env.runOne, jobs) && AllAccepted(Some(env.level), jobs)
    requires k <= |jobs| && JobsOf(items) == jobs[k..]
    requires p.tally.raised.None? && Between(env.runOne, d0, p.disk, jobs, k)
    ensures RunItems(env, resume, p, items).tally == IdealItems(env, p.tally, items)
    ensures Between(env.runOne, d0, RunItems(env, resume, p, items).disk, jobs, |jobs|)
    decreases |items|
  {
    if items != [] && items[0].Skip? {
      ItemsBetween(env, resume, d0, StepItem(env, resume, p, items[0]), items[1..], jobs, k);
    } else if items != [] && items[0].Execute? && items[0].fault.None? {
      var stop := k + |items[0].jobs|;
      assert jobs[k..] == items[0].jobs + JobsOf(items[1..]);
      assert jobs[k..stop] == items[0].jobs && jobs[stop..] == JobsOf(items[1..]);
      ExecuteBetween(env, resume, d0, p, items[0], jobs, k, stop);
      ItemsBetween(env, resume, d0, StepItem(env, resume, p, items[0]), items[1..], jobs, stop);
    }
  }

  /**
   The cut-off points of `Interrupted` are those of `run`: uncut, the job list does what the work list does
   to the store.
   */
  lemma {:induction false} WorklistIsItsJobs(env: Env, resume: bool, p: Progress, items: seq<Item>)
    requires Faithful(env.runOne) && AllAccepted(Some(env.level), JobsOf(items)) && p.tally.raised.None?
    ensures RunItems(env, resume, p, items).disk
         == RunJobs(env.runOne, Some(env.level), resume, p.disk, JobsOf(items)).disk
    decreases |items|
  {
    if items != [] && items[0].Skip? {
      WorklistIsItsJobs(env, resume, StepItem(env, resume, p, items[0]), items[1..]);
    } else if items != [] && items[0].Execute? && items[0].fault.None? {
      var start, jobs, rest := Batch(p.disk, [], false), items[0].jobs, JobsOf(items[1..]);
      assert forall job :: job in jobs ==> job in jobs + rest;
      assert forall job :: job in rest ==> job in jobs + rest;
      NeverRaised(env.runOne, Some(env.level), resume, start, jobs);
      var b := RunFrom(env.runOne, Some(env.level), resume, start, jobs);
      RunFromAppend(env.runOne, Some(env.level), resume, start, jobs, rest);
      ResultsDoNotMatter(env.runOne, Some(env.level), resume, b, Batch(b.disk, [], false), rest);
      WorklistIsItsJobs(env, resume, StepItem(env, resume, p, items[0]), items[1..]);
    }
  }

  // ---------------------------------------------------------------------
  // Distinct run ids

  /** The instance ids a work list executes, in order, up to the first exception. */
  function InstancesOf(items: seq<Item>): seq<string> {
    if items == [] || items[0].Raise? || (items[0].Execute? && items[0].fault.Some?) then []
    else if items[0].Skip? then InstancesOf(items[1..])
    else (if items[0].outcome.instanceId.Some? then [items[0].outcome.instanceId.value] else [])
         + InstancesOf(items[1..])
  }

  /** Jobs of an instance differ in run id from the jobs of items that do not name it. */
  lemma {:induction false} OtherInstance(env: Env, design: Design, campaign: string, items: seq<Item>, inst: Instance,
                                         a: Job, b: Job)
    requires GoodItems(env, design, campaign, items)
    requires inst.campaign == campaign && inst.instanceId !in InstancesOf(items)
    requires a in SeedJobs(inst, SeedValues(design.seeds)) && b in JobsOf(items)
    ensures a.runId != b.runId
  {
    assert items[0] in items && GoodItem(env, design, campaign, items[0]);
    if items[0].Execute? && b in items[0].jobs {
      var other :| OfInstance(env, design, campaign, items[0], other);
      var s, r := SeedJobsMembers(inst, SeedValues(design.seeds), a);
      var t, q := SeedJobsMembers(other, SeedValues(design.seeds), b);
      RunIdInjective(campaign, inst.instanceId, s, r, other.instanceId, t, q);
    } else {
      assert forall item :: item in items[1..] ==> item in items;
      OtherInstance(env, design, campaign, items[1..], inst, a, b);
    }
  }

  lemma {:induction false} JobsDistinct(env: Env, design: Design, campaign: string, items: seq<Item>)
    requires GoodItems(env, design, campaign, items)
    requires Distinct(InstancesOf(items)) && Distinct(SeedValues(design.seeds))
    ensures DistinctIds(JobsOf(items))
  {
    if items != [] && !items[0].Raise? && !(items[0].Execute? && items[0].fault.Some?) {
      assert items[0] in items && GoodItem(env, design, campaign, items[0]);
      assert forall item :: item in items[1..] ==> item in items;
      if items[0].Skip? {
        JobsDistinct(env, design, campaign, items[1..]);
      } else {
        var inst :| OfInstance(env, design, campaign, items[0], inst);
        DistinctTail(InstancesOf(items));
        assert InstancesOf(items)[1..] == InstancesOf(items[1..]);
        JobsDistinct(env, design, campaign, items[1..]);
        SeedJobsDistinct(inst, SeedValues(design.seeds));
        var a, b := items[0].jobs, JobsOf(items[1..]);
        forall i, j | 0 <= i < |a| && 0 <= j < |b| ensures a[i].runId != b[j].runId {
          OtherInstance(env, design, campaign, items[1..], inst, a[i], b[j]);
        }
        DistinctIdsConcat(a, b);
      }
    }
  }

  /** The invocation that resumes after the cuts `stops` ends like one uninterrupted fresh invocation. */
  ghost predicate ResumesAfter(env: Env, d: Disk, design: Design, name: string, autoId: string, stops: seq<nat>) {
    var cut := Interrupted(env.runOne, Some(env.level), d, CampaignJobs(env, design, name), stops);
    SelectQuestions(env, design) != [] ==>
      RunCampaign(env, cut, Config(design, name, false, true), autoId)
        == RunCampaign(env, d, Config(design, name, false, false), autoId)
  }

  /** A run id and a configuration determine a job of a campaign. */
  lemma JobsTraceable(env: Env, design: Design, campaign: string)
    ensures Traceable(CampaignJobs(env, design, campaign))
  {
    var jobs, items := CampaignJobs(env, design, campaign),
        Worklist(env, design, campaign, SelectQuestions(env, design));
    WorklistIsGood(env, design, campaign, SelectQuestions(env, design));
    forall i, j | 0 <= i < j < |jobs| && jobs[i].runId == jobs[j].runId && jobs[i].config == jobs[j].config
      ensures jobs[i] == jobs[j]
    {
      var a, s, r := JobComesFrom(env, design, campaign, items, jobs[i]);
      var b, t, q := JobComesFrom(env, design, campaign, items, jobs[j]);
      RunIdInjective(campaign, a.instanceId, s, r, b.instanceId, t, q);
    }
  }

  lemma {:induction false} JobComesFrom(env: Env, design: Design, campaign: string, items: seq<Item>, job: Job)
    returns (inst: Instance, seed: Option<int>, repetition: nat)
    requires GoodItems(env, design, campaign, items) && job in JobsOf(items)
    ensures inst.campaign == campaign && JobOf(inst, SeedValues(design.seeds), job, seed, repetition)
  {
    assert items[0] in items && GoodItem(env, design, campaign, items[0]);
    if items[0].Execute? && job in items[0].jobs {
      inst :| OfInstance(env, design, campaign, items[0], inst);
      seed, repetition := SeedJobsMembers(inst, SeedValues(design.seeds), job);
    } else {
      assert forall item :: item in items[1..] ==> item in items;
      inst, seed, repetition := JobComesFrom(env, design, campaign, items[1..], job);
    }
  }

  /**
   However often and wherever a campaign of consistent jobs is cut off and resumed, the last
   complete invocation leaves the same store and returns or raises the same as one
   uninterrupted fresh run would have.
   */
  lemma CampaignResume(env: Env, d: Disk, design: Design, name: string, autoId: string, stops: seq<nat>)
    requires Faithful(env.runOne) && name != "" && !CampaignExists(d, name)
    requires Consistent(CampaignJobs(env, design, name))
    ensures ResumesAfter(env, d, design, name, autoId, stops)
  {
    var items, jobs := Worklist(env, design, name, SelectQuestions(env, design)), CampaignJobs(env, design, name);
    CampaignJobsFacts(env, design, name, d);
    JobsTraceable(env, design, name);
    AgreeIffConsistent(env.runOne, jobs);
    InterruptedBetween(env.runOne, Some(env.level), d, jobs, stops);
    BetweenAtStart(env.runOne, d, jobs);
    var cut := Interrupted(env.runOne, Some(env.level), d, jobs, stops);
    assert jobs[0..] == jobs;
    ItemsBetween(env, true, d, Progress(cut, NoTally()), items, jobs, 0);
    ItemsBetween(env, false, d, Progress(d, NoTally()), items, jobs, 0);
    BetweenAtEnd(env.runOne, d, RunItems(env, true, Progress(cut, NoTally()), items).disk,
                 RunItems(env, false, Progress(d, NoTally()), items).disk, jobs);
  }

  /** Uninterrupted, a fresh or resumed invocation leaves the store its flat job list leaves. */
  lemma CampaignDisk(env: Env, d: Disk, design: Design, name: string, autoId: string, resume: bool)
    requires Faithful(env.runOne) && name != "" && SelectQuestions(env, design) != []
    requires resume || !CampaignExists(d, name)
    ensures RunCampaign(env, d, Config(design, name, false, resume), autoId).0
         == RunJobs(env.runOne, Some(env.level), resume, d, CampaignJobs(env, design, name)).disk
  {
    CampaignJobsFacts(env, design, name, d);
    WorklistIsItsJobs(env, resume, Progress(d, NoTally()), Worklist(env, design, name, SelectQuestions(env, design)));
  }

  /** A campaign can be resumed at every point if and only if its jobs are consistent, whatever its runs produce. */
  lemma CampaignResumableIff(env: Env, d: Disk, design: Design, name: string, autoId: string)
    requires Faithful(env.runOne) && name != "" && !CampaignExists(d, name) && WellKept(d)
    ensures (forall stop :: ResumesAfter(env, d, design, name, autoId, [stop]))
       <==> Consistent(CampaignJobs(env, design, name))
  {
    var jobs := CampaignJobs(env, design, name);
    if Consistent(jobs) {
      forall stop ensures ResumesAfter(env, d, design, name, autoId, [stop]) {
        CampaignResume(env, d, design, name, autoId, [stop]);
      }
    }
    if SelectQuestions(env, design) != [] && forall stop :: ResumesAfter(env, d, design, name, autoId, [stop]) {
      CampaignJobsFacts(env, design, name, d);
      forall stop ensures ResumesCleanly(env.runOne, Some(env.level), d, jobs, stop) {
        assert ResumesAfter(env, d, design, name, autoId, [stop]);
        CampaignDisk(env, d, design, name, autoId, false);
        CampaignDisk(env, Interrupted(env.runOne, Some(env.level), d, jobs, [stop]), design, name, autoId, true);
      }
      AgreementNeeded(env.runOne, Some(env.level), d, jobs);
      JobsTraceable(env, design, name);
      AgreeIffConsistent(env.runOne, jobs);
    }
  }

  /** The selections a work list executes, up to the first exception. */
  function Executed(items: seq<Item>): seq<Item> {
    if items == [] || items[0].Raise? || (items[0].Execute? && items[0].fault.Some?) then []
    else if items[0].Skip? then Executed(items[1..])
    else [items[0]] + Executed(items[1..])
  }

  /** Selections that name the same instance ask for the same runs of it, as two conditions with one arm do. */
  ghost predicate InstancesAgree(executed: seq<Item>) {
    forall x, y :: x in executed && y in executed && x.Execute? && y.Execute?
      && x.outcome.instanceId == y.outcome.instanceId
      ==> x.jobs == y.jobs
  }

  lemma {:induction false} ExecutedMembers(items: seq<Item>)
    ensures forall item :: item in Executed(items) ==> item in items && item.Execute?
  {
    if items != [] {
      ExecutedMembers(items[1..]);
      assert items == [items[0]] + items[1..];
    }
  }

  lemma {:induction false} JobsComeFromExecuted(items: seq<Item>, job: Job)
    ensures job in JobsOf(items) <==> exists item :: item in Executed(items) && item.Execute? && job in item.jobs
  {
    if items != [] {
      JobsComeFromExecuted(items[1..], job);
      if Executed(items) != [] && items[0].Execute? {
        assert Executed(items) == [items[0]] + Executed(items[1..]);
      }
    }
  }

  /** Jobs of one instance, given by what they have in common. */
  lemma {:induction false} SameConfigSameRepetitions(a: Instance, b: Instance, seed: Option<int>, repetition: nat)
    requires a.campaign == b.campaign && a.instanceId == b.instanceId && a.repetitions == b.repetitions
    requires a.config.(repetition := 0) == b.config.(repetition := 0)
    ensures RepetitionJobs(a, seed, repetition) == RepetitionJobs(b, seed, repetition)
    decreases a.repetitions + 1 - repetition
  {
    if repetition <= a.repetitions {
      SameConfigSameRepetitions(a, b, seed, repetition + 1);
      assert a.config.(repetition := repetition) == a.config.(repetition := 0).(repetition := repetition);
      assert b.config.(repetition := repetition) == b.config.(repetition := 0).(repetition := repetition);
    }
  }

  lemma {:induction false} SameConfigSameJobs(a: Instance, b: Instance, seeds: seq<Option<int>>)
    requires a.campaign == b.campaign && a.instanceId == b.instanceId && a.repetitions == b.repetitions
    requires a.config.(repetition := 0) == b.config.(repetition := 0)
    ensures SeedJobs(a, seeds) == SeedJobs(b, seeds)
  {
    if seeds != [] {
      SameConfigSameRepetitions(a, b, seeds[0], 1);
      SameConfigSameJobs(a, b, seeds[1..]);
    }
  }

  lemma SameJobsSameConfig(a: Instance, b: Instance, seeds: seq<Option<int>>)
    requires a.repetitions >= 1 && b.repetitions >= 1 && seeds != []
             && SeedJobs(a, seeds)[..1] == SeedJobs(b, seeds)[..1]
    ensures a.config.(repetition := 0) == b.config.(repetition := 0)
  {
    assert SeedJobs(a, seeds)[0] == RepetitionJobs(a, seeds[0], 1)[0] == JobAt(a, seeds[0], 1);
    assert SeedJobs(b, seeds)[0] == RepetitionJobs(b, seeds[0], 1)[0] == JobAt(b, seeds[0], 1);
    assert SeedJobs(a, seeds)[..1][0] == SeedJobs(b, seeds)[..1][0];
    assert a.config.(repetition := 1).(repetition := 0) == a.config.(repetition := 0);
    assert b.config.(repetition := 1).(repetition := 0) == b.config.(repetition := 0);
  }

  /** The consistency of a campaign's jobs, said of its selection: one instance id, one set of runs. */
  lemma ConsistentIffInstancesAgree(env: Env, design: Design, campaign: string)
    ensures Consistent(CampaignJobs(env, design, campaign))
       <==> InstancesAgree(Executed(Worklist(env, design, campaign, SelectQuestions(env, design))))
  {
    var items := Worklist(env, design, campaign, SelectQuestions(env, design));
    var jobs, executed := CampaignJobs(env, design, campaign), Executed(items);
    WorklistIsGood(env, design, campaign, SelectQuestions(env, design));
    ExecutedMembers(items);
    if InstancesAgree(executed) {
      forall i, j | 0 <= i < j < |jobs| && jobs[i].runId == jobs[j].runId ensures jobs[i] == jobs[j] {
        AgreeingJobs(env, design, campaign, items, jobs[i], jobs[j]);
      }
    }
    if Consistent(jobs) {
      forall x, y | x in executed && y in executed && x.Execute? && y.Execute?
        && x.outcome.instanceId == y.outcome.instanceId
        ensures x.jobs == y.jobs
      {
        ConsistentItems(env, design, campaign, items, x, y);
      }
    }
  }

  /** Two conditions of one question and scenario that resolve to the same arm are one instance with the same runs. */
  lemma SameArmSameJobs(env: Env, design: Design, campaign: string, q: Question, scenario: string, task: Task,
                        a: ContextCombination, b: ContextCombination)
    requires ItemOf(env, design, campaign, q, scenario, task, a).Execute?
             && ItemOf(env, design, campaign, q, scenario, task, b).Execute?
    requires Resolve(env.cat, a, task.available).architectures == Resolve(env.cat, b, task.available).architectures
    ensures var x, y := ItemOf(env, design, campaign, q, scenario, task, a),
            ItemOf(env, design, campaign, q, scenario, task, b);
            x.outcome.instanceId == y.outcome.instanceId && x.jobs == y.jobs
  {
  }

  lemma AgreeingJobs(env: Env, design: Design, campaign: string, items: seq<Item>, a: Job, b: Job)
    requires GoodItems(env, design, campaign, items) && InstancesAgree(Executed(items))
    requires a in JobsOf(items) && b in JobsOf(items) && a.runId == b.runId
    ensures a == b
  {
    JobsComeFromExecuted(items, a);
    JobsComeFromExecuted(items, b);
    ExecutedMembers(items);
    var x :| x in Executed(items) && x.Execute? && a in x.jobs;
    var y :| y in Executed(items) && y.Execute? && b in y.jobs;
    assert GoodItem(env, design, campaign, x) && GoodItem(env, design, campaign, y);
    var inst :| OfInstance(env, design, campaign, x, inst);
    var other :| OfInstance(env, design, campaign, y, other);
    var seeds := SeedValues(design.seeds);
    var s, r := SeedJobsMembers(inst, seeds, a);
    var t, q := SeedJobsMembers(other, seeds, b);
    RunIdInjective(campaign, inst.instanceId, s, r, other.instanceId, t, q);
    SameJobsSameConfig(inst, other, seeds);
    assert inst.config.(repetition := r) == inst.config.(repetition := 0).(repetition := r);
    assert other.config.(repetition := r) == other.config.(repetition := 0).(repetition := r);
  }

  lemma {:induction false} ConsistentItems(env: Env, design: Design, campaign: string, items: seq<Item>, x: Item,
                                           y: Item)
    requires GoodItems(env, design, campaign, items) && Consistent(JobsOf(items))
    requires x in Executed(items) && y in Executed(items) && x.Execute? && y.Execute?
    requires x.outcome.instanceId == y.outcome.instanceId
    ensures x.jobs == y.jobs
  {
    ExecutedMembers(items);
    assert GoodItem(env, design, campaign, x) && GoodItem(env, design, campaign, y);
    var inst :| OfInstance(env, design, campaign, x, inst);
    var other :| OfInstance(env, design, campaign, y, other);
    forall job | job in x.jobs || job in y.jobs ensures job in JobsOf(items) {
      JobsComeFromExecuted(items, job);
    }
    ConsistentInstances(inst, other, SeedValues(design.seeds), JobsOf(items));
  }

  /** Two instances with one id whose runs are among consistent jobs have the same runs. */
  lemma {:induction false} ConsistentInstances(a: Instance, b: Instance, seeds: seq<Option<int>>, jobs: seq<Job>)
    requires a.campaign == b.campaign && a.instanceId == b.instanceId && a.repetitions == b.repetitions && seeds != []
    requires Consistent(jobs)
    requires forall job :: job in SeedJobs(a, seeds) || job in SeedJobs(b, seeds) ==> job in jobs
    ensures SeedJobs(a, seeds) == SeedJobs(b, seeds)
  {
    if a.repetitions == 0 {
      NoRepetitionsNoJobs(a, seeds);
      NoRepetitionsNoJobs(b, seeds);
    } else {
      FirstJobIsListed(a, seeds);
      FirstJobIsListed(b, seeds);
      assert SeedJobs(a, seeds)[0] in SeedJobs(a, seeds) && SeedJobs(b, seeds)[0] in SeedJobs(b, seeds);
      SameFirstJob(a, b, seeds);
    }
  }

  lemma SameFirstJob(a: Instance, b: Instance, seeds: seq<Option<int>>)
    requires a.campaign == b.campaign && a.instanceId == b.instanceId && a.repetitions == b.repetitions && seeds != []
    requires JobAt(a, seeds[0], 1) == JobAt(b, seeds[0], 1)
    ensures SeedJobs(a, seeds) == SeedJobs(b, seeds)
  {
    assert a.config.(repetition := 1).(repetition := 0) == a.config.(repetition := 0);
    assert b.config.(repetition := 1).(repetition := 0) == b.config.(repetition := 0);
    SameConfigSameJobs(a, b, seeds);
  }

  lemma FirstJobIsListed(inst: Instance, seeds: seq<Option<int>>)
    requires inst.repetitions >= 1 && seeds != []
    ensures SeedJobs(inst, seeds) != [] && SeedJobs(inst, seeds)[0] == JobAt(inst, seeds[0], 1)
  {
    assert RepetitionJobs(inst, seeds[0], 1)[0] == JobAt(inst, seeds[0], 1);
  }

  lemma {:induction false} NoRepetitionsNoJobs(inst: Instance, seeds: seq<Option<int>>)
    requires inst.repetitions == 0
    ensures SeedJobs(inst, seeds) == []
  {
    if seeds != [] {
      NoRepetitionsNoJobs(inst, seeds[1..]);
    }
  }

  /** Different instances and different seeds are all it takes for every run of a campaign to have its own id. */
  lemma CampaignIdsDistinct(env: Env, design: Design, campaign: string)
    requires Distinct(InstancesOf(Worklist(env, design, campaign, SelectQuestions(env, design))))
    requires Distinct(SeedValues(design.seeds))
    ensures DistinctIds(CampaignJobs(env, design, campaign)) && Consistent(CampaignJobs(env, design, campaign))
  {
    var items := Worklist(env, design, campaign, SelectQuestions(env, design));
    WorklistIsGood(env, design, campaign, SelectQuestions(env, design));
    JobsDistinct(env, design, campaign, items);
  }

  /**
   After a fresh campaign every run reads back as exactly the record it produced if and only if the jobs are
   consistent.
   */
  lemma CampaignReadsBackIff(env: Env, d: Disk, design: Design, name: string, autoId: string)
    requires Faithful(env.runOne) && name != "" && WellKept(d) && !CampaignExists(d, name)
    ensures var jobs, end := CampaignJobs(env, design, name),
            RunCampaign(env, d, Config(design, name, false, false), autoId).0;
            AllReadBack(env.runOne, end, jobs) <==> Consistent(jobs)
  {
    if SelectQuestions(env, design) != [] {
      CampaignJobsFacts(env, design, name, d);
      CampaignDisk(env, d, design, name, autoId, false);
      JobsTraceable(env, design, name);
      ReadBackIffConsistent(env.runOne, Some(env.level), false, d, CampaignJobs(env, design, name));
    }
  }

  // ---------------------------------------------------------------------
  // The plan predicts the run

  /** A planned outcome and the one the run reports for the same selection; `per` runs an instance. */
  ghost predicate Predicts(planned: Outcome, ran: Outcome, per: nat) {
    && planned.questionId == ran.questionId && planned.scenarioId == ran.scenarioId
    && planned.combinationId == ran.combinationId && planned.status == ran.status
    && planned.architectures == ran.architectures && planned.instanceId == ran.instanceId
    && (ran.executed <==> planned.instanceId.Some?) && !planned.executed
    && |ran.runIds| == if ran.executed then per else 0
  }

  ghost predicate PlanMatches(t: PlanTally, ran: Tally, per: nat) {
    && t.raised.None? && ran.raised.None?
    && |t.outcomes| == |ran.outcomes|
    && (forall i :: 0 <= i < |t.outcomes| ==> Predicts(t.outcomes[i], ran.outcomes[i], per))
    && t.instances == CountExecuted(ran.outcomes)
    && |ran.runIds| == t.instances * per
    && ran.successful + ran.failed == |ran.runIds|
  }

  lemma CountExecutedSnoc(outcomes: seq<Outcome>, last: Outcome)
    ensures CountExecuted(outcomes + [last]) == CountExecuted(outcomes) + if last.executed then 1 else 0
  {
    assert (outcomes + [last])[..|outcomes|] == outcomes;
  }

  lemma MatchesSnoc(t: PlanTally, ran: Tally, per: nat, planned: Outcome, done: Outcome)
    requires PlanMatches(t, ran, per) && Predicts(planned, done, per)
    ensures CountExecuted(ran.outcomes + [done]) == t.instances + if done.executed then 1 else 0
    ensures forall i :: 0 <= i < |t.outcomes| + 1
              ==> Predicts((t.outcomes + [planned])[i], (ran.outcomes + [done])[i], per)
    ensures t.instances * per + per == (t.instances + 1) * per
  {
    CountExecutedSnoc(ran.outcomes, done);
    TimesNext(per, t.instances);
  }

  lemma StepMatches(env: Env, resume: bool, p: Progress, t: PlanTally, item: Item, per: nat)
    requires PlanMatches(t, p.tally, per) && Unrun(item)
    requires item.Execute? ==> |item.jobs| == per
    requires StepItem(env, resume, p, item).tally.raised.None?
    ensures PlanMatches(StepPlan(t, item), StepItem(env, resume, p, item).tally, per)
  {
    if item.Skip? {
      MatchesSnoc(t, p.tally, per, item.outcome, item.outcome);
    } else if item.Execute? {
      var b := RunJobs(env.runOne, Some(env.level), resume, p.disk, item.jobs);
      ResultsCount(env.runOne, Some(env.level), resume, Batch(p.disk, [], false), item.jobs);
      IdsOfLength(b.results);
      MatchesSnoc(t, p.tally, per, item.outcome, item.outcome.(executed := true, runIds := IdsOf(b.results)));
    }
  }

  lemma {:induction false} RunStaysRaised(env: Env, resume: bool, p: Progress, items: seq<Item>)
    requires RunItems(env, resume, p, items).tally.raised.None?
    ensures p.tally.raised.None?
  {
  }

  lemma {:induction false} ItemsMatch(env: Env, resume: bool, p: Progress, t: PlanTally, items: seq<Item>, per: nat)
    requires PlanMatches(t, p.tally, per)
    requires forall item :: item in items ==> Unrun(item) && (item.Execute? ==> |item.jobs| == per)
    requires RunItems(env, resume, p, items).tally.raised.None?
    ensures PlanMatches(PlanItems(t, items), RunItems(env, resume, p, items).tally, per)
    decreases |items|
  {
    if items != [] {
      assert items[0] in items;
      assert forall item :: item in items[1..] ==> item in items;
      RunStaysRaised(env, resume, StepItem(env, resume, p, items[0]), items[1..]);
      StepMatches(env, resume, p, t, items[0], per);
      ItemsMatch(env, resume, StepItem(env, resume, p, items[0]), StepPlan(t, items[0]), items[1..], per);
    }
  }

  /** What a selection amounts to whatever the campaign is called: its outcome, its fault and how many runs it has. */
  function Unnamed(item: Item): (Item, nat) {
    match item
    case Execute(outcome, fault, jobs) => (Execute(outcome, fault, []), |jobs|)
    case _ => (item, 0)
  }

  function UnnamedAll(items: seq<Item>): seq<(Item, nat)> {
    if items == [] then [] else [Unnamed(items[0])] + UnnamedAll(items[1..])
  }

  lemma {:induction false} UnnamedAppend(a: seq<Item>, b: seq<Item>)
    ensures UnnamedAll(a + b) == UnnamedAll(a) + UnnamedAll(b)
  {
    if a == [] {
      assert a + b == b;
    } else {
      assert (a + b)[1..] == a[1..] + b;
      UnnamedAppend(a[1..], b);
    }
  }

  lemma {:induction false} SameCombos(env: Env, design: Design, c1: string, c2: string, q: Question, scenario: string,
                                      task: Task, combos: seq<ContextCombination>)
    ensures UnnamedAll(ComboItems(env, design, c1, q, scenario, task, combos))
         == UnnamedAll(ComboItems(env, design, c2, q, scenario, task, combos))
  {
    if combos != [] {
      var x, y := ItemOf(env, design, c1, q, scenario, task, combos[0]),
          ItemOf(env, design, c2, q, scenario, task, combos[0]);
      if x.Execute? {
        var arm := SortedSet(Resolve(env.cat, combos[0], task.available).architectures.value);
        var id := InstanceId(env.digest, q.questionId, scenario, arm, design.agent);
        var config := RunConfigOf(env, design, task, arm, q.questionId, id);
        SeedJobsCount(Instance(c1, id, config, design.repetitions), SeedValues(design.seeds));
        SeedJobsCount(Instance(c2, id, config, design.repetitions), SeedValues(design.seeds));
      }
      SameCombos(env, design, c1, c2, q, scenario, task, combos[1..]);
      UnnamedAppend([x], ComboItems(env, design, c1, q, scenario, task, combos[1..]));
      UnnamedAppend([y], ComboItems(env, design, c2, q, scenario, task, combos[1..]));
      assert [x][1..] == [] && [y][1..] == [];
    }
  }

  lemma {:induction false} SameScenarios(env: Env, design: Design, c1: string, c2: string, q: Question,
                                         scenarios: seq<string>)
    ensures UnnamedAll(ScenarioItems(env, design, c1, q, scenarios))
         == UnnamedAll(ScenarioItems(env, design, c2, q, scenarios))
  {
    if scenarios != [] {
      var s := scenarios[0];
      if s in q.realizations && q.realizations[s] in env.tasks && SelectCombinations(env, design, q).Combos? {
        SameCombos(env, design, c1, c2, q, s, env.tasks[q.realizations[s]], SelectCombinations(env, design, q).combos);
      }
      SameScenarios(env, design, c1, c2, q, scenarios[1..]);
      UnnamedAppend(ItemsAt(env, design, c1, q, s), ScenarioItems(env, design, c1, q, scenarios[1..]));
      UnnamedAppend(ItemsAt(env, design, c2, q, s), ScenarioItems(env, design, c2, q, scenarios[1..]));
    }
  }

  /** The work lists of two campaigns with one design differ in run ids only. */
  lemma {:induction false} SameWork(env: Env, design: Design, c1: string, c2: string, questions: seq<Question>)
    ensures UnnamedAll(Worklist(env, design, c1, questions)) == UnnamedAll(Worklist(env, design, c2, questions))
  {
    if questions != [] {
      var q := questions[0];
      SameScenarios(env, design, c1, c2, q, ScenariosOf(design, q));
      SameWork(env, design, c1, c2, questions[1..]);
      UnnamedAppend(ScenarioItems(env, design, c1, q, ScenariosOf(design, q)),
                    Worklist(env, design, c1, questions[1..]));
      UnnamedAppend(ScenarioItems(env, design, c2, q, ScenariosOf(design, q)),
                    Worklist(env, design, c2, questions[1..]));
    }
  }

  lemma {:induction false} SamePlan(t: PlanTally, a: seq<Item>, b: seq<Item>)
    requires UnnamedAll(a) == UnnamedAll(b)
    ensures PlanItems(t, a) == PlanItems(t, b)
    decreases |a|
  {
    if a != [] && t.raised.None? {
      assert UnnamedAll(a)[0] == Unnamed(a[0]) && UnnamedAll(b)[0] == Unnamed(b[0]);
      assert UnnamedAll(a)[1..] == UnnamedAll(a[1..]) && UnnamedAll(b)[1..] == UnnamedAll(b[1..]);
      assert StepPlan(t, a[0]) == StepPlan(t, b[0]);
      SamePlan(StepPlan(t, a[0]), a[1..], b[1..]);
    }
  }

  /**
   Whenever `run` returns (fresh, forced or resumed), `plan` with the same configuration agrees
   with it outcome by outcome, and its two totals are the run's. Without a name each of the two
   makes up its own campaign id; with one they also agree on that.
   */
  lemma PlanPredictsRun(env: Env, d: Disk, config: Config, planId: string, runId: string)
    requires RunCampaign(env, d, config, runId).1.Done?
    ensures var plan, ran := PlanCampaign(env, config, planId), RunCampaign(env, d, config, runId).1;
            var per := config.design.repetitions * |SeedValues(config.design.seeds)|;
            && plan.Planned? && (config.name != "" ==> plan.campaign == ran.campaign)
            && |plan.outcomes| == |ran.outcomes| == ran.totalSelected
            && (forall i :: 0 <= i < |plan.outcomes| ==> Predicts(plan.outcomes[i], ran.outcomes[i], per))
            && plan.plannedInstances == ran.executedInstances
            && plan.plannedExecutions == ran.totalRuns == ran.successful + ran.failed
  {
    var questions, campaign := SelectQuestions(env, config.design), CampaignId(config, runId);
    var items := Worklist(env, config.design, campaign, questions);
    var per := config.design.repetitions * |SeedValues(config.design.seeds)|;
    WorklistIsGood(env, config.design, campaign, questions);
    forall item | item in items ensures Unrun(item) && (item.Execute? ==> |item.jobs| == per) {
      assert GoodItem(env, config.design, campaign, item);
      if item.Execute? {
        var inst :| OfInstance(env, config.design, campaign, item, inst);
        SeedJobsCount(inst, SeedValues(config.design.seeds));
      }
    }
    ItemsMatch(env, config.resume, Progress(d, NoTally()), PlanTally([], 0, None), items, per);
    SameWork(env, config.design, CampaignId(config, planId), campaign, questions);
    SamePlan(PlanTally([], 0, None), Worklist(env, config.design, CampaignId(config, planId), questions), items);
    var t := PlanItems(PlanTally([], 0, None), items);
    MulAssociates(t.instances, config.design.repetitions, |SeedValues(config.design.seeds)|);
  }

  lemma MulAssociates(a: nat, b: nat, c: nat)
    ensures a * b * c == a * (b * c)
  {
  }

  // ---------------------------------------------------------------------
  // One whole invocation overwrites nothing

  ghost predicate Kept(d0: Disk, d: Disk) {
    forall id :: id in d0.raw ==> SameAt(d0, d, id)
  }

  lemma {:induction false} ItemsKeep(env: Env, resume: bool, d0: Disk, p: Progress, items: seq<Item>)
    requires Faithful(env.runOne) && Kept(d0, p.disk) && WellKept(p.disk)
    requires resume || NoneOnDisk(d0, JobsOf(items))
    ensures Kept(d0, RunItems(env, resume, p, items).disk) && WellKept(RunItems(env, resume, p, items).disk)
    decreases |items|
  {
    if items != [] && p.tally.raised.None? {
      var next := StepItem(env, resume, p, items[0]);
      if items[0].Execute? && items[0].fault.None? {
        var start, jobs := Batch(p.disk, [], false), items[0].jobs;
        assert forall job :: job in jobs ==> job in jobs + JobsOf(items[1..]);
        assert forall job :: job in JobsOf(items[1..]) ==> job in jobs + JobsOf(items[1..]);
        RunFromKeepsStore(env.runOne, Some(env.level), resume, start, jobs);
        forall id | id in d0.raw ensures SameAt(d0, next.disk, id) {
          assert SameAt(d0, p.disk, id);
          assert !resume ==> !HasId(jobs, id);
          RunFromFrame(env.runOne, Some(env.level), resume, start, jobs, id);
        }
      }
      if next.tally.raised.None? {
        ItemsKeep(env, resume, d0, next, items[1..]);
      }
    }
  }

  /** Without `force`, an invocation, whatever it returns or raises, leaves every file that was there as it was. */
  lemma {:induction false} RunOverwritesNothing(env: Env, d: Disk, config: Config, autoId: string)
    requires Faithful(env.runOne) && WellKept(d) && !config.force
    ensures Preserves(d, RunCampaign(env, d, config, autoId).0) && WellKept(RunCampaign(env, d, config, autoId).0)
  {
    var campaign := CampaignId(config, autoId);
    CampaignJobsFacts(env, config.design, campaign, d);
    if config.resume || !CampaignExists(d, campaign) {
      ItemsKeep(env, config.resume, d, Progress(d, NoTally()),
                Worklist(env, config.design, campaign, SelectQuestions(env, config.design)));
    }
    assert forall id :: id in d.raw ==> SameAt(d, RunCampaign(env, d, config, autoId).0, id);
  }

  // ---------------------------------------------------------------------
  // Instance ids

  /** Every "--" lies before the text, none inside it or across its left edge. */
  ghost predicate DashSafe(x: string) {
    (x != "" ==> x[0] != '-') && forall k :: 0 <= k < |x| - 1 ==> !(x[k] == '-' && x[k + 1] == '-')
  }

  /** A text splits in one way at its last "--" when what follows is dash-safe. */
  lemma SplitAtDashes(a: string, x: string, b: string, y: string)
    requires a + "--" + x == b + "--" + y
    requires DashSafe(x) && DashSafe(y)
    ensures a == b && x == y
  {
    var s, t := a + "--" + x, b + "--" + y;
    NoLaterDashes(a, x);
    NoLaterDashes(b, y);
    assert s[|a|] == '-' && s[|a| + 1] == '-' && t[|b|] == '-' && t[|b| + 1] == '-';
    assert |a| == |b|;
    assert s[..|a|] == a && t[..|b|] == b && s[|a| + 2..] == x && t[|b| + 2..] == y;
  }

  lemma NoLaterDashes(a: string, x: string)
    requires DashSafe(x)
    ensures var s := a + "--" + x;
            forall k :: |a| < k < |s| - 1 ==> !(s[k] == '-' && s[k + 1] == '-')
  {
    var s := a + "--" + x;
    forall k | |a| < k < |s| - 1 ensures !(s[k] == '-' && s[k + 1] == '-') {
      if k == |a| + 1 {
        assert s[k + 1] == x[0];
      } else {
        assert s[k] == x[k - |a| - 2] && s[k + 1] == x[k - |a| - 1];
      }
    }
  }

  /** With a hash of fixed length, two instance ids of a campaign are the same exactly when their readable parts are. */
  lemma SameInstanceIdIffSameReadable(digest: string -> string, n: nat, agent: string, q: string, s: string,
                                      arm: seq<string>, q': string, s': string, arm': seq<string>)
    requires forall text :: |digest(text)| == n
    ensures InstanceId(digest, q, s, arm, agent) == InstanceId(digest, q', s', arm', agent)
       <==> Readable(q, s, arm, agent) == Readable(q', s', arm', agent)
  {
    var a, b := Readable(q, s, arm, agent), Readable(q', s', arm', agent);
    var x, y := InstanceId(digest, q, s, arm, agent), InstanceId(digest, q', s', arm', agent);
    assert x[..|x| - n - 2] == a && y[..|y| - n - 2] == b;
  }

  /**
   With dash-safe scenario ids, architecture labels, agent and hash, the id names exactly one question,
   scenario and arm.
   */
  lemma InstanceIdInjective(digest: string -> string, agent: string, q: string, s: string, arm: seq<string>,
                            q': string, s': string, arm': seq<string>)
    requires arm != [] && arm' != []
    requires DashSafe(agent) && DashSafe(s) && DashSafe(s') && DashSafe(Join('+', arm)) && DashSafe(Join('+', arm'))
    requires forall text :: DashSafe(digest(text))
    ensures InstanceId(digest, q, s, arm, agent) == InstanceId(digest, q', s', arm', agent)
       <==> q == q' && s == s' && Join('+', arm) == Join('+', arm')
  {
    var label1, label2 := Join('+', arm), Join('+', arm');
    var readable1, readable2 := Readable(q, s, arm, agent), Readable(q', s', arm', agent);
    if InstanceId(digest, q, s, arm, agent) == InstanceId(digest, q', s', arm', agent) {
      SplitAtDashes(readable1, digest(readable1), readable2, digest(readable2));
      SplitAtDashes(q + "--" + s + "--" + label1, agent, q' + "--" + s' + "--" + label2, agent);
      SplitAtDashes(q + "--" + s, label1, q' + "--" + s', label2);
      SplitAtDashes(q, s, q', s');
    }
  }

  /** The condition is needed: a double dash can move from the question id into the scenario id. */
  lemma InstanceIdsCanCollide(digest: string -> string, arm: seq<string>, agent: string)
    ensures InstanceId(digest, "q--a", "b", arm, agent) == InstanceId(digest, "q", "a--b", arm, agent)
  {
    assert "q--a" + "--" + "b" == "q" + "--" + "a--b";
  }

  // ---------------------------------------------------------------------
  // A campaign that cannot be resumed

  /** Two questions whose only instances share an id: "q" under scenario "a--b" and "q--a" under scenario "b". */
  ghost predicate Colliding(env: Env, design: Design, combo: ContextCombination, a: Question, b: Question, task: Task) {
    && env.bank == [a, b] && env.tasks == map["t" := task] && task.isaLevel == Some(env.level)
    && a.questionId == "q" && a.scenarios == ["a--b"] && a.realizations == map["a--b" := "t"]
    && b.questionId == "q--a" && b.scenarios == ["b"] && b.realizations == map["b" := "t"]
    && design.questionIds == [] && design.useCaseIds == [] && design.tags == [] && design.scenarioIds == []
    && design.combinationIds == [combo.combinationId] && CombinationForId(env.cat, combo.combinationId) == Some(combo)
    && combo.dimensions != [] && Runnable(env.cat, task.available, SetOf(combo.dimensions), design.allowOvershoot)
    && design.agent in env.agents && design.repetitions >= 1
  }

  lemma CollidingSelection(env: Env, design: Design, combo: ContextCombination, a: Question, b: Question, task: Task)
    requires Colliding(env, design, combo, a, b, task)
    ensures SelectQuestions(env, design) == [a, b]
  {
    FilterAll([a, b], q => Wanted(design, q));
    assert [a, b][1..] == [b] && [b][1..] == [];
    assert Sort(ById, [b]) == [b];
    assert ById(a, b) by { assert "q"[1..] == "" && "q--a"[0] == 'q'; }
  }

  lemma CollidingItem(env: Env, design: Design, campaign: string, combo: ContextCombination, q: Question,
                      scenario: string, task: Task)
    requires Valid(env.cat) && combo.dimensions != [] && task.isaLevel == Some(env.level) && design.agent in env.agents
    requires Runnable(env.cat, task.available, SetOf(combo.dimensions), design.allowOvershoot)
    ensures var item := ItemOf(env, design, campaign, q, scenario, task, combo);
            item.Execute? && item.fault.None?
  {
    ExecutesIffRunnable(env, design, campaign, q, scenario, task, combo);
    ResolvedArmIsOptimal(env.cat, combo, task.available, {});
    var r := Resolve(env.cat, combo, task.available);
    SortedSetFacts(r.architectures.value);
    assert combo.dimensions[0] in SetOf(combo.dimensions);
    ProvidedCombination(env.cat, SortedSet(r.architectures.value));
  }

  /** For every plant, some point at which that campaign is cut off does not resume to the uninterrupted result. */
  lemma CollidingCampaignFails(env: Env, design: Design, combo: ContextCombination, a: Question, b: Question,
                               task: Task, d: Disk, name: string, autoId: string)
    requires Colliding(env, design, combo, a, b, task) && Valid(env.cat)
    requires Faithful(env.runOne) && name != "" && !CampaignExists(d, name) && WellKept(d)
    ensures exists stop :: !ResumesAfter(env, d, design, name, autoId, [stop])
  {
    CollidingJobs(env, design, combo, a, b, task, name);
    CampaignResumableIff(env, d, design, name, autoId);
  }

  lemma {:induction false} CollidingJobs(env: Env, design: Design, combo: ContextCombination, a: Question, b: Question,
                                         task: Task, campaign: string)
    requires Colliding(env, design, combo, a, b, task) && Valid(env.cat)
    ensures !Consistent(CampaignJobs(env, design, campaign))
  {
    CollidingSelection(env, design, combo, a, b, task);
    CollidingItem(env, design, campaign, combo, a, "a--b", task);
    CollidingItem(env, design, campaign, combo, b, "b", task);
    OneItem(env, design, combo, a, "a--b", task, campaign);
    OneItem(env, design, combo, b, "b", task, campaign);
    assert [a, b][1..] == [b] && [b][1..] == [];
    var x, y := ItemOf(env, design, campaign, a, "a--b", task, combo),
        ItemOf(env, design, campaign, b, "b", task, combo);
    assert Worklist(env, design, campaign, [a, b]) == [x] + ([y] + Worklist(env, design, campaign, [])) == [x, y];
    TwoJobLists(x, y);
    var arm := SortedSet(Resolve(env.cat, combo, task.available).architectures.value);
    InstanceIdsCanCollide(env.digest, arm, design.agent);
    var idA, idB := InstanceId(env.digest, "q", "a--b", arm, design.agent),
        InstanceId(env.digest, "q--a", "b", arm, design.agent);
    FirstJobs(Instance(campaign, idA, RunConfigOf(env, design, task, arm, "q", idA), design.repetitions),
              Instance(campaign, idB, RunConfigOf(env, design, task, arm, "q--a", idB), design.repetitions),
              SeedValues(design.seeds));
  }

  lemma TwoJobLists(x: Item, y: Item)
    requires x.Execute? && x.fault.None? && y.Execute? && y.fault.None?
    ensures JobsOf([x, y]) == x.jobs + y.jobs
  {
    assert [x, y][1..] == [y] && [y][1..] == [];
    assert JobsOf([]) == [];
    assert JobsOf([y]) == y.jobs + [] == y.jobs;
    assert JobsOf([x, y]) == x.jobs + JobsOf([y]);
  }

  lemma OneItem(env: Env, design: Design, combo: ContextCombination, q: Question, scenario: string, task: Task,
                campaign: string)
    requires q.scenarios == [scenario] && q.realizations == map[scenario := "t"] && env.tasks == map["t" := task]
    requires design.scenarioIds == [] && design.combinationIds == [combo.combinationId]
    requires CombinationForId(env.cat, combo.combinationId) == Some(combo)
    ensures ScenarioItems(env, design, campaign, q, ScenariosOf(design, q))
         == [ItemOf(env, design, campaign, q, scenario, task, combo)]
  {
    assert LookupAll(env.cat, [combo.combinationId]) == Combos([combo]) by {
      assert [combo.combinationId][1..] == [] && LookupAll(env.cat, []) == Combos([]);
    }
    assert [combo][1..] == [] && [scenario][1..] == [];
    assert ComboItems(env, design, campaign, q, scenario, task, [combo])
        == [ItemOf(env, design, campaign, q, scenario, task, combo)];
    assert ScenarioItems(env, design, campaign, q, []) == [];
  }

  /**
   The first runs of two instances with one id and different questions share their run id and are not the
   same job.
   */
  lemma FirstJobs(a: Instance, b: Instance, seeds: seq<Option<int>>)
    requires a.campaign == b.campaign && a.instanceId == b.instanceId && a.config.questionId != b.config.questionId
    requires a.repetitions >= 1 && b.repetitions >= 1 && seeds != []
    ensures !Consistent(SeedJobs(a, seeds) + SeedJobs(b, seeds))
  {
    var jobs := SeedJobs(a, seeds) + SeedJobs(b, seeds);
    var x, y := JobAt(a, seeds[0], 1), JobAt(b, seeds[0], 1);
    assert SeedJobs(a, seeds)[0] == RepetitionJobs(a, seeds[0], 1)[0] == x;
    assert SeedJobs(b, seeds)[0] == RepetitionJobs(b, seeds[0], 1)[0] == y;
    assert jobs[0] == x && jobs[|SeedJobs(a, seeds)|] == y;
    assert x.runId == y.runId && x.config.questionId != y.config.questionId;
  }
}
