/** What the completeness check says about the store a whole campaign leaves behind. */
module CampaignCompleteness {
  import opened Basics
  import opened RunIds
  import opened ContextSpace
  import opened ResultStore
  import opened Execution
  import opened Instances
  import opened QuestionCampaign
  import opened CampaignLaws
  import C = Completeness

  /** Reads the experiment id and the trace reference off a record's body. */
  type Reader = string -> (string, bool)

  /** What the check reads of a stored record. */
  function RunOf(read: Reader, raw: RawRecord): C.Run {
    C.Run(raw.config.isaLevel, raw.config.questionId, raw.config.instanceId, Some(raw.config.repetition),
          read(raw.body).0, read(raw.body).1, raw.status)
  }

  /** The run ids of the store, each once, in some order. */
  ghost predicate Lists(ids: seq<string>, d: Disk) {
    Distinct(ids) && forall id :: id in ids <==> id in d.raw
  }

  function RunsOf(read: Reader, d: Disk, ids: seq<string>): seq<C.Run>
    requires forall id :: id in ids ==> id in d.raw
  {
    seq(|ids|, i requires 0 <= i < |ids| => RunOf(read, d.raw[ids[i]]))
  }

  // ---------------------------------------------------------------------
  // Several seeds

  lemma {:induction false} LastIndex(jobs: seq<Job>, id: string) returns (i: nat)
    requires HasId(jobs, id)
    ensures i < |jobs| && jobs[i].runId == id && forall k :: i < k < |jobs| ==> jobs[k].runId != id
  {
    i := |jobs| - 1;
    if jobs[i].runId != id {
      var job :| job in jobs && job.runId == id;
      assert jobs == jobs[..i] + [jobs[i]];
      assert job in jobs[..i];
      i := LastIndex(jobs[..i], id);
    }
  }

  lemma {:induction false} OutputsAt(runOne: Job -> RunOutput, jobs: seq<Job>)
    ensures |OutputsOf(runOne, jobs)| == |jobs|
    ensures forall i :: 0 <= i < |jobs| ==> OutputsOf(runOne, jobs)[i] == runOne(jobs[i])
  {
    if jobs != [] {
      OutputsAt(runOne, jobs[..|jobs| - 1]);
    }
  }

  /** Without skipping, the last job with an id writes its record. */
  lemma LastWrites(runOne: Job -> RunOutput, level: Option<string>, d: Disk, jobs: seq<Job>, i: nat)
    requires Faithful(runOne) && AllAccepted(level, jobs) && i < |jobs|
    requires forall k :: i < k < |jobs| ==> jobs[k].runId != jobs[i].runId
    ensures var end := RunJobs(runOne, level, false, d, jobs).disk;
            jobs[i].runId in end.raw && end.raw[jobs[i].runId] == runOne(jobs[i]).record.raw
  {
    RunsSaveOutputs(runOne, level, d, jobs);
    OutputsAt(runOne, jobs);
    LastOutputReadsBack(d, OutputsOf(runOne, jobs), i, jobs[i].runId);
  }

  /** One selection among the jobs of a work list; none of its run ids is written after it. */
  ghost predicate WrittenLast(env: Env, design: Design, campaign: string, item: Item, inst: Instance, after: seq<Job>) {
    && item.Execute? && OfInstance(env, design, campaign, item, inst)
    && forall a, b :: a in item.jobs && b in after ==> a.runId != b.runId
  }

  lemma FirstIsLast(env: Env, design: Design, campaign: string, items: seq<Item>, id: string) returns (inst: Instance)
    requires GoodItems(env, design, campaign, items) && id in InstancesOf(items) && id !in InstancesOf(items[1..])
    ensures WrittenLast(env, design, campaign, items[0], inst, JobsOf(items[1..])) && inst.instanceId == id
    ensures JobsOf(items) == items[0].jobs + JobsOf(items[1..]) && items[0] in Executed(items)
  {
    assert items[0] in items && GoodItem(env, design, campaign, items[0]);
    inst :| OfInstance(env, design, campaign, items[0], inst);
    forall a, b | a in items[0].jobs && b in JobsOf(items[1..]) ensures a.runId != b.runId {
      assert forall item :: item in items[1..] ==> item in items;
      OtherInstance(env, design, campaign, items[1..], inst, a, b);
    }
  }

  lemma Regrouped<T>(a: seq<T>, b: seq<T>, c: seq<T>, d: seq<T>)
    ensures a + (b + c + d) == (a + b) + c + d
  {
  }

  /** What is later in the list is part of it. */
  lemma LaterSelections(items: seq<Item>)
    requires InstancesOf(items) != []
    ensures items != [] && JobsOf(items) == (if items[0].Execute? then items[0].jobs else []) + JobsOf(items[1..])
    ensures forall item :: item in Executed(items[1..]) ==> item in Executed(items)
    ensures forall item :: item in items[1..] ==> item in items
  {
  }

  /** The last selection that names an instance has the last word on its run ids. */
  lemma {:induction false} LastSelection(env: Env, design: Design, campaign: string, items: seq<Item>, id: string)
    returns (item: Item, inst: Instance, before: seq<Job>, after: seq<Job>)
    requires GoodItems(env, design, campaign, items) && id in InstancesOf(items)
    ensures WrittenLast(env, design, campaign, item, inst, after) && inst.instanceId == id && item in Executed(items)
    ensures JobsOf(items) == before + item.jobs + after
  {
    LaterSelections(items);
    if id in InstancesOf(items[1..]) {
      item, inst, before, after := LastSelection(env, design, campaign, items[1..], id);
      var first := if items[0].Execute? then items[0].jobs else [];
      Regrouped(first, before, item.jobs, after);
      before := first + before;
    } else {
      inst := FirstIsLast(env, design, campaign, items, id);
      item, before, after := items[0], [], JobsOf(items[1..]);
    }
  }

  lemma {:induction false} JobIsListed(inst: Instance, seeds: seq<Option<int>>, seed: Option<int>, repetition: nat)
    requires seed in seeds && 1 <= repetition <= inst.repetitions
    ensures JobAt(inst, seed, repetition) in SeedJobs(inst, seeds)
  {
    if seeds[0] == seed {
      RepetitionJobsFacts(inst, seed, 1);
      assert RepetitionJobs(inst, seed, 1)[repetition - 1] == JobAt(inst, seed, repetition);
    } else {
      assert seeds == [seeds[0]] + seeds[1..];
      JobIsListed(inst, seeds[1..], seed, repetition);
    }
  }

  /** Jobs of one instance that share a run id are the same job. */
  lemma SameIdSameJob(inst: Instance, seeds: seq<Option<int>>, x: Job, y: Job)
    requires x in SeedJobs(inst, seeds) && y in SeedJobs(inst, seeds) && x.runId == y.runId
    ensures x == y
  {
    var s, r := SeedJobsMembers(inst, seeds, x);
    var t, q := SeedJobsMembers(inst, seeds, y);
    RunIdInjective(inst.campaign, inst.instanceId, s, r, inst.instanceId, t, q);
  }

  lemma LastOfBlock(before: seq<Job>, block: seq<Job>, after: seq<Job>, x: Job) returns (i: nat)
    requires x in block
    requires forall y :: y in block && y.runId == x.runId ==> y == x
    requires forall a, b :: a in block && b in after ==> a.runId != b.runId
    ensures var jobs := before + block + after;
            i < |jobs| && jobs[i] == x && forall k :: i < k < |jobs| ==> jobs[k].runId != x.runId
  {
    var j := LastIndex(block, x.runId);
    i := |before| + j;
    var jobs := before + block + after;
    assert jobs[i] == block[j] && block[j] in block;
    forall k | i < k < |jobs| ensures jobs[k].runId != x.runId {
      if k < |before| + |block| {
        assert jobs[k] == block[k - |before|];
      } else {
        assert jobs[k] in after;
      }
    }
  }

  /** The run ids of an instance end up with the configuration of the last selection that names it. */
  lemma FinalRecord(env: Env, d: Disk, design: Design, name: string, item: Item, inst: Instance,
                    before: seq<Job>, after: seq<Job>, x: Job)
    requires Faithful(env.runOne) && WrittenLast(env, design, name, item, inst, after) && x in item.jobs
    requires CampaignJobs(env, design, name) == before + item.jobs + after
    ensures var end := RunJobs(env.runOne, Some(env.level), false, d, CampaignJobs(env, design, name)).disk;
            x.runId in end.raw && end.raw[x.runId].config == x.config
  {
    forall y | y in item.jobs && y.runId == x.runId ensures y == x {
      SameIdSameJob(inst, SeedValues(design.seeds), x, y);
    }
    var i := LastOfBlock(before, item.jobs, after, x);
    CampaignJobsFacts(env, design, name, d);
    LastWrites(env.runOne, Some(env.level), d, CampaignJobs(env, design, name), i);
  }

  /** Every executed selection is for a question of the bank. */
  ghost predicate FromBank(env: Env, items: seq<Item>) {
    forall item :: item in items && item.Execute?
      ==> exists q :: q in env.bank && q.questionId == item.outcome.questionId
  }

  lemma {:induction false} CombosFromBank(env: Env, design: Design, campaign: string, q: Question, scenario: string,
                                          task: Task, combos: seq<ContextCombination>)
    requires q in env.bank
    ensures FromBank(env, ComboItems(env, design, campaign, q, scenario, task, combos))
  {
    if combos != [] {
      CombosFromBank(env, design, campaign, q, scenario, task, combos[1..]);
      var item := ItemOf(env, design, campaign, q, scenario, task, combos[0]);
      assert item.Execute? ==> item.outcome.questionId == q.questionId;
    }
  }

  lemma {:induction false} ScenariosFromBank(env: Env, design: Design, campaign: string, q: Question,
                                             scenarios: seq<string>)
    requires q in env.bank
    ensures FromBank(env, ScenarioItems(env, design, campaign, q, scenarios))
  {
    if scenarios != [] {
      ScenariosFromBank(env, design, campaign, q, scenarios[1..]);
      var selection := SelectCombinations(env, design, q);
      if scenarios[0] in q.realizations && q.realizations[scenarios[0]] in env.tasks && selection.Combos? {
        CombosFromBank(env, design, campaign, q, scenarios[0], env.tasks[q.realizations[scenarios[0]]],
                       selection.combos);
      }
    }
  }

  lemma {:induction false} WorklistFromBank(env: Env, design: Design, campaign: string, questions: seq<Question>)
    requires forall q :: q in questions ==> q in env.bank
    ensures FromBank(env, Worklist(env, design, campaign, questions))
  {
    if questions != [] {
      ScenariosFromBank(env, design, campaign, questions[0], ScenariosOf(design, questions[0]));
      WorklistFromBank(env, design, campaign, questions[1..]);
    }
  }

  /** The question of an executed selection. */
  lemma ExecutedFromBank(env: Env, design: Design, campaign: string, item: Item)
    requires item in Executed(Worklist(env, design, campaign, SelectQuestions(env, design)))
    ensures item.Execute? && exists q :: q in env.bank && q.questionId == item.outcome.questionId
  {
    var questions := SelectQuestions(env, design);
    forall q | q in questions ensures q in env.bank {
      SelectionFacts(env, design, q);
    }
    WorklistFromBank(env, design, campaign, questions);
    ExecutedMembers(Worklist(env, design, campaign, questions));
  }

  /** Two stored records with one question, instance and repetition keep the level incomplete. */
  lemma SharedKeyNeverCompletes(read: Reader, d: Disk, ids: seq<string>, level: string, bank: seq<string>, a: string,
                                b: string)
    requires Lists(ids, d) && a in d.raw && b in d.raw && a != b
    requires d.raw[a].config == d.raw[b].config && d.raw[a].config.questionId.Some?
             && d.raw[a].config.questionId.value != ""
    ensures !C.LevelReportOf(level, bank, RunsOf(read, d, ids)).IsComplete()
  {
    var runs := RunsOf(read, d, ids);
    var i :| 0 <= i < |ids| && ids[i] == a;
    var j :| 0 <= j < |ids| && ids[j] == b;
    C.RerunNeverCompletes(level, bank, runs, if i < j then i else j, if i < j then j else i);
    assert runs + [] == runs;
  }

  /**
   A campaign over two different seeds can never complete a level: the two runs of an instance's first
   repetition share their key, in whatever larger store they are kept and whatever else is run.
   */
  lemma TwoSeedsNeverComplete(env: Env, d: Disk, design: Design, name: string, autoId: string, s: Option<int>,
                              t: Option<int>, later: Disk, read: Reader, ids: seq<string>, bank: seq<string>)
    requires Faithful(env.runOne) && name != "" && !CampaignExists(d, name)
    requires forall q :: q in env.bank ==> q.questionId != ""
    requires s in SeedValues(design.seeds) && t in SeedValues(design.seeds) && s != t && design.repetitions >= 1
    requires InstancesOf(Worklist(env, design, name, SelectQuestions(env, design))) != []
    requires Preserves(RunCampaign(env, d, Config(design, name, false, false), autoId).0, later) && Lists(ids, later)
    ensures !C.LevelReportOf(env.level, bank, RunsOf(read, later, ids)).IsComplete()
  {
    var items := Worklist(env, design, name, SelectQuestions(env, design));
    WorklistIsGood(env, design, name, SelectQuestions(env, design));
    var item, inst, before, after := LastSelection(env, design, name, items, InstancesOf(items)[0]);
    ExecutedFromBank(env, design, name, item);
    JobIsListed(inst, SeedValues(design.seeds), s, 1);
    JobIsListed(inst, SeedValues(design.seeds), t, 1);
    var x, y := JobAt(inst, s, 1), JobAt(inst, t, 1);
    FinalRecord(env, d, design, name, item, inst, before, after, x);
    FinalRecord(env, d, design, name, item, inst, before, after, y);
    CampaignDisk(env, d, design, name, autoId, false);
    assert x.runId != y.runId by { RunIdInjective(name, inst.instanceId, s, 1, inst.instanceId, t, 1); }
    assert x.config == y.config && x.config.questionId == Some(item.outcome.questionId);
    SharedKeyNeverCompletes(read, later, ids, env.level, bank, x.runId, y.runId);
  }

  // ---------------------------------------------------------------------
  // One seed

  function KeysUpTo(id: string, n: nat): seq<C.Key> {
    if n == 0 then [] else KeysUpTo(id, n - 1) + [(Some(id), Some(n as int))]
  }

  lemma {:induction false} KeysUpToFacts(id: string, n: nat)
    ensures |KeysUpTo(id, n)| == n && Distinct(KeysUpTo(id, n))
    ensures forall k :: k in KeysUpTo(id, n) <==> k.0 == Some(id) && k.1.Some? && 1 <= k.1.value <= n
  {
    if n > 0 {
      KeysUpToFacts(id, n - 1);
    }
  }

  /** The runs of a question are one instance's repetitions 1 to 10, each once. */
  ghost predicate TenOf(runs: seq<C.Run>, q: string, id: string) {
    && C.NoTwoAsking(runs, q)
    && (forall r :: r in runs && C.Asks(r, q)
          ==> r.instanceId == Some(id) && r.repetition.Some? && 1 <= r.repetition.value <= C.REPETITIONS_PER_QUESTION)
    && (forall k :: 1 <= k <= C.REPETITIONS_PER_QUESTION ==> C.HasKey(runs, q, (Some(id), Some(k))))
  }

  lemma {:induction false} AllCompleted(runs: seq<C.Run>)
    ensures |C.Completed(runs)| == |runs| <==> forall r :: r in runs ==> r.status.Completed?
    ensures |C.Completed(runs)| == |runs| ==> C.Completed(runs) == runs
    ensures |C.Completed(runs)| <= |runs|
  {
    if runs != [] {
      AllCompleted(runs[..|runs| - 1]);
      assert runs == runs[..|runs| - 1] + [runs[|runs| - 1]];
    }
  }

  lemma TenInGroup(runs: seq<C.Run>, q: string, id: string)
    requires TenOf(runs, q, id)
    ensures |C.Group(runs, q)| == C.REPETITIONS_PER_QUESTION && Distinct(C.Keys(C.Group(runs, q)))
  {
    var keys, expected := C.Keys(C.Group(runs, q)), KeysUpTo(id, C.REPETITIONS_PER_QUESTION);
    C.GroupRepeats(runs, q);
    C.KeysOf(C.Group(runs, q));
    KeysUpToFacts(id, C.REPETITIONS_PER_QUESTION);
    forall k ensures k in keys <==> k in expected {
      C.KeyInGroup(runs, q, k);
    }
    SetOfSize(keys);
    SetOfSize(expected);
    assert SetOf(keys) == SetOf(expected);
  }

  /** Distinct keys of one instance have distinct repetitions. */
  lemma {:induction false} DistinctRepetitions(group: seq<C.Run>, id: string)
    requires Distinct(C.Keys(group)) && forall r :: r in group ==> r.instanceId == Some(id)
    ensures forall i, j :: 0 <= i < j < |group| ==> group[i].repetition != group[j].repetition
  {
    C.KeysOf(group);
    forall i, j | 0 <= i < j < |group| ensures group[i].repetition != group[j].repetition {
      assert C.Keys(group)[i] != C.Keys(group)[j] && group[i] in group && group[j] in group;
    }
  }

  /** Ten such runs fill their question exactly when all of them completed. */
  lemma FullIffCompleted(runs: seq<C.Run>, q: string, id: string)
    requires TenOf(runs, q, id)
    ensures C.FullQuestion(runs, q) <==> forall r :: r in runs && C.Asks(r, q) ==> r.status.Completed?
  {
    var group := C.Group(runs, q);
    TenInGroup(runs, q, id);
    C.GroupMembers(runs, q);
    AllCompleted(group);
    DistinctRepetitions(group, id);
    assert forall i :: 0 <= i < |group| ==> group[i] in group;
  }

  predicate SameQuestion(x: Item, y: Item) {
    x.Execute? && y.Execute? && x.outcome.questionId == y.outcome.questionId
  }

  /** The bank's questions are exactly those executed, each through one instance. */
  ghost predicate OneInstanceEach(executed: seq<Item>, bank: seq<string>) {
    && (forall q :: q in bank ==> exists x :: x in executed && x.Execute? && x.outcome.questionId == q)
    && (forall x :: x in executed && x.Execute? ==> x.outcome.questionId in bank)
    && (forall x, y :: x in executed && y in executed && SameQuestion(x, y)
          ==> x.outcome.instanceId == y.outcome.instanceId)
  }

  /** The store holds the runs of the jobs and nothing else. */
  ghost predicate HoldsRuns(runOne: Job -> RunOutput, d: Disk, jobs: seq<Job>) {
    && (forall id :: id in d.raw ==> HasId(jobs, id))
    && (forall job :: job in jobs ==> job.runId in d.raw && d.raw[job.runId] == runOne(job).record.raw)
  }

  lemma FreshStoreHoldsRuns(env: Env, d: Disk, design: Design, name: string, autoId: string)
    requires Faithful(env.runOne) && name != "" && d.raw == map[] && WellKept(d)
             && Consistent(CampaignJobs(env, design, name))
    ensures HoldsRuns(env.runOne, RunCampaign(env, d, Config(design, name, false, false), autoId).0,
                      CampaignJobs(env, design, name))
  {
    var jobs, end := CampaignJobs(env, design, name), RunCampaign(env, d, Config(design, name, false, false), autoId).0;
    CampaignReadsBackIff(env, d, design, name, autoId);
    if SelectQuestions(env, design) != [] {
      CampaignDisk(env, d, design, name, autoId, false);
      forall id | id in end.raw ensures HasId(jobs, id) {
        if !HasId(jobs, id) {
          RunFromFrame(env.runOne, Some(env.level), false, Batch(d, [], false), jobs, id);
        }
      }
    }
    forall job | job in jobs ensures job.runId in end.raw && end.raw[job.runId] == env.runOne(job).record.raw {
      assert Loaded(end, job.runId) == Some(env.runOne(job).record);
    }
  }

  /** What a job's run is to the check: the question, instance and repetition of the selection it belongs to. */
  lemma JobParts(env: Env, design: Design, campaign: string, job: Job)
    returns (item: Item, inst: Instance, seed: Option<int>, repetition: nat)
    requires job in CampaignJobs(env, design, campaign)
    ensures item in Executed(Worklist(env, design, campaign, SelectQuestions(env, design))) && item.Execute?
    ensures OfInstance(env, design, campaign, item, inst)
            && JobOf(inst, SeedValues(design.seeds), job, seed, repetition)
  {
    var items := Worklist(env, design, campaign, SelectQuestions(env, design));
    WorklistIsGood(env, design, campaign, SelectQuestions(env, design));
    JobsComeFromExecuted(items, job);
    ExecutedMembers(items);
    item :| item in Executed(items) && item.Execute? && job in item.jobs;
    assert GoodItem(env, design, campaign, item);
    inst :| OfInstance(env, design, campaign, item, inst);
    seed, repetition := SeedJobsMembers(inst, SeedValues(design.seeds), job);
  }

  /** One seed, ten repetitions, one instance for each question of the bank, and a store with nothing else in it. */
  ghost predicate Intended(env: Env, d: Disk, design: Design, name: string, seed: Option<int>, bank: seq<string>) {
    && d.raw == map[] && WellKept(d)
    && (forall s :: s in SeedValues(design.seeds) ==> s == seed)
    && design.repetitions == C.REPETITIONS_PER_QUESTION
    && Consistent(CampaignJobs(env, design, name))
    && OneInstanceEach(Executed(Worklist(env, design, name, SelectQuestions(env, design))), bank)
  }

  /** A stored run that asks `q` is a repetition of the question's one instance. */
  lemma {:induction false} AskingRun(env: Env, d: Disk, design: Design, name: string, seed: Option<int>,
                                     bank: seq<string>, end: Disk, read: Reader, ids: seq<string>, x: Item, i: nat)
    returns (repetition: nat)
    requires Faithful(env.runOne) && Intended(env, d, design, name, seed, bank)
    requires HoldsRuns(env.runOne, end, CampaignJobs(env, design, name)) && Lists(ids, end) && i < |ids|
    requires x in Executed(Worklist(env, design, name, SelectQuestions(env, design))) && x.Execute?
             && x.outcome.instanceId.Some?
    requires C.Asks(RunsOf(read, end, ids)[i], x.outcome.questionId)
    ensures 1 <= repetition <= C.REPETITIONS_PER_QUESTION
    ensures C.KeyOf(RunsOf(read, end, ids)[i]) == (x.outcome.instanceId, Some(repetition as int))
    ensures ids[i] == RunId(name, x.outcome.instanceId.value, seed, repetition)
  {
    assert ids[i] in ids;
    var job :| job in CampaignJobs(env, design, name) && job.runId == ids[i];
    var item, inst, s;
    item, inst, s, repetition := JobParts(env, design, name, job);
    assert job.config == env.runOne(job).record.raw.config;
    assert item.outcome.instanceId == x.outcome.instanceId by { assert SameQuestion(item, x); }
  }

  lemma StoredRun(env: Env, design: Design, name: string, end: Disk, read: Reader, ids: seq<string>, job: Job)
    returns (i: nat)
    requires Faithful(env.runOne) && HoldsRuns(env.runOne, end, CampaignJobs(env, design, name)) && Lists(ids, end)
    requires job in CampaignJobs(env, design, name)
    ensures i < |ids| && RunsOf(read, end, ids)[i] == RunOf(read, env.runOne(job).record.raw)
    ensures RunsOf(read, end, ids)[i] in RunsOf(read, end, ids)
  {
    i :| 0 <= i < |ids| && ids[i] == job.runId;
  }

  lemma RepetitionIsStored(env: Env, d: Disk, design: Design, name: string, seed: Option<int>, bank: seq<string>,
                           end: Disk, read: Reader, ids: seq<string>, x: Item, inst: Instance, k: nat)
    requires Faithful(env.runOne) && Intended(env, d, design, name, seed, bank)
    requires HoldsRuns(env.runOne, end, CampaignJobs(env, design, name)) && Lists(ids, end)
    requires x in Executed(Worklist(env, design, name, SelectQuestions(env, design))) && x.Execute?
    requires OfInstance(env, design, name, x, inst) && x.outcome.questionId != ""
    requires 1 <= k <= C.REPETITIONS_PER_QUESTION
    ensures C.HasKey(RunsOf(read, end, ids), x.outcome.questionId, (x.outcome.instanceId, Some(k as int)))
  {
    var job := JobAt(inst, SeedValues(design.seeds)[0], k);
    JobIsListed(inst, SeedValues(design.seeds), SeedValues(design.seeds)[0], k);
    JobsComeFromExecuted(Worklist(env, design, name, SelectQuestions(env, design)), job);
    var i := StoredRun(env, design, name, end, read, ids, job);
    assert env.runOne(job).record.raw.config == job.config;
  }

  /** Its stored runs differ in their keys, each of which is one of its ten repetitions. */
  lemma AskingRuns(env: Env, d: Disk, design: Design, name: string, seed: Option<int>, bank: seq<string>, end: Disk,
                   read: Reader, ids: seq<string>, x: Item)
    requires Faithful(env.runOne) && Intended(env, d, design, name, seed, bank)
    requires HoldsRuns(env.runOne, end, CampaignJobs(env, design, name)) && Lists(ids, end)
    requires x in Executed(Worklist(env, design, name, SelectQuestions(env, design))) && x.Execute?
             && x.outcome.instanceId.Some?
    ensures C.NoTwoAsking(RunsOf(read, end, ids), x.outcome.questionId)
    ensures forall r :: r in RunsOf(read, end, ids) && C.Asks(r, x.outcome.questionId)
              ==> r.instanceId == x.outcome.instanceId && r.repetition.Some?
                  && 1 <= r.repetition.value <= C.REPETITIONS_PER_QUESTION
  {
    var runs, q := RunsOf(read, end, ids), x.outcome.questionId;
    forall i, j | 0 <= i < j < |runs| && C.Asks(runs[i], q) && C.Asks(runs[j], q)
      ensures C.KeyOf(runs[i]) != C.KeyOf(runs[j])
    {
      var k := AskingRun(env, d, design, name, seed, bank, end, read, ids, x, i);
      var m := AskingRun(env, d, design, name, seed, bank, end, read, ids, x, j);
      assert ids[i] != ids[j];
    }
    forall i | 0 <= i < |runs| && C.Asks(runs[i], q)
      ensures runs[i].instanceId == x.outcome.instanceId && runs[i].repetition.Some?
      ensures 1 <= runs[i].repetition.value <= C.REPETITIONS_PER_QUESTION
    {
      var k := AskingRun(env, d, design, name, seed, bank, end, read, ids, x, i);
    }
  }

  /** So the stored runs of each question are its ten repetitions. */
  lemma QuestionIsTen(env: Env, d: Disk, design: Design, name: string, seed: Option<int>, bank: seq<string>, end: Disk,
                      read: Reader, ids: seq<string>, q: string)
    returns (id: string)
    requires Faithful(env.runOne) && Intended(env, d, design, name, seed, bank) && q in bank && q != ""
    requires HoldsRuns(env.runOne, end, CampaignJobs(env, design, name)) && Lists(ids, end)
    ensures TenOf(RunsOf(read, end, ids), q, id)
  {
    var items := Worklist(env, design, name, SelectQuestions(env, design));
    var x :| x in Executed(items) && x.Execute? && x.outcome.questionId == q;
    WorklistIsGood(env, design, name, SelectQuestions(env, design));
    ExecutedMembers(items);
    assert GoodItem(env, design, name, x);
    var inst :| OfInstance(env, design, name, x, inst);
    id := inst.instanceId;
    AskingRuns(env, d, design, name, seed, bank, end, read, ids, x);
    forall k | 1 <= k <= C.REPETITIONS_PER_QUESTION ensures C.HasKey(RunsOf(read, end, ids), q, (Some(id), Some(k))) {
      RepetitionIsStored(env, d, design, name, seed, bank, end, read, ids, x, inst, k);
    }
  }

  /** Every stored run is at the level and asks a question of the bank. */
  lemma StoredRunsInBank(env: Env, d: Disk, design: Design, name: string, seed: Option<int>, bank: seq<string>,
                         end: Disk, read: Reader, ids: seq<string>)
    requires Faithful(env.runOne) && Intended(env, d, design, name, seed, bank) && "" !in bank
    requires HoldsRuns(env.runOne, end, CampaignJobs(env, design, name)) && Lists(ids, end)
    ensures forall r :: r in RunsOf(read, end, ids) ==> C.AtLevel(r, env.level) && C.InBank(r, bank)
  {
    var runs := RunsOf(read, end, ids);
    forall i | 0 <= i < |runs| ensures C.AtLevel(runs[i], env.level) && C.InBank(runs[i], bank) {
      assert ids[i] in ids;
      var job :| job in CampaignJobs(env, design, name) && job.runId == ids[i];
      var item, inst, s, r := JobParts(env, design, name, job);
      CampaignJobsFacts(env, design, name, d);
      assert job.config == env.runOne(job).record.raw.config;
    }
  }

  /** The level's shape for a bank whose questions have ten runs each. */
  lemma TensMakeTheShape(level: string, bank: seq<string>, runs: seq<C.Run>)
    requires |bank| == C.QUESTIONS_PER_LEVEL && Distinct(bank)
    requires forall r :: r in runs ==> C.AtLevel(r, level) && C.InBank(r, bank)
    requires forall q :: q in bank ==> exists id :: TenOf(runs, q, id)
    ensures C.ExactShape(level, bank, runs) <==> forall r :: r in runs ==> r.status.Completed? && C.Referenced(r)
  {
    forall q | q in bank
      ensures C.NoTwoAsking(runs, q)
              && (C.FullQuestion(runs, q) <==> forall r :: r in runs && C.Asks(r, q) ==> r.status.Completed?)
    {
      var id :| TenOf(runs, q, id);
      FullIffCompleted(runs, q, id);
    }
    forall i, j | 0 <= i < j < |runs| && C.Asking(runs[i]) && runs[i].questionId == runs[j].questionId
      ensures C.KeyOf(runs[i]) != C.KeyOf(runs[j])
    {
      assert runs[i] in runs && C.InBank(runs[i], bank);
      assert C.NoTwoAsking(runs, runs[i].questionId.value);
    }
    if forall q :: q in bank ==> C.FullQuestion(runs, q) {
      forall r | r in runs ensures r.status.Completed? {
        assert C.InBank(r, bank) && C.Asks(r, r.questionId.value);
      }
    }
  }

  /** Such a campaign completes its level exactly when every one of its runs completed and carries its references. */
  lemma IntendedCampaignCompletesIff(env: Env, d: Disk, design: Design, name: string, autoId: string, seed: Option<int>,
                                     read: Reader, ids: seq<string>, bank: seq<string>)
    requires Faithful(env.runOne) && name != "" && Intended(env, d, design, name, seed, bank)
    requires |bank| == C.QUESTIONS_PER_LEVEL && Distinct(bank) && "" !in bank
    requires Lists(ids, RunCampaign(env, d, Config(design, name, false, false), autoId).0)
    ensures C.LevelReportOf(env.level, bank,
                            RunsOf(read, RunCampaign(env, d, Config(design, name, false, false), autoId).0,
                                   ids)).IsComplete()
       <==> forall job :: job in CampaignJobs(env, design, name) ==>
              var run := RunOf(read, env.runOne(job).record.raw);
              run.status.Completed? && C.Referenced(run)
  {
    var end, jobs := RunCampaign(env, d, Config(design, name, false, false), autoId).0, CampaignJobs(env, design, name);
    var runs := RunsOf(read, end, ids);
    FreshStoreHoldsRuns(env, d, design, name, autoId);
    StoredRunsInBank(env, d, design, name, seed, bank, end, read, ids);
    forall q | q in bank ensures exists id :: TenOf(runs, q, id) {
      var id := QuestionIsTen(env, d, design, name, seed, bank, end, read, ids, q);
    }
    C.CompleteIffExactShape(env.level, bank, runs);
    TensMakeTheShape(env.level, bank, runs);
    RunsAreTheJobs(env, design, name, end, read, ids);
  }

  lemma RunsAreTheJobs(env: Env, design: Design, name: string, end: Disk, read: Reader, ids: seq<string>)
    requires Faithful(env.runOne) && HoldsRuns(env.runOne, end, CampaignJobs(env, design, name)) && Lists(ids, end)
    ensures forall r :: r in RunsOf(read, end, ids)
              <==> exists job :: job in CampaignJobs(env, design, name) && r == RunOf(read, env.runOne(job).record.raw)
  {
    var runs := RunsOf(read, end, ids);
    forall i | 0 <= i < |runs|
      ensures exists job :: job in CampaignJobs(env, design, name) && runs[i] == RunOf(read, env.runOne(job).record.raw)
    {
      assert ids[i] in ids;
      var job :| job in CampaignJobs(env, design, name) && job.runId == ids[i];
    }
    forall job | job in CampaignJobs(env, design, name) ensures RunOf(read, env.runOne(job).record.raw) in runs {
      var i := StoredRun(env, design, name, end, read, ids, job);
    }
  }
}
