/**
 One instance of a campaign: its jobs over seeds and repetitions, and the two
 nested loops that carry them out on the store.
 */
module Instances {
  import opened Basics
  import opened RunIds
  import opened ResultStore
  import opened Execution

  /** What the runners read of a benchmark task. */
  datatype Task = Task(taskId: string, isaLevel: Option<string>, available: seq<string>)

  datatype Instance = Instance(campaign: string, instanceId: string, config: RunConfig, repetitions: nat)

  function JobAt(inst: Instance, seed: Option<int>, repetition: nat): Job {
    Job(RunId(inst.campaign, inst.instanceId, seed, repetition), inst.campaign,
        inst.config.(repetition := repetition), seed)
  }

  /** Repetitions from `repetition` up. */
  function RepetitionJobs(inst: Instance, seed: Option<int>, repetition: nat): seq<Job>
    decreases inst.repetitions + 1 - repetition
  {
    if repetition > inst.repetitions then []
    else [JobAt(inst, seed, repetition)] + RepetitionJobs(inst, seed, repetition + 1)
  }

  function SeedJobs(inst: Instance, seeds: seq<Option<int>>): seq<Job> {
    if seeds == [] then [] else RepetitionJobs(inst, seeds[0], 1) + SeedJobs(inst, seeds[1..])
  }

  function SomeSeeds(seeds: seq<int>): seq<Option<int>> {
    if seeds == [] then [] else [Some(seeds[0])] + SomeSeeds(seeds[1..])
  }

  /** With no seeds given, one run per repetition under the scenario's own seed. */
  function SeedValues(seeds: seq<int>): seq<Option<int>> {
    if seeds != [] then SomeSeeds(seeds) else [None]
  }

  function IdsOf(results: seq<(string, RunStatus)>): seq<string> {
    if results == [] then [] else [results[0].0] + IdsOf(results[1..])
  }

  function CountCompleted(results: seq<(string, RunStatus)>): (n: nat)
    ensures n <= |results|
  {
    if results == [] then 0 else (if results[0].1 == Completed then 1 else 0) + CountCompleted(results[1..])
  }

  // ---------------------------------------------------------------------
  // The loops

  /** One pass of the loop body: a run already on disk is skipped when resuming. */
  method ExecuteJob(store: ExperimentResultStore, runOne: Job -> RunOutput, level: Option<string>, resume: bool,
                    job: Job, results0: seq<(string, RunStatus)>)
    returns (results: seq<(string, RunStatus)>, raised: bool)
    modifies store
    ensures Batch(store.OnDisk(), results, raised)
         == Step(runOne, level, resume, Batch(old(store.OnDisk()), results0, false), job)
  {
    var existing := store.LoadRecord(job.runId);
    if resume && existing.Some? {
      return results0 + [(job.runId, existing.value.raw.status)], false;
    }
    var out := runOne(job);
    if !LevelAccepted(level, out.record.raw.config) {
      return results0, true;
    }
    store.Save(out.record, out.trace);
    return results0 + [(job.runId, out.record.raw.status)], false;
  }

  /** The inner loop over repetitions. */
  method RunRepetitions(store: ExperimentResultStore, runOne: Job -> RunOutput, level: Option<string>, resume: bool,
                        inst: Instance, seed: Option<int>, results0: seq<(string, RunStatus)>)
    returns (results: seq<(string, RunStatus)>, raised: bool)
    modifies store
    ensures Batch(store.OnDisk(), results, raised)
         == RunFrom(runOne, level, resume, Batch(old(store.OnDisk()), results0, false), RepetitionJobs(inst, seed, 1))
  {
    results, raised := results0, false;
    ghost var goal := RunFrom(runOne, level, resume, Batch(store.OnDisk(), results, false),
                              RepetitionJobs(inst, seed, 1));
    var repetition := 1;
    while repetition <= inst.repetitions
      invariant 1 <= repetition <= inst.repetitions + 1 && !raised
      invariant goal == RunFrom(runOne, level, resume, Batch(store.OnDisk(), results, false),
                                RepetitionJobs(inst, seed, repetition))
    {
      NextJob(runOne, level, resume, Batch(store.OnDisk(), results, false), inst, seed, repetition);
      results, raised := ExecuteJob(store, runOne, level, resume, JobAt(inst, seed, repetition), results);
      if raised {
        return;
      }
      repetition := repetition + 1;
    }
  }

  lemma NextJob(runOne: Job -> RunOutput, level: Option<string>, resume: bool, b: Batch, inst: Instance,
                seed: Option<int>, repetition: nat)
    requires repetition <= inst.repetitions && !b.raised
    ensures RunFrom(runOne, level, resume, b, RepetitionJobs(inst, seed, repetition))
         == RunFrom(runOne, level, resume, Step(runOne, level, resume, b, JobAt(inst, seed, repetition)),
                    RepetitionJobs(inst, seed, repetition + 1))
  {
  }

  /** The outer loop over seeds. */
  method RunSeeds(store: ExperimentResultStore, runOne: Job -> RunOutput, level: Option<string>, resume: bool,
                  inst: Instance, seeds: seq<Option<int>>)
    returns (results: seq<(string, RunStatus)>, raised: bool)
    modifies store
    ensures Batch(store.OnDisk(), results, raised)
         == RunJobs(runOne, level, resume, old(store.OnDisk()), SeedJobs(inst, seeds))
  {
    ghost var goal := RunJobs(runOne, level, resume, store.OnDisk(), SeedJobs(inst, seeds));
    results, raised := [], false;
    var i := 0;
    assert seeds[0..] == seeds;
    while i < |seeds|
      invariant 0 <= i <= |seeds| && !raised
      invariant goal == RunFrom(runOne, level, resume, Batch(store.OnDisk(), results, false),
                                SeedJobs(inst, seeds[i..]))
    {
      ghost var before := Batch(store.OnDisk(), results, false);
      assert SeedJobs(inst, seeds[i..]) == RepetitionJobs(inst, seeds[i], 1) + SeedJobs(inst, seeds[i + 1..]) by {
        assert seeds[i..][1..] == seeds[i + 1..];
      }
      RunFromAppend(runOne, level, resume, before, RepetitionJobs(inst, seeds[i], 1), SeedJobs(inst, seeds[i + 1..]));
      results, raised := RunRepetitions(store, runOne, level, resume, inst, seeds[i], results);
      if raised {
        return;
      }
      i := i + 1;
    }
  }

  /** The counting loop over one instance's results. */
  method CountStatuses(results: seq<(string, RunStatus)>) returns (successful: nat, failed: nat)
    ensures successful == CountCompleted(results) && failed == |results| - CountCompleted(results)
  {
    successful, failed := 0, 0;
    var i := 0;
    while i < |results|
      invariant 0 <= i <= |results|
      invariant successful + failed == i
      invariant successful + CountCompleted(results[i..]) == CountCompleted(results)
    {
      assert results[i..][1..] == results[i + 1..];
      if results[i].1 == Completed {
        successful := successful + 1;
      } else {
        failed := failed + 1;
      }
      i := i + 1;
    }
  }

  // ---------------------------------------------------------------------
  // What the jobs of an instance are

  /** A job of an instance is one of its (seed, repetition) pairs. */
  ghost predicate JobOf(inst: Instance, seeds: seq<Option<int>>, job: Job, seed: Option<int>, repetition: nat) {
    seed in seeds && 1 <= repetition <= inst.repetitions && job == JobAt(inst, seed, repetition)
  }

  lemma {:induction false} RepetitionJobsFacts(inst: Instance, seed: Option<int>, repetition: nat)
    requires repetition <= inst.repetitions + 1
    ensures |RepetitionJobs(inst, seed, repetition)| == inst.repetitions + 1 - repetition
    ensures forall i :: 0 <= i < |RepetitionJobs(inst, seed, repetition)|
              ==> RepetitionJobs(inst, seed, repetition)[i] == JobAt(inst, seed, repetition + i)
    decreases inst.repetitions + 1 - repetition
  {
    if repetition <= inst.repetitions {
      RepetitionJobsFacts(inst, seed, repetition + 1);
      var rest := RepetitionJobs(inst, seed, repetition + 1);
      forall i | 0 < i < |rest| + 1
        ensures ([JobAt(inst, seed, repetition)] + rest)[i] == JobAt(inst, seed, repetition + i)
      {
        assert rest[i - 1] == JobAt(inst, seed, repetition + 1 + (i - 1));
      }
    }
  }

  lemma {:induction false} SeedJobsMembers(inst: Instance, seeds: seq<Option<int>>, job: Job)
    returns (seed: Option<int>, repetition: nat)
    requires job in SeedJobs(inst, seeds)
    ensures JobOf(inst, seeds, job, seed, repetition)
  {
    RepetitionJobsFacts(inst, seeds[0], 1);
    var head := RepetitionJobs(inst, seeds[0], 1);
    if job in head {
      var i :| 0 <= i < |head| && head[i] == job;
      seed, repetition := seeds[0], 1 + i;
    } else {
      seed, repetition := SeedJobsMembers(inst, seeds[1..], job);
      assert forall s :: s in seeds[1..] ==> s in seeds;
    }
  }

  lemma {:induction false} SeedJobsDistinct(inst: Instance, seeds: seq<Option<int>>)
    requires Distinct(seeds)
    ensures DistinctIds(SeedJobs(inst, seeds))
  {
    if seeds != [] {
      DistinctTail(seeds);
      SeedJobsDistinct(inst, seeds[1..]);
      RepetitionJobsFacts(inst, seeds[0], 1);
      var head, rest := RepetitionJobs(inst, seeds[0], 1), SeedJobs(inst, seeds[1..]);
      forall i, j | 0 <= i < j < |head| ensures head[i].runId != head[j].runId {
        RunIdInjective(inst.campaign, inst.instanceId, seeds[0], 1 + i, inst.instanceId, seeds[0], 1 + j);
      }
      forall i, j | 0 <= i < |head| && 0 <= j < |rest| ensures head[i].runId != rest[j].runId {
        var seed, repetition := SeedJobsMembers(inst, seeds[1..], rest[j]);
        RunIdInjective(inst.campaign, inst.instanceId, seeds[0], 1 + i, inst.instanceId, seed, repetition);
      }
      DistinctIdsConcat(head, rest);
    }
  }

  lemma DistinctIdsConcat(a: seq<Job>, b: seq<Job>)
    requires DistinctIds(a) && DistinctIds(b)
    requires forall i, j :: 0 <= i < |a| && 0 <= j < |b| ==> a[i].runId != b[j].runId
    ensures DistinctIds(a + b)
  {
  }

  lemma {:induction false} SeedJobsCount(inst: Instance, seeds: seq<Option<int>>)
    ensures |SeedJobs(inst, seeds)| == inst.repetitions * |seeds|
  {
    if seeds != [] {
      RepetitionJobsFacts(inst, seeds[0], 1);
      SeedJobsCount(inst, seeds[1..]);
      TimesNext(inst.repetitions, |seeds[1..]|);
    }
  }

  lemma {:induction false} ResultsCount(runOne: Job -> RunOutput, level: Option<string>, resume: bool, b: Batch,
                                        jobs: seq<Job>)
    requires !RunFrom(runOne, level, resume, b, jobs).raised
    ensures |RunFrom(runOne, level, resume, b, jobs).results| == |b.results| + |jobs|
    decreases |jobs|
  {
    if jobs != [] && !b.raised {
      ResultsCount(runOne, level, resume, Step(runOne, level, resume, b, jobs[0]), jobs[1..]);
    }
  }

  lemma {:induction false} IdsOfLength(results: seq<(string, RunStatus)>)
    ensures |IdsOf(results)| == |results|
  {
    if results != [] {
      IdsOfLength(results[1..]);
    }
  }
}
