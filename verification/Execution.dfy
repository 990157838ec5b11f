/**
 The job loop that every campaign runner ends in: skip a run that is already on
 disk when resuming, otherwise run it and save it. `runOne` stands for the
 foreign call that executes one run; it never raises.
 */
module Execution {
  import opened Basics
  import opened ResultStore

  datatype Job = Job(runId: string, experimentId: string, config: RunConfig, seed: Option<int>)

  datatype RunOutput = RunOutput(record: Record, trace: seq<string>)

  /** How far a loop over jobs has come. `raised` is a level mismatch found after a run. */
  datatype Batch = Batch(disk: Disk, results: seq<(string, RunStatus)>, raised: bool)

  predicate LevelAccepted(level: Option<string>, config: RunConfig) {
    level.None? || config.isaLevel == level
  }

  function Step(runOne: Job -> RunOutput, level: Option<string>, resume: bool, b: Batch, job: Job): Batch {
    if resume && job.runId in b.disk.raw then
      b.(results := b.results + [(job.runId, b.disk.raw[job.runId].status)])
    else
      var out := runOne(job);
      if !LevelAccepted(level, out.record.raw.config) then b.(raised := true)
      else Batch(Saved(b.disk, out.record, out.trace), b.results + [(job.runId, out.record.raw.status)], false)
  }

  function RunFrom(runOne: Job -> RunOutput, level: Option<string>, resume: bool, b: Batch, jobs: seq<Job>): Batch
    decreases |jobs|
  {
    if jobs == [] || b.raised then b
    else RunFrom(runOne, level, resume, Step(runOne, level, resume, b, jobs[0]), jobs[1..])
  }

  function RunJobs(runOne: Job -> RunOutput, level: Option<string>, resume: bool, d: Disk, jobs: seq<Job>): Batch {
    RunFrom(runOne, level, resume, Batch(d, [], false), jobs)
  }

  /** What `run_one` promises: the record carries the id and the configuration it was asked for. */
  ghost predicate Faithful(runOne: Job -> RunOutput) {
    forall job: Job :: runOne(job).record.raw.runId == job.runId && runOne(job).record.raw.config == job.config
  }

  ghost predicate AllAccepted(level: Option<string>, jobs: seq<Job>) {
    forall job :: job in jobs ==> LevelAccepted(level, job.config)
  }

  /** The (run id, status) pairs of a list of jobs, read off the runs themselves. */
  function ResultsOf(runOne: Job -> RunOutput, jobs: seq<Job>): seq<(string, RunStatus)> {
    if jobs == [] then []
    else [(jobs[0].runId, runOne(jobs[0]).record.raw.status)] + ResultsOf(runOne, jobs[1..])
  }

  lemma {:induction false} RunFromAppend(runOne: Job -> RunOutput, level: Option<string>, resume: bool, b: Batch,
                                         x: seq<Job>, y: seq<Job>)
    ensures RunFrom(runOne, level, resume, b, x + y)
         == RunFrom(runOne, level, resume, RunFrom(runOne, level, resume, b, x), y)
    decreases |x|
  {
    if x == [] {
      assert x + y == y;
    } else if !b.raised {
      assert (x + y)[1..] == x[1..] + y;
      RunFromAppend(runOne, level, resume, Step(runOne, level, resume, b, x[0]), x[1..], y);
    }
  }

  lemma {:induction false} ResultsDoNotMatter(runOne: Job -> RunOutput, level: Option<string>, resume: bool, a: Batch,
                                              b: Batch, jobs: seq<Job>)
    requires a.disk == b.disk && a.raised == b.raised
    ensures RunFrom(runOne, level, resume, a, jobs).disk == RunFrom(runOne, level, resume, b, jobs).disk
    decreases |jobs|
  {
    if jobs != [] && !a.raised {
      ResultsDoNotMatter(runOne, level, resume, Step(runOne, level, resume, a, jobs[0]),
                         Step(runOne, level, resume, b, jobs[0]), jobs[1..]);
    }
  }

  // ---------------------------------------------------------------------
  // Which files a loop over jobs can touch

  ghost predicate HasId(jobs: seq<Job>, id: string) {
    exists job :: job in jobs && job.runId == id
  }

  /** Files of other run ids are left alone; when resuming, so are files of every run already on disk. */
  lemma {:induction false} RunFromFrame(runOne: Job -> RunOutput, level: Option<string>, resume: bool, b: Batch,
                                        jobs: seq<Job>, id: string)
    requires Faithful(runOne)
    requires !HasId(jobs, id) || (resume && id in b.disk.raw)
    ensures SameAt(b.disk, RunFrom(runOne, level, resume, b, jobs).disk, id)
    decreases |jobs|
  {
    if jobs != [] && !b.raised {
      assert jobs == [jobs[0]] + jobs[1..];
      assert jobs[0] in jobs;
      var next := Step(runOne, level, resume, b, jobs[0]);
      assert SameAt(b.disk, next.disk, id);
      assert HasId(jobs[1..], id) ==> HasId(jobs, id);
      RunFromFrame(runOne, level, resume, next, jobs[1..], id);
    }
  }

  lemma {:induction false} RunFromKeepsStore(runOne: Job -> RunOutput, level: Option<string>, resume: bool, b: Batch,
                                             jobs: seq<Job>)
    requires WellKept(b.disk)
    ensures WellKept(RunFrom(runOne, level, resume, b, jobs).disk)
    decreases |jobs|
  {
    if jobs != [] && !b.raised {
      SaveKeepsStore(b.disk, runOne(jobs[0]).record, runOne(jobs[0]).trace);
      RunFromKeepsStore(runOne, level, resume, Step(runOne, level, resume, b, jobs[0]), jobs[1..]);
    }
  }

  // ---------------------------------------------------------------------
  // Interruption and resumption

  /** Saving the second output over the first changes no file. */
  ghost predicate SameWrites(first: RunOutput, second: RunOutput) {
    && first.record.raw == second.record.raw
    && first.trace == second.trace
    && (second.record.evaluation.Some? ==> first.record.evaluation == second.record.evaluation)
  }

  ghost predicate IsFirst(jobs: seq<Job>, i: nat)
    requires i < |jobs|
  {
    forall h :: 0 <= h < i ==> jobs[h].runId != jobs[i].runId
  }

  /** Jobs that share a run id write the same files as the first of them. */
  ghost predicate Agree(runOne: Job -> RunOutput, jobs: seq<Job>) {
    forall i, j :: 0 <= i < j < |jobs| && IsFirst(jobs, i) && jobs[i].runId == jobs[j].runId
      ==> SameWrites(runOne(jobs[i]), runOne(jobs[j]))
  }

  ghost predicate DistinctIds(jobs: seq<Job>) {
    forall i, j :: 0 <= i < j < |jobs| ==> jobs[i].runId != jobs[j].runId
  }

  /** Jobs that share a run id are one and the same job, which can be seen before anything is run. */
  ghost predicate Consistent(jobs: seq<Job>) {
    forall i, j :: 0 <= i < j < |jobs| && jobs[i].runId == jobs[j].runId ==> jobs[i] == jobs[j]
  }

  /** A job is known by its run id and its configuration, the two things a record keeps of it. */
  ghost predicate Traceable(jobs: seq<Job>) {
    forall i, j :: 0 <= i < j < |jobs| && jobs[i].runId == jobs[j].runId && jobs[i].config == jobs[j].config
      ==> jobs[i] == jobs[j]
  }

  /** Whatever the runs produce, agreement on the files is sameness of the jobs. */
  lemma AgreeIffConsistent(runOne: Job -> RunOutput, jobs: seq<Job>)
    requires Faithful(runOne) && Traceable(jobs)
    ensures Agree(runOne, jobs) <==> Consistent(jobs)
  {
    if Agree(runOne, jobs) {
      forall i, j | 0 <= i < j < |jobs| && jobs[i].runId == jobs[j].runId ensures jobs[i] == jobs[j] {
        var f := FirstExists(jobs, i);
        assert f < i ==> SameWrites(runOne(jobs[f]), runOne(jobs[i]));
        assert SameWrites(runOne(jobs[f]), runOne(jobs[j]));
        assert jobs[f].config == jobs[i].config == jobs[j].config;
      }
    }
  }

  /** No job of the list is on disk, what the campaign guard establishes. */
  ghost predicate NoneOnDisk(d: Disk, jobs: seq<Job>) {
    forall job :: job in jobs ==> job.runId !in d.raw
  }

  /** The files of `id` are those of `d0` with this one run saved on top. */
  ghost predicate Holds(d0: Disk, d: Disk, id: string, out: RunOutput) {
    && id in d.raw && d.raw[id] == out.record.raw
    && id in d.traces && d.traces[id] == out.trace
    && (if out.record.evaluation.Some? then id in d.evaluations && d.evaluations[id] == out.record.evaluation.value
        else (id in d.evaluations <==> id in d0.evaluations)
             && (id in d.evaluations ==> d.evaluations[id] == d0.evaluations[id]))
  }

  /**
   A disk somewhere between the start of a campaign and its end: every job id is
   either still as it was before, with no record, or holds its first job's run;
   nothing else has changed. The first `k` jobs are done.
   */
  ghost predicate Between(runOne: Job -> RunOutput, d0: Disk, d: Disk, jobs: seq<Job>, k: nat) {
    && k <= |jobs|
    && (forall i :: 0 <= i < k ==> jobs[i].runId in d.raw)
    && (forall i :: 0 <= i < |jobs| && IsFirst(jobs, i)
          ==> (jobs[i].runId !in d.raw && SameAt(d0, d, jobs[i].runId)) || Holds(d0, d, jobs[i].runId, runOne(jobs[i])))
    && (forall id :: !HasId(jobs, id) ==> SameAt(d0, d, id))
  }

  lemma {:induction false} FirstExists(jobs: seq<Job>, j: nat) returns (i: nat)
    requires j < |jobs|
    ensures i <= j && IsFirst(jobs, i) && jobs[i].runId == jobs[j].runId
  {
    if IsFirst(jobs, j) {
      i := j;
    } else {
      var h :| 0 <= h < j && jobs[h].runId == jobs[j].runId;
      i := FirstExists(jobs, h);
    }
  }

  /** One job more, in either mode, from any intermediate disk. */
  lemma StepBetween(runOne: Job -> RunOutput, level: Option<string>, resume: bool, d0: Disk, b: Batch, jobs: seq<Job>,
                    k: nat)
    requires Faithful(runOne) && Agree(runOne, jobs) && AllAccepted(level, jobs)
    requires k < |jobs| && Between(runOne, d0, b.disk, jobs, k) && !b.raised
    ensures var next := Step(runOne, level, resume, b, jobs[k]);
            && !next.raised && Between(runOne, d0, next.disk, jobs, k + 1)
            && next.results == b.results + [(jobs[k].runId, runOne(jobs[k]).record.raw.status)]
  {
    var job, next := jobs[k], Step(runOne, level, resume, b, jobs[k]);
    assert job in jobs && HasId(jobs, job.runId);
    var f := FirstExists(jobs, k);
    assert f < k ==> SameWrites(runOne(jobs[f]), runOne(jobs[k]));
    if resume && job.runId in b.disk.raw {
      assert Holds(d0, b.disk, job.runId, runOne(jobs[f]));
    } else {
      SaveOneJob(runOne, d0, b.disk, next.disk, jobs, k, f);
    }
  }

  lemma SaveOneJob(runOne: Job -> RunOutput, d0: Disk, d: Disk, d': Disk, jobs: seq<Job>, k: nat, f: nat)
    requires Faithful(runOne) && k < |jobs| && Between(runOne, d0, d, jobs, k)
    requires f <= k && IsFirst(jobs, f) && jobs[f].runId == jobs[k].runId
    requires f < k ==> SameWrites(runOne(jobs[f]), runOne(jobs[k]))
    requires d' == Saved(d, runOne(jobs[k]).record, runOne(jobs[k]).trace)
    ensures Between(runOne, d0, d', jobs, k + 1)
  {
    var id, out := jobs[k].runId, runOne(jobs[k]);
    assert jobs[k] in jobs && HasId(jobs, id);
    assert Holds(d0, d', id, runOne(jobs[f])) by {
      assert id in d.raw ==> Holds(d0, d, id, runOne(jobs[f]));
      assert id !in d.raw ==> f == k;
    }
    forall other | other != id ensures SameAt(d, d', other) {
      SaveFrame(d, out.record, out.trace, other);
    }
    BetweenAfterSave(runOne, d0, d, d', jobs, k, f);
  }

  lemma {:induction false} BetweenAfterSave(runOne: Job -> RunOutput, d0: Disk, d: Disk, d': Disk, jobs: seq<Job>,
                                            k: nat, f: nat)
    requires k < |jobs| && Between(runOne, d0, d, jobs, k)
    requires f <= k && IsFirst(jobs, f) && jobs[f].runId == jobs[k].runId
    requires Holds(d0, d', jobs[k].runId, runOne(jobs[f]))
    requires forall other :: other != jobs[k].runId ==> SameAt(d, d', other)
    ensures Between(runOne, d0, d', jobs, k + 1)
  {
    forall i | 0 <= i < k + 1 ensures jobs[i].runId in d'.raw {
      assert jobs[i].runId != jobs[k].runId ==> SameAt(d, d', jobs[i].runId);
    }
    forall i | 0 <= i < |jobs| && IsFirst(jobs, i)
      ensures (jobs[i].runId !in d'.raw && SameAt(d0, d', jobs[i].runId))
              || Holds(d0, d', jobs[i].runId, runOne(jobs[i]))
    {
      if jobs[i].runId == jobs[k].runId {
        assert i == f;
      } else {
        assert SameAt(d, d', jobs[i].runId);
      }
    }
    forall other | !HasId(jobs, other) ensures SameAt(d0, d', other) {
      assert jobs[k] in jobs;
      assert SameAt(d, d', other);
    }
  }

  lemma ResultsCons(runOne: Job -> RunOutput, jobs: seq<Job>, k: nat, stop: nat, done: seq<(string, RunStatus)>)
    requires k < stop <= |jobs|
    ensures jobs[k..stop] == [jobs[k]] + jobs[k + 1..stop]
    ensures done + ResultsOf(runOne, jobs[k..stop])
         == done + [(jobs[k].runId, runOne(jobs[k]).record.raw.status)] + ResultsOf(runOne, jobs[k + 1..stop])
  {
    assert jobs[k..stop][1..] == jobs[k + 1..stop];
  }

  lemma RunFromHead(runOne: Job -> RunOutput, level: Option<string>, resume: bool, b: Batch, jobs: seq<Job>, k: nat,
                    stop: nat)
    requires k < stop <= |jobs| && !b.raised
    ensures RunFrom(runOne, level, resume, b, jobs[k..stop])
         == RunFrom(runOne, level, resume, Step(runOne, level, resume, b, jobs[k]), jobs[k + 1..stop])
  {
    assert jobs[k..stop][1..] == jobs[k + 1..stop];
  }

  lemma {:induction false} RunFromBetween(runOne: Job -> RunOutput, level: Option<string>, resume: bool, d0: Disk,
                                          b: Batch, jobs: seq<Job>, k: nat, stop: nat)
    requires Faithful(runOne) && Agree(runOne, jobs) && AllAccepted(level, jobs)
    requires k <= stop <= |jobs| && Between(runOne, d0, b.disk, jobs, k) && !b.raised
    ensures var end := RunFrom(runOne, level, resume, b, jobs[k..stop]);
            && !end.raised && Between(runOne, d0, end.disk, jobs, stop)
            && end.results == b.results + ResultsOf(runOne, jobs[k..stop])
    decreases stop - k
  {
    if k < stop {
      var next := Step(runOne, level, resume, b, jobs[k]);
      StepBetween(runOne, level, resume, d0, b, jobs, k);
      RunFromBetween(runOne, level, resume, d0, next, jobs, k + 1, stop);
      RunFromHead(runOne, level, resume, b, jobs, k, stop);
      ResultsCons(runOne, jobs, k, stop, b.results);
    }
  }

  /** The end is one particular disk, whatever happened on the way. */
  lemma BetweenAtEnd(runOne: Job -> RunOutput, d0: Disk, a: Disk, b: Disk, jobs: seq<Job>)
    requires Between(runOne, d0, a, jobs, |jobs|) && Between(runOne, d0, b, jobs, |jobs|)
    ensures a == b
  {
    forall id ensures SameAt(a, b, id) {
      if HasId(jobs, id) {
        var job :| job in jobs && job.runId == id;
        var j :| 0 <= j < |jobs| && jobs[j] == job;
        var i := FirstExists(jobs, j);
        assert Holds(d0, a, id, runOne(jobs[i])) && Holds(d0, b, id, runOne(jobs[i]));
      } else {
        assert SameAt(d0, a, id) && SameAt(d0, b, id);
      }
    }
    SameEverywhere(a, b);
  }

  lemma BetweenAtStart(runOne: Job -> RunOutput, d: Disk, jobs: seq<Job>)
    requires NoneOnDisk(d, jobs)
    ensures Between(runOne, d, d, jobs, 0)
  {
    forall i | 0 <= i < |jobs| ensures jobs[i].runId !in d.raw {
      assert jobs[i] in jobs;
    }
  }

  lemma BetweenWeaken(runOne: Job -> RunOutput, d0: Disk, d: Disk, jobs: seq<Job>, k: nat)
    requires Between(runOne, d0, d, jobs, k)
    ensures Between(runOne, d0, d, jobs, 0)
  {
  }

  /** The jobs a session gets through when it is cut off after `stop` of them; past the end there is no cut. */
  function Cut(jobs: seq<Job>, stop: nat): seq<Job> {
    if stop < |jobs| then jobs[..stop] else jobs
  }

  /** A first session cut off after `stops[0]` jobs, then resumed sessions cut off after `stops[1]`, `stops[2]`, ... */
  function Interrupted(runOne: Job -> RunOutput, level: Option<string>, d: Disk, jobs: seq<Job>, stops: seq<nat>): Disk
  {
    if stops == [] then d
    else
      var before := Interrupted(runOne, level, d, jobs, stops[..|stops| - 1]);
      RunJobs(runOne, level, |stops| > 1, before, Cut(jobs, stops[|stops| - 1])).disk
  }

  lemma {:induction false} InterruptedBetween(runOne: Job -> RunOutput, level: Option<string>, d: Disk, jobs: seq<Job>,
                                              stops: seq<nat>)
    requires Faithful(runOne) && Agree(runOne, jobs) && AllAccepted(level, jobs) && NoneOnDisk(d, jobs)
    ensures Between(runOne, d, Interrupted(runOne, level, d, jobs, stops), jobs, 0)
  {
    if stops == [] {
      BetweenAtStart(runOne, d, jobs);
    } else {
      var front := stops[..|stops| - 1];
      var last := stops[|stops| - 1];
      var stop := if last < |jobs| then last else |jobs|;
      InterruptedBetween(runOne, level, d, jobs, front);
      var before := Interrupted(runOne, level, d, jobs, front);
      RunFromBetween(runOne, level, |stops| > 1, d, Batch(before, [], false), jobs, 0, stop);
      assert jobs[0..stop] == Cut(jobs, last);
      BetweenWeaken(runOne, d, Interrupted(runOne, level, d, jobs, stops), jobs, stop);
    }
  }

  /** From any intermediate disk and in either mode, a full session ends like one uninterrupted fresh run. */
  lemma {:induction false} FullSession(runOne: Job -> RunOutput, level: Option<string>, resume: bool, d0: Disk, d: Disk,
                                       jobs: seq<Job>)
    requires Faithful(runOne) && Agree(runOne, jobs) && AllAccepted(level, jobs) && NoneOnDisk(d0, jobs)
    requires Between(runOne, d0, d, jobs, 0)
    ensures RunJobs(runOne, level, resume, d, jobs) == RunJobs(runOne, level, false, d0, jobs)
    ensures RunJobs(runOne, level, resume, d, jobs).results == ResultsOf(runOne, jobs)
  {
    assert jobs[0..|jobs|] == jobs;
    BetweenAtStart(runOne, d0, jobs);
    RunFromBetween(runOne, level, resume, d0, Batch(d, [], false), jobs, 0, |jobs|);
    RunFromBetween(runOne, level, false, d0, Batch(d0, [], false), jobs, 0, |jobs|);
    BetweenAtEnd(runOne, d0, RunJobs(runOne, level, resume, d, jobs).disk, RunJobs(runOne, level, false, d0, jobs).disk,
                 jobs);
  }

  /** Any number of interruptions, each followed by a resume, ends exactly like one uninterrupted run. */
  lemma {:induction false} ResumeEquivalence(runOne: Job -> RunOutput, level: Option<string>, d: Disk, jobs: seq<Job>,
                                             stops: seq<nat>)
    requires Faithful(runOne) && Agree(runOne, jobs) && AllAccepted(level, jobs) && NoneOnDisk(d, jobs)
    ensures RunJobs(runOne, level, true, Interrupted(runOne, level, d, jobs, stops), jobs)
         == RunJobs(runOne, level, false, d, jobs)
  {
    InterruptedBetween(runOne, level, d, jobs, stops);
    FullSession(runOne, level, true, d, Interrupted(runOne, level, d, jobs, stops), jobs);
  }

  // ---------------------------------------------------------------------
  // Agreement is not only enough for resumption, it is needed

  lemma {:induction false} NeverRaised(runOne: Job -> RunOutput, level: Option<string>, resume: bool, b: Batch,
                                       jobs: seq<Job>)
    requires Faithful(runOne) && AllAccepted(level, jobs) && !b.raised
    ensures !RunFrom(runOne, level, resume, b, jobs).raised
    decreases |jobs|
  {
    if jobs != [] {
      assert jobs[0] in jobs;
      assert forall job :: job in jobs[1..] ==> job in jobs;
      NeverRaised(runOne, level, resume, Step(runOne, level, resume, b, jobs[0]), jobs[1..]);
    }
  }

  /** A fresh session cut off right after job `m` has just saved that job. */
  lemma CutAfter(runOne: Job -> RunOutput, level: Option<string>, d: Disk, jobs: seq<Job>, m: nat)
    requires Faithful(runOne) && AllAccepted(level, jobs) && m < |jobs|
    ensures RunJobs(runOne, level, false, d, jobs[..m + 1]).disk
         == Saved(RunJobs(runOne, level, false, d, jobs[..m]).disk, runOne(jobs[m]).record, runOne(jobs[m]).trace)
  {
    var start, job := Batch(d, [], false), jobs[m];
    assert job in jobs && jobs[..m + 1] == jobs[..m] + [job];
    assert forall x :: x in jobs[..m] ==> x in jobs;
    RunFromAppend(runOne, level, false, start, jobs[..m], [job]);
    NeverRaised(runOne, level, false, start, jobs[..m]);
    var b := RunFrom(runOne, level, false, start, jobs[..m]);
    var next := Step(runOne, level, false, b, job);
    assert RunFrom(runOne, level, false, b, [job])
        == RunFrom(runOne, level, false, next, []) by { assert [job][1..] == []; }
  }

  /** What resuming after that cut leaves in the files of job `m`: exactly what the cut had left. */
  lemma CutSurvives(runOne: Job -> RunOutput, level: Option<string>, d: Disk, jobs: seq<Job>, m: nat)
    requires Faithful(runOne) && AllAccepted(level, jobs) && m < |jobs|
    ensures SameAt(Interrupted(runOne, level, d, jobs, [m + 1]),
                   RunJobs(runOne, level, true, Interrupted(runOne, level, d, jobs, [m + 1]), jobs).disk, jobs[m].runId)
    ensures var cut := Interrupted(runOne, level, d, jobs, [m + 1]);
            cut == Saved(RunJobs(runOne, level, false, d, jobs[..m]).disk, runOne(jobs[m]).record,
                         runOne(jobs[m]).trace)
  {
    CutAfter(runOne, level, d, jobs, m);
    var cut := Interrupted(runOne, level, d, jobs, [m + 1]);
    var stops: seq<nat> := [m + 1];
    assert stops[..|stops| - 1] == [];
    assert Interrupted(runOne, level, d, jobs, stops[..|stops| - 1]) == d;
    assert jobs[..m + 1] == Cut(jobs, m + 1);
    assert cut == RunJobs(runOne, level, false, d, jobs[..m + 1]).disk;
    RunFromFrame(runOne, level, true, Batch(cut, [], false), jobs, jobs[m].runId);
  }

  lemma PrefixLacksFirst(jobs: seq<Job>, i: nat)
    requires i < |jobs| && IsFirst(jobs, i)
    ensures !HasId(jobs[..i], jobs[i].runId)
  {
    forall job | job in jobs[..i] ensures job.runId != jobs[i].runId {
      var h :| 0 <= h < i && jobs[h] == job;
    }
  }

  ghost predicate ResumesCleanly(runOne: Job -> RunOutput, level: Option<string>, d: Disk, jobs: seq<Job>, stop: nat) {
    RunJobs(runOne, level, true, Interrupted(runOne, level, d, jobs, [stop]), jobs).disk
    == RunJobs(runOne, level, false, d, jobs).disk
  }

  /** Cut right after the first job with its id, a well-kept store holds that run and no older evaluation. */
  lemma FirstCut(runOne: Job -> RunOutput, level: Option<string>, d: Disk, jobs: seq<Job>, i: nat)
    requires Faithful(runOne) && AllAccepted(level, jobs) && NoneOnDisk(d, jobs) && WellKept(d)
    requires i < |jobs| && IsFirst(jobs, i)
    ensures Loaded(Interrupted(runOne, level, d, jobs, [i + 1]), jobs[i].runId) == Some(runOne(jobs[i]).record)
  {
    CutSurvives(runOne, level, d, jobs, i);
    PrefixLacksFirst(jobs, i);
    RunFromFrame(runOne, level, false, Batch(d, [], false), jobs[..i], jobs[i].runId);
    assert jobs[i] in jobs;
  }

  lemma AgreementNeededAt(runOne: Job -> RunOutput, level: Option<string>, d: Disk, jobs: seq<Job>, i: nat, j: nat)
    requires Faithful(runOne) && AllAccepted(level, jobs) && NoneOnDisk(d, jobs) && WellKept(d)
    requires i < j < |jobs| && IsFirst(jobs, i) && jobs[i].runId == jobs[j].runId
    requires ResumesCleanly(runOne, level, d, jobs, i + 1) && ResumesCleanly(runOne, level, d, jobs, j + 1)
    ensures SameWrites(runOne(jobs[i]), runOne(jobs[j]))
  {
    CutSurvives(runOne, level, d, jobs, i);
    FirstCut(runOne, level, d, jobs, i);
    CutSurvives(runOne, level, d, jobs, j);
  }

  /** If every interruption point resumes to the uninterrupted store, jobs sharing an id write the same files. */
  lemma {:induction false} AgreementNeeded(runOne: Job -> RunOutput, level: Option<string>, d: Disk, jobs: seq<Job>)
    requires Faithful(runOne) && AllAccepted(level, jobs) && NoneOnDisk(d, jobs) && WellKept(d)
    requires forall stop :: ResumesCleanly(runOne, level, d, jobs, stop)
    ensures Agree(runOne, jobs)
  {
    forall i, j | 0 <= i < j < |jobs| && IsFirst(jobs, i) && jobs[i].runId == jobs[j].runId
      ensures SameWrites(runOne(jobs[i]), runOne(jobs[j]))
    {
      AgreementNeededAt(runOne, level, d, jobs, i, j);
    }
  }

  /** Resumption is faithful at every interruption point if and only if jobs sharing a run id write the same files. */
  lemma ResumableIffAgree(runOne: Job -> RunOutput, level: Option<string>, d: Disk, jobs: seq<Job>)
    requires Faithful(runOne) && AllAccepted(level, jobs) && NoneOnDisk(d, jobs) && WellKept(d)
    ensures (forall stop :: ResumesCleanly(runOne, level, d, jobs, stop)) <==> Agree(runOne, jobs)
  {
    if Agree(runOne, jobs) {
      forall stop ensures ResumesCleanly(runOne, level, d, jobs, stop) {
        ResumeEquivalence(runOne, level, d, jobs, [stop]);
      }
    } else if forall stop :: ResumesCleanly(runOne, level, d, jobs, stop) {
      AgreementNeeded(runOne, level, d, jobs);
    }
  }

  // ---------------------------------------------------------------------
  // No overwriting, over whole histories

  /** `<campaign>-*.json` already exists under raw/. */
  predicate CampaignExists(d: Disk, campaign: string) {
    exists id :: id in d.raw && campaign + "-" <= id
  }

  /**
   One invocation without `force`, possibly cut off after `stop` jobs; every session may run against a
   different plant.
   */
  datatype Session = Session(runOne: Job -> RunOutput, level: Option<string>, resume: bool, campaign: string,
                             jobs: seq<Job>, stop: nat)

  ghost predicate SessionOk(s: Session) {
    && Faithful(s.runOne)
    && forall job :: job in s.jobs ==> s.campaign + "-" <= job.runId
  }

  function Play(d: Disk, s: Session): Disk {
    if !s.resume && CampaignExists(d, s.campaign) then d
    else RunJobs(s.runOne, s.level, s.resume, d, Cut(s.jobs, s.stop)).disk
  }

  function PlayAll(d: Disk, sessions: seq<Session>): Disk
    decreases |sessions|
  {
    if sessions == [] then d else PlayAll(Play(d, sessions[0]), sessions[1..])
  }

  /** Every file on the old disk is still there with the same content. */
  ghost predicate Preserves(d: Disk, d': Disk) {
    && (forall id :: id in d.raw ==> id in d'.raw && d'.raw[id] == d.raw[id])
    && (forall id :: id in d.traces ==> id in d'.traces && d'.traces[id] == d.traces[id])
    && (forall id :: id in d.evaluations ==> id in d'.evaluations && d'.evaluations[id] == d.evaluations[id])
  }

  lemma SessionPreserves(d: Disk, s: Session)
    requires SessionOk(s) && WellKept(d)
    ensures Preserves(d, Play(d, s)) && WellKept(Play(d, s))
  {
    var jobs, start := Cut(s.jobs, s.stop), Batch(d, [], false);
    RunFromKeepsStore(s.runOne, s.level, s.resume, start, jobs);
    if s.resume || !CampaignExists(d, s.campaign) {
      forall id | id in d.raw ensures SameAt(d, Play(d, s), id) {
        forall job | !s.resume && job in jobs ensures job.runId != id {
          assert job in s.jobs && s.campaign + "-" <= job.runId;
        }
        RunFromFrame(s.runOne, s.level, s.resume, start, jobs, id);
      }
    }
  }

  /**
   Whatever sequence of fresh, resumed and interrupted sessions is played, no file on disk ever changes or
   disappears.
   */
  lemma {:induction false} HistoryPreserves(d: Disk, sessions: seq<Session>)
    requires WellKept(d)
    requires forall i :: 0 <= i < |sessions| ==> SessionOk(sessions[i])
    ensures Preserves(d, PlayAll(d, sessions)) && WellKept(PlayAll(d, sessions))
    decreases |sessions|
  {
    if sessions != [] {
      SessionPreserves(d, sessions[0]);
      HistoryPreserves(Play(d, sessions[0]), sessions[1..]);
    }
  }

  /** Every job's id reads back as exactly the record its run produced. */
  ghost predicate AllReadBack(runOne: Job -> RunOutput, d: Disk, jobs: seq<Job>) {
    forall job :: job in jobs ==> Loaded(d, job.runId) == Some(runOne(job).record)
  }

  /**
   After a run over a well-kept store that had none of the ids, all read back exactly when the jobs are
   consistent.
   */
  lemma {:induction false} ReadBackIffConsistent(runOne: Job -> RunOutput, level: Option<string>, resume: bool, d: Disk,
                                                 jobs: seq<Job>)
    requires Faithful(runOne) && AllAccepted(level, jobs) && NoneOnDisk(d, jobs) && WellKept(d) && Traceable(jobs)
    ensures AllReadBack(runOne, RunJobs(runOne, level, resume, d, jobs).disk, jobs) <==> Consistent(jobs)
  {
    var end := RunJobs(runOne, level, resume, d, jobs).disk;
    if Consistent(jobs) {
      ConsistentReadsBack(runOne, level, resume, d, jobs);
    }
    if AllReadBack(runOne, end, jobs) {
      forall i, j | 0 <= i < j < |jobs| && jobs[i].runId == jobs[j].runId ensures jobs[i] == jobs[j] {
        assert jobs[i] in jobs && jobs[j] in jobs;
        assert runOne(jobs[i]).record == runOne(jobs[j]).record;
      }
    }
  }

  lemma {:induction false} ConsistentReadsBack(runOne: Job -> RunOutput, level: Option<string>, resume: bool, d: Disk,
                                               jobs: seq<Job>)
    requires Faithful(runOne) && AllAccepted(level, jobs) && NoneOnDisk(d, jobs) && WellKept(d) && Traceable(jobs)
    requires Consistent(jobs)
    ensures AllReadBack(runOne, RunJobs(runOne, level, resume, d, jobs).disk, jobs)
  {
    var end := RunJobs(runOne, level, resume, d, jobs).disk;
    AgreeIffConsistent(runOne, jobs);
    BetweenAtStart(runOne, d, jobs);
    assert jobs[0..|jobs|] == jobs;
    RunFromBetween(runOne, level, resume, d, Batch(d, [], false), jobs, 0, |jobs|);
    forall job | job in jobs ensures Loaded(end, job.runId) == Some(runOne(job).record) {
      var j :| 0 <= j < |jobs| && jobs[j] == job;
      var i := FirstExists(jobs, j);
      assert Holds(d, end, job.runId, runOne(jobs[i]));
    }
  }

  // ---------------------------------------------------------------------
  // Runs that are not functions of their job

  /** Saving one output after the other, whatever they are. */
  function SaveAll(d: Disk, outs: seq<RunOutput>): Disk {
    if outs == [] then d
    else
      var last := outs[|outs| - 1];
      Saved(SaveAll(d, outs[..|outs| - 1]), last.record, last.trace)
  }

  /** The evaluation file an id ends up with. */
  function LatestEvaluation(d: Disk, outs: seq<RunOutput>, id: string): Option<string> {
    if outs == [] then (if id in d.evaluations then Some(d.evaluations[id]) else None)
    else
      var last := outs[|outs| - 1].record;
      if last.raw.runId == id && last.evaluation.Some? then last.evaluation
      else LatestEvaluation(d, outs[..|outs| - 1], id)
  }

  lemma {:induction false} EvaluationFile(d: Disk, outs: seq<RunOutput>, id: string)
    ensures var end := SaveAll(d, outs);
            LatestEvaluation(d, outs, id) == if id in end.evaluations then Some(end.evaluations[id]) else None
  {
    if outs != [] {
      EvaluationFile(d, outs[..|outs| - 1], id);
    }
  }

  /**
   When an id is saved repeatedly with different outputs, what reads back is the last record with the
   latest evaluation; that is the last output itself exactly when it has an evaluation or none came before.
   */
  lemma {:induction false} LastOutputReadsBack(d: Disk, outs: seq<RunOutput>, i: nat, id: string)
    requires i < |outs| && outs[i].record.raw.runId == id
    requires forall k :: i < k < |outs| ==> outs[k].record.raw.runId != id
    ensures Loaded(SaveAll(d, outs), id) == Some(Record(outs[i].record.raw, LatestEvaluation(d, outs[..i + 1], id)))
    ensures Loaded(SaveAll(d, outs), id) == Some(outs[i].record)
       <==> outs[i].record.evaluation.Some? || LatestEvaluation(d, outs[..i], id).None?
  {
    var last := |outs| - 1;
    if i == last {
      assert outs[..i + 1] == outs;
      EvaluationFile(d, outs[..i], id);
    } else {
      LastOutputReadsBack(d, outs[..last], i, id);
      assert outs[..last][..i + 1] == outs[..i + 1] && outs[..last][..i] == outs[..i];
      OtherSaveLoads(SaveAll(d, outs[..last]), outs[last].record, outs[last].trace, id);
    }
  }

  lemma OtherSaveLoads(d: Disk, record: Record, trace: seq<string>, id: string)
    requires id != record.raw.runId
    ensures Loaded(Saved(d, record, trace), id) == Loaded(d, id)
  {
    SaveFrame(d, record, trace, id);
  }

  /** A list of runs without skipping saves exactly what the runs produce. */
  lemma {:induction false} RunsSaveOutputs(runOne: Job -> RunOutput, level: Option<string>, d: Disk, jobs: seq<Job>)
    requires Faithful(runOne) && AllAccepted(level, jobs)
    ensures RunJobs(runOne, level, false, d, jobs).disk == SaveAll(d, OutputsOf(runOne, jobs))
  {
    if jobs != [] {
      var last := |jobs| - 1;
      assert forall job :: job in jobs[..last] ==> job in jobs;
      RunsSaveOutputs(runOne, level, d, jobs[..last]);
      CutAfter(runOne, level, d, jobs, last);
      assert jobs[..last + 1] == jobs;
    }
  }

  function OutputsOf(runOne: Job -> RunOutput, jobs: seq<Job>): seq<RunOutput> {
    if jobs == [] then [] else OutputsOf(runOne, jobs[..|jobs| - 1]) + [runOne(jobs[|jobs| - 1])]
  }
}
