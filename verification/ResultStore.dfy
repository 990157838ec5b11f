/**
 `ExperimentResultStore`: one file per run id under raw/, traces/ and evaluations/.
 Encoded file contents are kept as the values they decode to.
 */
module ResultStore {
  import opened Basics

  datatype RunStatus = Completed | Failed

  /** The part of `ExperimentConfig` that the runners fill in and later read back. */
  datatype RunConfig = RunConfig(
    taskId: string,
    isaLevel: Option<string>,
    combinationId: string,
    architectures: seq<string>,
    agent: string,
    questionId: Option<string>,
    instanceId: Option<string>,
    repetition: nat)

  /** What raw/<run id>.json holds: the record without its evaluation. */
  datatype RawRecord = RawRecord(runId: string, config: RunConfig, status: RunStatus, body: string)

  datatype Record = Record(raw: RawRecord, evaluation: Option<string>)

  /** The three directories as maps from run id to file content. */
  datatype Disk = Disk(
    raw: map<string, RawRecord>,
    traces: map<string, seq<string>>,
    evaluations: map<string, string>)

  function Saved(d: Disk, record: Record, trace: seq<string>): Disk {
    var id := record.raw.runId;
    Disk(d.raw[id := record.raw],
         d.traces[id := trace],
         if record.evaluation.Some? then d.evaluations[id := record.evaluation.value] else d.evaluations)
  }

  /**
   `load_record`: the raw file merged with the evaluation file, if there is one; `None` when the raw file is
   missing.
   */
  function Loaded(d: Disk, id: string): Option<Record> {
    if id !in d.raw then None
    else Some(Record(d.raw[id], if id in d.evaluations then Some(d.evaluations[id]) else None))
  }

  class ExperimentResultStore {
    var raw: map<string, RawRecord>
    var traces: map<string, seq<string>>
    var evaluations: map<string, string>

    function OnDisk(): Disk
      reads this
    {
      Disk(raw, traces, evaluations)
    }

    method Save(record: Record, trace: seq<string>)
      modifies this
      ensures OnDisk() == Saved(old(OnDisk()), record, trace)
    {
      raw := raw[record.raw.runId := record.raw];
      traces := traces[record.raw.runId := trace];
      if record.evaluation.Some? {
        evaluations := evaluations[record.raw.runId := record.evaluation.value];
      }
    }

    method LoadRecord(id: string) returns (record: Option<Record>)
      ensures record == Loaded(OnDisk(), id)
    {
      if id !in raw {
        return None;
      }
      var evaluation: Option<string> := None;
      if id in evaluations {
        evaluation := Some(evaluations[id]);
      }
      record := Some(Record(raw[id], evaluation));
    }
  }

  // ---------------------------------------------------------------------

  /** Two disks hold the same three files (or lack the same ones) for one run id. */
  ghost predicate SameAt(a: Disk, b: Disk, id: string) {
    && (id in a.raw <==> id in b.raw) && (id in a.raw ==> a.raw[id] == b.raw[id])
    && (id in a.traces <==> id in b.traces) && (id in a.traces ==> a.traces[id] == b.traces[id])
    && (id in a.evaluations <==> id in b.evaluations)
    && (id in a.evaluations ==> a.evaluations[id] == b.evaluations[id])
  }

  lemma SameEverywhere(a: Disk, b: Disk)
    requires forall id :: SameAt(a, b, id)
    ensures a == b
  {
    assert forall id :: SameAt(a, b, id) ==> (id in a.raw <==> id in b.raw) && (id in a.traces <==> id in b.traces)
                                             && (id in a.evaluations <==> id in b.evaluations);
    assert a.raw == b.raw;
    assert a.traces == b.traces;
    assert a.evaluations == b.evaluations;
  }

  /** Every trace and evaluation belongs to a record, and every record sits under its own id. */
  ghost predicate WellKept(d: Disk) {
    && d.traces.Keys == d.raw.Keys
    && d.evaluations.Keys <= d.raw.Keys
    && forall id :: id in d.raw ==> d.raw[id].runId == id
  }

  lemma SaveKeepsStore(d: Disk, record: Record, trace: seq<string>)
    requires WellKept(d)
    ensures WellKept(Saved(d, record, trace))
  {
  }

  lemma SaveFrame(d: Disk, record: Record, trace: seq<string>, id: string)
    requires id != record.raw.runId
    ensures SameAt(d, Saved(d, record, trace), id)
  {
  }

  /**
   Reading a run back gives what was saved, except in one case: a record saved
   without evaluation over an id that still has an evaluation file reads back with the old one.
   */
  lemma LoadAfterSave(d: Disk, record: Record, trace: seq<string>)
    ensures Loaded(Saved(d, record, trace), record.raw.runId) == Some(record)
       <==> record.evaluation.Some? || record.raw.runId !in d.evaluations
  {
  }
}
