/**
 A campaign's export directory, the writer that fills it and the validator that
 checks it. Files are kept as the values they decode to; `None` is a missing file.
 */
module Export {
  import opened Basics
  import opened CampaignMetrics

  /** An exported execution; `body` is everything that no check reads. */
  datatype Canonical = Canonical(
    executionId: string,
    level: string,
    exec: Exec,
    repetition: Option<int>,
    scenario: string,
    limitation: Option<string>,
    trace: string,
    body: string)

  datatype Truth = Truth(scenario: string, limitation: Option<string>)

  datatype Value = Text(text: string) | Number(number: int) | Texts(texts: seq<string>) | Other(other: string)

  type Manifest = map<string, Value>

  const SCHEMA_VERSION := "1.0.0"
  const REQUIRED_FILES := ["README.md", "benchmark_manifest.json", "questions.json", "ground_truth.json",
                           "executions.jsonl", "results.json", "results.csv", "metrics.json"]

  /** The aggregate files and the per-execution ones. */
  datatype Dir = Dir(
    readme: Option<string>,
    manifest: Option<Manifest>,
    questions: Option<seq<string>>,
    groundTruth: Option<map<string, Truth>>,
    executions: Option<seq<Canonical>>,
    results: Option<seq<Canonical>>,
    csv: Option<seq<Canonical>>,
    metrics: Option<Metrics>,
    qaJson: map<string, Canonical>,
    qaMarkdown: map<string, Canonical>,
    traces: map<string, string>)

  /** One call of `write`. */
  datatype Request = Request(level: string, campaign: string, records: seq<Canonical>, planned: seq<string>,
                             extra: Manifest)

  // ---------------------------------------------------------------------
  // What `write` leaves behind

  predicate ById(a: Canonical, b: Canonical) {
    StringLe(a.executionId, b.executionId)
  }

  function Sorted(records: seq<Canonical>): seq<Canonical> {
    Sort(ById, records)
  }

  function Execs(records: seq<Canonical>): seq<Exec> {
    if records == [] then [] else Execs(records[..|records| - 1]) + [records[|records| - 1].exec]
  }

  /** The first record of each question supplies its ground truth. */
  function Truths(records: seq<Canonical>): map<string, Truth> {
    if records == [] then map[]
    else
      var front, last := Truths(records[..|records| - 1]), records[|records| - 1];
      if last.exec.questionId in front then front
      else front[last.exec.questionId := Truth(last.scenario, last.limitation)]
  }

  /** Execution files are written once; the markdown only together with the JSON. */
  function FilesWith(d: Dir, r: Canonical): Dir {
    var id := r.executionId;
    var qa := if id in d.qaJson then d else d.(qaJson := d.qaJson[id := r], qaMarkdown := d.qaMarkdown[id := r]);
    if id in qa.traces then qa else qa.(traces := qa.traces[id := r.trace])
  }

  function FilesWithAll(d: Dir, records: seq<Canonical>): Dir {
    if records == [] then d else FilesWith(FilesWithAll(d, records[..|records| - 1]), records[|records| - 1])
  }

  function ManifestOf(request: Request, n: nat): Manifest {
    map["campaign_id" := Text(request.campaign), "isa95_level" := Text(request.level),
        "output_schema_version" := Text(SCHEMA_VERSION), "n_planned_questions" := Number(|request.planned|),
        "planned_question_ids" := Texts(Sort(StringLe, request.planned)), "n_executions_exported" := Number(n)]
    + request.extra
  }

  function ReadmeOf(request: Request): string {
    request.level + " / " + request.campaign
  }

  /** The aggregate files, regenerated from the whole list. */
  function WithAggregates(d: Dir, request: Request, records: seq<Canonical>): Dir {
    d.(readme := Some(ReadmeOf(request)),
       manifest := Some(ManifestOf(request, |records|)),
       questions := Some(Sort(StringLe, request.planned)),
       groundTruth := Some(Truths(records)),
       executions := Some(records),
       results := Some(records),
       csv := Some(records),
       metrics := Some(MetricsOf(Execs(records))))
  }

  function Written(d: Dir, request: Request): Dir {
    FilesWithAll(WithAggregates(d, request, Sorted(request.records)), Sorted(request.records))
  }

  function WrittenAll(d: Dir, requests: seq<Request>): Dir {
    if requests == [] then d else Written(WrittenAll(d, requests[..|requests| - 1]), requests[|requests| - 1])
  }

  // ---------------------------------------------------------------------
  // What `validate_export` reports

  datatype Issue =
    | MissingFile(name: string)
    | DuplicateIds(ids: set<string>)
    | ResultsDisagree(jsonl: nat, results: nat)
    | ManifestDisagrees
    | CsvDisagrees(csv: nat)
    | WrongLevel(offLevel: seq<string>)
    | DuplicatePairs(pairs: set<Pair>)
    | MissingExecutionFile(folder: string, id: string)
    | NoGroundTruth(count: nat)

  datatype Validation = Validation(executions: nat, issues: seq<Issue>)

  predicate IsValid(v: Validation) {
    v.issues == []
  }

  /** Question and repetition. */
  type Pair = (string, Option<int>)

  function Exists(d: Dir, name: string): bool {
    if name == "README.md" then d.readme.Some?
    else if name == "benchmark_manifest.json" then d.manifest.Some?
    else if name == "questions.json" then d.questions.Some?
    else if name == "ground_truth.json" then d.groundTruth.Some?
    else if name == "executions.jsonl" then d.executions.Some?
    else if name == "results.json" then d.results.Some?
    else if name == "results.csv" then d.csv.Some?
    else name == "metrics.json" && d.metrics.Some?
  }

  function Missing(d: Dir, names: seq<string>): seq<Issue> {
    if names == [] then []
    else Missing(d, names[..|names| - 1])
         + (if Exists(d, names[|names| - 1]) then [] else [MissingFile(names[|names| - 1])])
  }

  function IdOf(r: Canonical): string {
    r.executionId
  }

  function Ids(records: seq<Canonical>): seq<string> {
    MapAll(IdOf, records)
  }

  function PairOf(r: Canonical): Pair {
    (r.exec.questionId, r.repetition)
  }

  function Pairs(records: seq<Canonical>): seq<Pair> {
    MapAll(PairOf, records)
  }

  function OffLevel(records: seq<Canonical>, level: Option<Value>): seq<string> {
    if records == [] then []
    else
      var last := records[|records| - 1];
      OffLevel(records[..|records| - 1], level) + (if level == Some(Text(last.level)) then [] else [last.executionId])
  }

  function MissingExecutionFiles(d: Dir, records: seq<Canonical>): seq<Issue> {
    if records == [] then []
    else
      var id := records[|records| - 1].executionId;
      MissingExecutionFiles(d, records[..|records| - 1])
      + (if id in d.qaJson then [] else [MissingExecutionFile("q_and_a", id)])
      + (if id in d.traces then [] else [MissingExecutionFile("traces", id)])
  }

  predicate Limited(t: Truth) {
    t.limitation.Some? && t.limitation.value != ""
  }

  function Unfounded(records: seq<Canonical>, truths: map<string, Truth>): set<string> {
    set r | r in records && (r.exec.questionId !in truths || Limited(truths[r.exec.questionId])) :: r.exec.questionId
  }

  function Lookup(m: Manifest, key: string): Option<Value> {
    if key in m then Some(m[key]) else None
  }

  predicate HasAllFiles(d: Dir) {
    forall name :: name in REQUIRED_FILES ==> Exists(d, name)
  }

  /** Everything decoded that the checks compare. */
  datatype Contents = Contents(records: seq<Canonical>, results: nat, csv: nat, manifest: Manifest,
                               truths: map<string, Truth>)

  function CountIssues(c: Contents): seq<Issue> {
    (if Repeated(Ids(c.records)) != {} then [DuplicateIds(Repeated(Ids(c.records)))] else [])
    + (if |c.records| != c.results then [ResultsDisagree(|c.records|, c.results)] else [])
    + (if Lookup(c.manifest, "n_executions_exported") != Some(Number(|c.records|)) then [ManifestDisagrees] else [])
    + (if c.csv != |c.records| then [CsvDisagrees(c.csv)] else [])
  }

  function RecordIssues(c: Contents, d: Dir): seq<Issue> {
    var off := OffLevel(c.records, Lookup(c.manifest, "isa95_level"));
    (if off != [] then [WrongLevel(off)] else [])
    + (if Repeated(Pairs(c.records)) != {} then [DuplicatePairs(Repeated(Pairs(c.records)))] else [])
    + MissingExecutionFiles(d, c.records)
    + (if Unfounded(c.records, c.truths) != {} then [NoGroundTruth(|Unfounded(c.records, c.truths)|)] else [])
  }

  function ContentsOf(d: Dir): Contents
    requires d.executions.Some? && d.results.Some? && d.csv.Some? && d.manifest.Some? && d.groundTruth.Some?
  {
    Contents(d.executions.value, |d.results.value|, |d.csv.value|, d.manifest.value, d.groundTruth.value)
  }

  lemma NothingMissing(d: Dir)
    ensures Missing(d, REQUIRED_FILES) == [] <==> HasAllFiles(d)
  {
    MissingNone(d, REQUIRED_FILES);
  }

  lemma {:induction false} MissingNone(d: Dir, names: seq<string>)
    ensures Missing(d, names) == [] <==> forall name :: name in names ==> Exists(d, name)
  {
    if names != [] {
      MissingNone(d, names[..|names| - 1]);
      assert names == names[..|names| - 1] + [names[|names| - 1]];
    }
  }

  lemma CoreFiles(d: Dir)
    ensures HasAllFiles(d)
            ==> d.executions.Some? && d.results.Some? && d.csv.Some? && d.manifest.Some? && d.groundTruth.Some?
  {
    assert REQUIRED_FILES[1] == "benchmark_manifest.json" && REQUIRED_FILES[3] == "ground_truth.json";
    assert REQUIRED_FILES[4] == "executions.jsonl" && REQUIRED_FILES[5] == "results.json"
           && REQUIRED_FILES[6] == "results.csv";
    assert HasAllFiles(d)
           ==> Exists(d, REQUIRED_FILES[1]) && Exists(d, REQUIRED_FILES[3]) && Exists(d, REQUIRED_FILES[4])
                              && Exists(d, REQUIRED_FILES[5]) && Exists(d, REQUIRED_FILES[6]);
  }

  /** Without the core files nothing further is checked. */
  function Validated(d: Dir): Validation {
    var missing := Missing(d, REQUIRED_FILES);
    if missing != [] then Validation(0, missing)
    else
      NothingMissing(d);
      CoreFiles(d);
      var c := ContentsOf(d);
      Validation(|c.records|, CountIssues(c) + RecordIssues(c, d))
  }

  // ---------------------------------------------------------------------
  // Execution files are immutable

  /** The aggregate files alone. */
  function CoreOf(d: Dir): Dir {
    d.(qaJson := map[], qaMarkdown := map[], traces := map[])
  }

  /** Nothing that was there has changed. */
  ghost predicate Keeps<T>(before: map<string, T>, after: map<string, T>) {
    forall id :: id in before ==> id in after && after[id] == before[id]
  }

  ghost predicate Immutable(before: Dir, after: Dir) {
    Keeps(before.qaJson, after.qaJson) && Keeps(before.traces, after.traces)
  }

  /** Markdown files exist only beside their JSON. */
  ghost predicate Paired(d: Dir) {
    d.qaMarkdown.Keys == d.qaJson.Keys
  }

  lemma FileIsKept(d: Dir, r: Canonical)
    ensures Immutable(d, FilesWith(d, r)) && CoreOf(FilesWith(d, r)) == CoreOf(d)
    ensures Paired(d) ==> Paired(FilesWith(d, r)) && Keeps(d.qaMarkdown, FilesWith(d, r).qaMarkdown)
    ensures r.executionId in FilesWith(d, r).qaJson && r.executionId in FilesWith(d, r).traces
  {
  }

  lemma {:induction false} FilesAreKept(d: Dir, records: seq<Canonical>)
    ensures Immutable(d, FilesWithAll(d, records)) && CoreOf(FilesWithAll(d, records)) == CoreOf(d)
    ensures Paired(d) ==> Paired(FilesWithAll(d, records)) && Keeps(d.qaMarkdown, FilesWithAll(d, records).qaMarkdown)
    ensures forall r :: r in records
              ==> r.executionId in FilesWithAll(d, records).qaJson && r.executionId in FilesWithAll(d, records).traces
  {
    if records != [] {
      FilesAreKept(d, records[..|records| - 1]);
      FileIsKept(FilesWithAll(d, records[..|records| - 1]), records[|records| - 1]);
      assert records == records[..|records| - 1] + [records[|records| - 1]];
    }
  }

  /** Whatever is exported afterwards, an execution's files keep the content they were first written with. */
  lemma {:induction false} HistoryKeepsExecutions(d: Dir, requests: seq<Request>)
    ensures Immutable(d, WrittenAll(d, requests))
    ensures Paired(d) ==> Paired(WrittenAll(d, requests)) && Keeps(d.qaMarkdown, WrittenAll(d, requests).qaMarkdown)
  {
    if requests != [] {
      var last := requests[|requests| - 1];
      HistoryKeepsExecutions(d, requests[..|requests| - 1]);
      var before := WrittenAll(d, requests[..|requests| - 1]);
      WriteKeepsExecutions(before, last);
    }
  }

  lemma WriteKeepsExecutions(d: Dir, request: Request)
    ensures Immutable(d, Written(d, request))
    ensures Paired(d) ==> Paired(Written(d, request)) && Keeps(d.qaMarkdown, Written(d, request).qaMarkdown)
    ensures forall r :: r in Sorted(request.records)
              ==> r.executionId in Written(d, request).qaJson && r.executionId in Written(d, request).traces
  {
    FilesAreKept(WithAggregates(d, request, Sorted(request.records)), Sorted(request.records));
  }

  // ---------------------------------------------------------------------
  // What the validator checks, one by one

  lemma {:induction false} OffLevelNone(records: seq<Canonical>, level: Option<Value>)
    ensures OffLevel(records, level) == [] <==> forall r :: r in records ==> level == Some(Text(r.level))
  {
    if records != [] {
      OffLevelNone(records[..|records| - 1], level);
      assert records == records[..|records| - 1] + [records[|records| - 1]];
    }
  }

  lemma {:induction false} ExecutionFilesPresent(d: Dir, records: seq<Canonical>)
    ensures MissingExecutionFiles(d, records) == []
       <==> forall r :: r in records ==> r.executionId in d.qaJson && r.executionId in d.traces
  {
    if records != [] {
      ExecutionFilesPresent(d, records[..|records| - 1]);
      assert records == records[..|records| - 1] + [records[|records| - 1]];
    }
  }

  /** Record `i` is the first of its question. */
  ghost predicate FirstOfQuestion(records: seq<Canonical>, i: int) {
    0 <= i < |records| && forall j :: 0 <= j < i ==> records[j].exec.questionId != records[i].exec.questionId
  }

  predicate Usable(r: Canonical) {
    r.limitation.None? || r.limitation.value == ""
  }

  lemma {:induction false} TruthOfFirst(records: seq<Canonical>, q: string) returns (i: int)
    ensures q in Truths(records) <==> FirstOfQuestion(records, i) && records[i].exec.questionId == q
    ensures q in Truths(records) ==> Truths(records)[q] == Truth(records[i].scenario, records[i].limitation)
    ensures q !in Truths(records) ==> forall r :: r in records ==> r.exec.questionId != q
  {
    i := -1;
    if records != [] {
      var front, last := records[..|records| - 1], records[|records| - 1];
      assert records == front + [last];
      i := TruthOfFirst(front, q);
      if q !in Truths(front) && last.exec.questionId == q {
        i := |front|;
        assert forall j :: 0 <= j < i ==> records[j] in front;
      }
    }
  }

  /** Every executed question has usable ground truth exactly when each question's first record has. */
  lemma FoundedIffFirstUsable(records: seq<Canonical>)
    ensures Unfounded(records, Truths(records)) == {}
       <==> forall i :: FirstOfQuestion(records, i) ==> Usable(records[i])
  {
    var truths := Truths(records);
    forall r | r in records
      ensures r.exec.questionId in truths
    {
      var i := TruthOfFirst(records, r.exec.questionId);
    }
    if Unfounded(records, truths) == {} {
      forall i | FirstOfQuestion(records, i) ensures Usable(records[i]) {
        var q := records[i].exec.questionId;
        var j := TruthOfFirst(records, q);
        assert records[i] in records;
        assert j == i;
        assert q !in Unfounded(records, truths);
      }
    }
    if forall i :: FirstOfQuestion(records, i) ==> Usable(records[i]) {
      forall r | r in records ensures !Limited(truths[r.exec.questionId]) {
        var i := TruthOfFirst(records, r.exec.questionId);
      }
      assert Unfounded(records, truths) == {};
    }
  }

  // ---------------------------------------------------------------------
  // Sorting changes neither ids nor pairs

  lemma SameRepeats<T>(a: seq<T>, b: seq<T>)
    requires multiset(a) == multiset(b)
    ensures Repeated(a) == Repeated(b)
  {
    assert forall x :: x in a <==> x in multiset(a);
    assert forall x :: x in b <==> x in multiset(b);
  }

  lemma ByIdIsPreorder()
    ensures Preorder(ById)
  {
    StringOrder();
    forall a: Canonical, b: Canonical, c: Canonical | ById(a, b) && ById(b, c) ensures ById(a, c) {
      assert StringLt(a.executionId, b.executionId) || a.executionId == b.executionId;
      assert StringLt(b.executionId, c.executionId) || b.executionId == c.executionId;
    }
  }

  // ---------------------------------------------------------------------
  // The writer satisfies the validator

  /** What a request must meet; nothing in it depends on what was in the directory before. */
  ghost predicate ExportOk(request: Request) {
    var records := request.records;
    var manifest := ManifestOf(request, |records|);
    && Distinct(Ids(records)) && Distinct(Pairs(records))
    && Lookup(manifest, "n_executions_exported") == Some(Number(|records|))
    && (forall r :: r in records ==> Lookup(manifest, "isa95_level") == Some(Text(r.level)))
    && (forall i :: FirstOfQuestion(Sorted(records), i) ==> Usable(Sorted(records)[i]))
  }

  lemma SameCore(a: Dir, b: Dir)
    requires CoreOf(a) == CoreOf(b)
    ensures HasAllFiles(a) <==> HasAllFiles(b)
    ensures a.executions == b.executions && a.results == b.results && a.csv == b.csv && a.manifest == b.manifest
            && a.groundTruth == b.groundTruth
  {
    assert a.readme == CoreOf(a).readme && a.manifest == CoreOf(a).manifest && a.questions == CoreOf(a).questions
        && a.groundTruth == CoreOf(a).groundTruth && a.executions == CoreOf(a).executions
        && a.results == CoreOf(a).results
        && a.csv == CoreOf(a).csv && a.metrics == CoreOf(a).metrics;
    forall name ensures Exists(a, name) == Exists(b, name) {
    }
  }

  lemma {:induction false} WrittenContents(d: Dir, request: Request)
    ensures HasAllFiles(Written(d, request))
    ensures var w, records := Written(d, request), Sorted(request.records);
            && w.executions == Some(records) && w.results == Some(records) && w.csv == Some(records)
            && w.manifest == Some(ManifestOf(request, |records|)) && w.groundTruth == Some(Truths(records))
  {
    var core := WithAggregates(d, request, Sorted(request.records));
    FilesAreKept(core, Sorted(request.records));
    SameCore(Written(d, request), core);
  }

  lemma CountsAgree(c: Contents)
    requires c.results == |c.records| == c.csv
    ensures CountIssues(c) == []
       <==> Distinct(Ids(c.records)) && Lookup(c.manifest, "n_executions_exported") == Some(Number(|c.records|))
  {
    RepeatedNone(Ids(c.records));
  }

  lemma RecordsAgree(c: Contents, d: Dir)
    requires c.truths == Truths(c.records)
    requires forall r :: r in c.records ==> r.executionId in d.qaJson && r.executionId in d.traces
    ensures RecordIssues(c, d) == []
       <==> (forall r :: r in c.records ==> Lookup(c.manifest, "isa95_level") == Some(Text(r.level)))
            && Distinct(Pairs(c.records))
            && (forall i :: FirstOfQuestion(c.records, i) ==> Usable(c.records[i]))
  {
    OffLevelNone(c.records, Lookup(c.manifest, "isa95_level"));
    RepeatedNone(Pairs(c.records));
    ExecutionFilesPresent(d, c.records);
    FoundedIffFirstUsable(c.records);
  }

  /** With every file there, valid means that neither group of checks reports anything. */
  lemma ValidIff(d: Dir)
    requires HasAllFiles(d)
    ensures d.executions.Some? && d.results.Some? && d.csv.Some? && d.manifest.Some? && d.groundTruth.Some?
    ensures IsValid(Validated(d)) <==> CountIssues(ContentsOf(d)) == [] && RecordIssues(ContentsOf(d), d) == []
  {
    NothingMissing(d);
    CoreFiles(d);
    var counts, records := CountIssues(ContentsOf(d)), RecordIssues(ContentsOf(d), d);
    assert counts + records == [] <==> counts == [] && records == [];
  }

  /** Sorting a request's records changes nothing that the checks count. */
  lemma SortedRequest(request: Request)
    ensures |Sorted(request.records)| == |request.records|
    ensures forall r :: r in Sorted(request.records) <==> r in request.records
    ensures Distinct(Ids(Sorted(request.records))) <==> Distinct(Ids(request.records))
    ensures Distinct(Pairs(Sorted(request.records))) <==> Distinct(Pairs(request.records))
  {
    var records := Sorted(request.records);
    ByIdIsPreorder();
    SortMembers(ById, request.records);
    SortProperties(ById, request.records);
    SortMapped(ById, IdOf, request.records);
    SortMapped(ById, PairOf, request.records);
    SameDistinct(Ids(records), Ids(request.records));
    SameDistinct(Pairs(records), Pairs(request.records));
  }

  lemma SameDistinct<T>(a: seq<T>, b: seq<T>)
    requires multiset(a) == multiset(b)
    ensures Distinct(a) <==> Distinct(b)
  {
    SameRepeats(a, b);
    RepeatedNone(a);
    RepeatedNone(b);
  }

  /** What the validator demands of what was written, over the sorted records. */
  lemma {:induction false} WrittenValidIff(d: Dir, request: Request)
    ensures var records, manifest := Sorted(request.records), ManifestOf(request, |Sorted(request.records)|);
            IsValid(Validated(Written(d, request)))
            == (Distinct(Ids(records)) && Lookup(manifest, "n_executions_exported") == Some(Number(|records|))
                && (forall r :: r in records ==> Lookup(manifest, "isa95_level") == Some(Text(r.level)))
                && Distinct(Pairs(records))
                && (forall i :: FirstOfQuestion(records, i) ==> Usable(records[i])))
  {
    var w := Written(d, request);
    WrittenContents(d, request);
    ValidIff(w);
    WriteKeepsExecutions(d, request);
    CountsAgree(ContentsOf(w));
    RecordsAgree(ContentsOf(w), w);
  }

  /** After `write`, the independent validator accepts the directory exactly when the request meets `ExportOk`. */
  lemma {:induction false} WriterSatisfiesValidator(d: Dir, request: Request)
    ensures IsValid(Validated(Written(d, request))) <==> ExportOk(request)
  {
    SortedRequest(request);
    WrittenValidIff(d, request);
  }

  lemma PlainManifest(request: Request, n: nat)
    requires "n_executions_exported" !in request.extra && "isa95_level" !in request.extra
    ensures Lookup(ManifestOf(request, n), "n_executions_exported") == Some(Number(n))
    ensures Lookup(ManifestOf(request, n), "isa95_level") == Some(Text(request.level))
  {
  }

  /**
   When the extra manifest entries touch neither checked key, the directory is valid exactly for distinct,
   same-level, well-founded records.
   */
  lemma PlainRequestValidates(d: Dir, request: Request)
    requires "n_executions_exported" !in request.extra && "isa95_level" !in request.extra
    ensures IsValid(Validated(Written(d, request)))
       <==> Distinct(Ids(request.records)) && Distinct(Pairs(request.records))
            && (forall r :: r in request.records ==> r.level == request.level)
            && (forall i :: FirstOfQuestion(Sorted(request.records), i) ==> Usable(Sorted(request.records)[i]))
  {
    WriterSatisfiesValidator(d, request);
    PlainManifest(request, |request.records|);
  }

  // ---------------------------------------------------------------------
  // When an execution's own files agree with the exported execution

  /** The files of one kind once those missing are added: the first record of an id writes it. */
  function AddMissing<T>(files: map<string, T>, records: seq<Canonical>, content: Canonical -> T): map<string, T> {
    if records == [] then files
    else
      var front, last := AddMissing(files, records[..|records| - 1], content), records[|records| - 1];
      if last.executionId in front then front else front[last.executionId := content(last)]
  }

  function Itself(r: Canonical): Canonical {
    r
  }

  function TraceOf(r: Canonical): string {
    r.trace
  }

  lemma {:induction false} FilesAreAdded(d: Dir, records: seq<Canonical>)
    ensures FilesWithAll(d, records).qaJson == AddMissing(d.qaJson, records, Itself)
    ensures FilesWithAll(d, records).traces == AddMissing(d.traces, records, TraceOf)
  {
    if records != [] {
      FilesAreAdded(d, records[..|records| - 1]);
    }
  }

  lemma {:induction false} MarkdownIsAdded(d: Dir, records: seq<Canonical>)
    requires Paired(d)
    ensures FilesWithAll(d, records).qaMarkdown == AddMissing(d.qaMarkdown, records, Itself)
  {
    if records != [] {
      MarkdownIsAdded(d, records[..|records| - 1]);
      FilesAreKept(d, records[..|records| - 1]);
    }
  }

  /** A file that was there keeps its content; a new one holds that of some record with its id. */
  lemma {:induction false} AddedContent<T>(files: map<string, T>, records: seq<Canonical>, content: Canonical -> T,
                                           r: Canonical)
    returns (writer: Canonical)
    requires r in records
    ensures writer in records && writer.executionId == r.executionId
            && r.executionId in AddMissing(files, records, content)
    ensures AddMissing(files, records, content)[r.executionId]
         == if r.executionId in files then files[r.executionId] else content(writer)
  {
    var front, last := records[..|records| - 1], records[|records| - 1];
    assert records == front + [last];
    writer := last;
    if q :| q in front && q.executionId == r.executionId {
      writer := AddedContent(files, front, content, q);
    } else {
      NothingAdded(files, front, content, r.executionId);
    }
  }

  lemma {:induction false} NothingAdded<T>(files: map<string, T>, records: seq<Canonical>, content: Canonical -> T,
                                           id: string)
    requires forall r :: r in records ==> r.executionId != id
    ensures id in AddMissing(files, records, content) <==> id in files
    ensures id in files ==> AddMissing(files, records, content)[id] == files[id]
  {
    if records != [] {
      assert records[|records| - 1] in records;
      NothingAdded(files, records[..|records| - 1], content, id);
    }
  }

  /** Every listed record's file is there and holds that record's content. */
  ghost predicate FilesAgree<T>(files: map<string, T>, records: seq<Canonical>, content: Canonical -> T) {
    forall r :: r in records ==> r.executionId in files && files[r.executionId] == content(r)
  }

  /** What was there already holds the new content. */
  ghost predicate NothingStale<T>(files: map<string, T>, records: seq<Canonical>, content: Canonical -> T) {
    forall r :: r in records && r.executionId in files ==> files[r.executionId] == content(r)
  }

  /** Records that share an id have the same content. */
  ghost predicate IdFixesContent<T>(records: seq<Canonical>, content: Canonical -> T) {
    forall q, r :: q in records && r in records && q.executionId == r.executionId ==> content(q) == content(r)
  }

  lemma AddedAgreeIff<T>(files: map<string, T>, records: seq<Canonical>, content: Canonical -> T)
    ensures FilesAgree(AddMissing(files, records, content), records, content)
       <==> NothingStale(files, records, content) && IdFixesContent(records, content)
  {
    var added := AddMissing(files, records, content);
    if FilesAgree(added, records, content) {
      forall r | r in records && r.executionId in files ensures files[r.executionId] == content(r) {
        var w := AddedContent(files, records, content, r);
      }
      forall q, r | q in records && r in records && q.executionId == r.executionId ensures content(q) == content(r) {
        assert added[q.executionId] == content(q) && added[r.executionId] == content(r);
      }
    }
    if NothingStale(files, records, content) && IdFixesContent(records, content) {
      forall r | r in records ensures r.executionId in added && added[r.executionId] == content(r) {
        var w := AddedContent(files, records, content, r);
      }
    }
  }

  lemma SameMembersAgree<T>(a: seq<Canonical>, b: seq<Canonical>, before: map<string, T>, after: map<string, T>,
                            content: Canonical -> T)
    requires forall r :: r in a <==> r in b
    ensures FilesAgree(after, a, content) <==> FilesAgree(after, b, content)
    ensures NothingStale(before, a, content) <==> NothingStale(before, b, content)
    ensures IdFixesContent(a, content) <==> IdFixesContent(b, content)
  {
  }

  /**
   After `write`, each listed execution's own JSON file, and its trace, hold what was exported exactly when no
   older file differs from it and records that share an id do not differ from one another.
   */
  lemma ExecutionFilesAgreeIff(d: Dir, request: Request)
    ensures FilesAgree(Written(d, request).qaJson, request.records, Itself)
       <==> NothingStale(d.qaJson, request.records, Itself) && IdFixesContent(request.records, Itself)
    ensures FilesAgree(Written(d, request).traces, request.records, TraceOf)
       <==> NothingStale(d.traces, request.records, TraceOf)
            && IdFixesContent(request.records, TraceOf)
    ensures Paired(d) ==>
              (FilesAgree(Written(d, request).qaMarkdown, request.records, Itself)
          <==> NothingStale(d.qaMarkdown, request.records, Itself)
               && IdFixesContent(request.records, Itself))
  {
    var records := Sorted(request.records);
    ByIdIsPreorder();
    SortMembers(ById, request.records);
    FilesAreAdded(WithAggregates(d, request, records), records);
    if Paired(d) {
      MarkdownIsAdded(WithAggregates(d, request, records), records);
    }
    AddedAgreeIff(d.qaJson, records, Itself);
    AddedAgreeIff(d.traces, records, TraceOf);
    AddedAgreeIff(d.qaMarkdown, records, Itself);
    SameMembersAgree(records, request.records, d.qaJson, Written(d, request).qaJson, Itself);
    SameMembersAgree(records, request.records, d.traces, Written(d, request).traces, TraceOf);
    SameMembersAgree(records, request.records, d.qaMarkdown, Written(d, request).qaMarkdown, Itself);
  }

  lemma DistinctIdsFixContent<T>(records: seq<Canonical>, content: Canonical -> T)
    requires Distinct(Ids(records))
    ensures IdFixesContent(records, content)
  {
    forall q, r | q in records && r in records && q.executionId == r.executionId ensures q == r {
      var i :| 0 <= i < |records| && records[i] == q;
      var j :| 0 <= j < |records| && records[j] == r;
      MapAt(IdOf, records);
      assert Ids(records)[i] == Ids(records)[j];
    }
  }

  lemma AcceptedIdsAreDistinct(request: Request)
    requires ExportOk(request)
    ensures Distinct(Ids(request.records))
  {
  }

  /** An accepted export agrees with its executions' own files exactly when no older file differs. */
  lemma AcceptedExportAgreesIff(d: Dir, request: Request)
    requires ExportOk(request)
    ensures IsValid(Validated(Written(d, request)))
    ensures FilesAgree(Written(d, request).qaJson, request.records, Itself)
       <==> NothingStale(d.qaJson, request.records, Itself)
    ensures FilesAgree(Written(d, request).traces, request.records, TraceOf)
       <==> NothingStale(d.traces, request.records, TraceOf)
  {
    assert IsValid(Validated(Written(d, request))) by { WriterSatisfiesValidator(d, request); }
    AcceptedIdsAreDistinct(request);
    DistinctIdsFixContent(request.records, Itself);
    DistinctIdsFixContent(request.records, TraceOf);
    ExecutionFilesAgreeIff(d, request);
  }

  /**
   The validator does not compare an execution file with the execution: a re-export of a changed record
   validates and leaves the old file.
   */
  lemma StaleExecutionFilePasses(d: Dir, request: Request, r: Canonical)
    requires ExportOk(request) && r in request.records && r.executionId in d.qaJson && d.qaJson[r.executionId] != r
    ensures IsValid(Validated(Written(d, request)))
    ensures Written(d, request).executions == Some(Sorted(request.records)) && r in Sorted(request.records)
    ensures r.executionId in Written(d, request).qaJson && Written(d, request).qaJson[r.executionId] != r
  {
    WriterSatisfiesValidator(d, request);
    assert Written(d, request).executions == Some(Sorted(request.records)) by { WrittenContents(d, request); }
    assert Written(d, request).qaJson[r.executionId] == d.qaJson[r.executionId] by { WriteKeepsExecutions(d, request); }
    assert r in Sorted(request.records) by {
      ByIdIsPreorder();
      SortMembers(ById, request.records);
    }
  }

  // ---------------------------------------------------------------------
  // The writer

  class CampaignExportWriter {
    var dir: Dir

    method WriteGroundTruth(records: seq<Canonical>)
      modifies this
      ensures dir == old(dir).(groundTruth := Some(Truths(records)))
    {
      var truths: map<string, Truth> := map[];
      for i := 0 to |records|
        invariant truths == Truths(records[..i]) && dir == old(dir)
      {
        assert records[..i + 1][..i] == records[..i];
        var q := records[i].exec.questionId;
        if q !in truths {
          truths := truths[q := Truth(records[i].scenario, records[i].limitation)];
        }
      }
      assert records[..|records|] == records;
      dir := dir.(groundTruth := Some(truths));
    }

    method WritePerExecutionFiles(records: seq<Canonical>)
      modifies this
      ensures dir == FilesWithAll(old(dir), records)
    {
      for i := 0 to |records|
        invariant dir == FilesWithAll(old(dir), records[..i])
      {
        assert records[..i + 1][..i] == records[..i];
        var r := records[i];
        if r.executionId !in dir.qaJson {
          dir := dir.(qaJson := dir.qaJson[r.executionId := r]);
          dir := dir.(qaMarkdown := dir.qaMarkdown[r.executionId := r]);
        }
        if r.executionId !in dir.traces {
          dir := dir.(traces := dir.traces[r.executionId := r.trace]);
        }
      }
      assert records[..|records|] == records;
    }

    method Write(request: Request)
      modifies this
      ensures dir == Written(old(dir), request)
    {
      var records := Sorted(request.records);
      dir := dir.(questions := Some(Sort(StringLe, request.planned)));
      WriteGroundTruth(records);
      dir := dir.(executions := Some(records));
      dir := dir.(results := Some(records));
      dir := dir.(csv := Some(records));
      var metrics := BuildCampaignMetrics(Execs(records));
      dir := dir.(metrics := Some(metrics));
      ghost var before := dir;
      WritePerExecutionFiles(records);
      dir := dir.(manifest := Some(ManifestOf(request, |records|)));
      dir := dir.(readme := Some(ReadmeOf(request)));
      LateCoreFiles(before, records, ManifestOf(request, |records|), ReadmeOf(request));
    }
  }

  /** Writing the manifest and the readme before or after the execution files makes no difference. */
  lemma {:induction false} LateCoreFiles(d: Dir, records: seq<Canonical>, manifest: Manifest, readme: string)
    ensures FilesWithAll(d, records).(manifest := Some(manifest)).(readme := Some(readme))
         == FilesWithAll(d.(manifest := Some(manifest)).(readme := Some(readme)), records)
  {
    if records != [] {
      LateCoreFiles(d, records[..|records| - 1], manifest, readme);
    }
  }

  // ---------------------------------------------------------------------
  // The validator

  method CheckRequired(d: Dir) returns (issues: seq<Issue>)
    ensures issues == Missing(d, REQUIRED_FILES)
  {
    issues := [];
    for i := 0 to |REQUIRED_FILES|
      invariant issues == Missing(d, REQUIRED_FILES[..i])
    {
      assert REQUIRED_FILES[..i + 1][..i] == REQUIRED_FILES[..i];
      if !Exists(d, REQUIRED_FILES[i]) {
        issues := issues + [MissingFile(REQUIRED_FILES[i])];
      }
    }
    assert REQUIRED_FILES[..|REQUIRED_FILES|] == REQUIRED_FILES;
  }

  method CheckCounts(c: Contents) returns (issues: seq<Issue>)
    ensures issues == CountIssues(c)
  {
    issues := [];
    var repeated := Repeated(Ids(c.records));
    if repeated != {} {
      issues := issues + [DuplicateIds(repeated)];
    }
    if |c.records| != c.results {
      issues := issues + [ResultsDisagree(|c.records|, c.results)];
    }
    if Lookup(c.manifest, "n_executions_exported") != Some(Number(|c.records|)) {
      issues := issues + [ManifestDisagrees];
    }
    if c.csv != |c.records| {
      issues := issues + [CsvDisagrees(c.csv)];
    }
  }

  /** `seen_question_repetition`, then the keys counted more than once. */
  method RepeatedPairs(records: seq<Canonical>) returns (pairs: set<Pair>)
    ensures pairs == Repeated(Pairs(records))
  {
    var seen: map<Pair, nat> := map[];
    ghost var pairsSoFar: seq<Pair> := [];
    for i := 0 to |records|
      invariant pairsSoFar == Pairs(records[..i]) && Counts(seen, pairsSoFar)
    {
      var k := PairOf(records[i]);
      assert records[..i + 1][..i] == records[..i];
      CountsNext(seen, pairsSoFar, k);
      seen := seen[k := (if k in seen then seen[k] else 0) + 1];
      pairsSoFar := pairsSoFar + [k];
    }
    assert records[..|records|] == records;
    CountsRepeated(seen, pairsSoFar);
    pairs := set k | k in seen && seen[k] > 1;
  }

  method CheckExecutionFiles(d: Dir, records: seq<Canonical>) returns (issues: seq<Issue>)
    ensures issues == MissingExecutionFiles(d, records)
  {
    issues := [];
    for i := 0 to |records|
      invariant issues == MissingExecutionFiles(d, records[..i])
    {
      assert records[..i + 1][..i] == records[..i];
      var id := records[i].executionId;
      if id !in d.qaJson {
        issues := issues + [MissingExecutionFile("q_and_a", id)];
      }
      if id !in d.traces {
        issues := issues + [MissingExecutionFile("traces", id)];
      }
    }
    assert records[..|records|] == records;
  }

  method CheckRecords(c: Contents, d: Dir) returns (issues: seq<Issue>)
    ensures issues == RecordIssues(c, d)
  {
    issues := [];
    var off := OffLevel(c.records, Lookup(c.manifest, "isa95_level"));
    if off != [] {
      issues := issues + [WrongLevel(off)];
    }
    var pairs := RepeatedPairs(c.records);
    if pairs != {} {
      issues := issues + [DuplicatePairs(pairs)];
    }
    var missing := CheckExecutionFiles(d, c.records);
    issues := issues + missing;
    var unfounded := Unfounded(c.records, c.truths);
    if unfounded != {} {
      issues := issues + [NoGroundTruth(|unfounded|)];
    }
  }

  method ValidateExport(d: Dir) returns (validation: Validation)
    ensures validation == Validated(d)
  {
    var missing := CheckRequired(d);
    if missing != [] {
      return Validation(0, missing);
    }
    NothingMissing(d);
    CoreFiles(d);
    var c := ContentsOf(d);
    var counts := CheckCounts(c);
    var records := CheckRecords(c, d);
    validation := Validation(|c.records|, counts + records);
  }
}
