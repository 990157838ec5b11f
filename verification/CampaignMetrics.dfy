/**
 `build_campaign_metrics`: the export's own statistics, computed from exported
 executions only, and their agreement with the analysis of the same runs.
 */
module CampaignMetrics {
  import opened Basics
  import opened Aggregation
  import opened QuestionStats

  /** A missing name is "". */
  datatype Exec = Exec(
    questionId: string,
    useCase: string,
    category: string,
    answerType: string,
    failureMode: string,
    success: bool,
    correct: Option<bool>,
    answerScore: Option<real>,
    latency: Option<real>)

  // ---------------------------------------------------------------------
  // Counting

  type Weight = Exec -> nat

  function Each(e: Exec): nat {
    1
  }

  function IsSuccess(e: Exec): nat {
    if e.success then 1 else 0
  }

  function IsFailure(e: Exec): nat {
    if e.success then 0 else 1
  }

  function IsScored(e: Exec): nat {
    if e.answerScore.Some? then 1 else 0
  }

  function IsJudged(e: Exec): nat {
    if e.correct.Some? then 1 else 0
  }

  function IsCorrect(e: Exec): nat {
    if e.correct == Some(true) then 1 else 0
  }

  function Count(execs: seq<Exec>, weight: Weight): nat {
    if execs == [] then 0 else Count(execs[..|execs| - 1], weight) + weight(execs[|execs| - 1])
  }

  function Scores(execs: seq<Exec>): seq<real> {
    if execs == [] then []
    else
      var last := execs[|execs| - 1];
      Scores(execs[..|execs| - 1]) + (if last.answerScore.Some? then [last.answerScore.value] else [])
  }

  function Latencies(execs: seq<Exec>): seq<real> {
    if execs == [] then []
    else
      var last := execs[|execs| - 1];
      Latencies(execs[..|execs| - 1]) + (if last.latency.Some? then [last.latency.value] else [])
  }

  function Rate(part: nat, whole: nat): Option<real> {
    if whole == 0 then None else Some(part as real / whole as real)
  }

  // ---------------------------------------------------------------------
  // Breakdowns

  /** What an execution is filed under, if anything. */
  type Field = Exec -> Option<string>

  function Named(name: string): Option<string> {
    if name == "" then None else Some(name)
  }

  function ByQuestion(e: Exec): Option<string> {
    Some(e.questionId)
  }

  function ByUseCase(e: Exec): Option<string> {
    Named(e.useCase)
  }

  function ByCategory(e: Exec): Option<string> {
    Named(e.category)
  }

  function ByAnswerType(e: Exec): Option<string> {
    Named(e.answerType)
  }

  function ByFailureMode(e: Exec): Option<string> {
    Some(if e.failureMode == "" then "none" else e.failureMode)
  }

  function FiledUnder(execs: seq<Exec>, field: Field, k: string): seq<Exec> {
    if execs == [] then []
    else
      var last := execs[|execs| - 1];
      FiledUnder(execs[..|execs| - 1], field, k) + (if field(last) == Some(k) then [last] else [])
  }

  /** In order of first appearance, a dictionary's insertion order. */
  function Names(execs: seq<Exec>, field: Field): seq<string> {
    if execs == [] then []
    else
      var front, k := Names(execs[..|execs| - 1], field), field(execs[|execs| - 1]);
      if k.None? || k.value in front then front else front + [k.value]
  }

  datatype Summary = Summary(executions: nat, scored: nat, meanScore: Option<real>, correctnessRate: Option<real>)

  function SummaryOf(execs: seq<Exec>): Summary {
    Summary(|execs|, |Scores(execs)|, MeanOf(Scores(execs)), Rate(Count(execs, IsCorrect), Count(execs, IsJudged)))
  }

  datatype Consistency = Consistency(repetitions: nat, successful: nat, correct: nat, judged: nat, ratio: Option<real>)

  function ConsistencyOf(execs: seq<Exec>): Consistency {
    Consistency(|execs|, Count(execs, IsSuccess), Count(execs, IsCorrect), Count(execs, IsJudged),
                Rate(Count(execs, IsCorrect), Count(execs, IsJudged)))
  }

  datatype Latency = Latency(n: nat, mean: Option<real>, median: Option<real>, least: Option<real>,
                             greatest: Option<real>)

  function LatencyOf(values: seq<real>): Latency {
    if values == [] then Latency(0, None, None, None, None)
    else
      var sorted := Sort(AtMost, values);
      SortProperties(AtMost, values);
      Latency(|values|, MeanOf(sorted), Some(sorted[|sorted| / 2]), Some(sorted[0]), Some(sorted[|sorted| - 1]))
  }

  function Table<T>(execs: seq<Exec>, field: Field, entry: seq<Exec> -> T): map<string, T> {
    map k | k in Names(execs, field) :: entry(FiledUnder(execs, field, k))
  }

  function MeansBy(execs: seq<Exec>, questions: seq<string>): seq<real> {
    if questions == [] then []
    else
      var scores := Scores(FiledUnder(execs, ByQuestion, questions[|questions| - 1]));
      MeansBy(execs, questions[..|questions| - 1]) + (if scores == [] then [] else [Mean(scores)])
  }

  function Size(execs: seq<Exec>): nat {
    |execs|
  }

  datatype Metrics = Metrics(
    total: nat,
    completed: nat,
    failed: nat,
    completionRate: Option<real>,
    correctnessRate: Option<real>,
    scored: nat,
    macro: Option<real>,
    micro: Option<real>,
    byQuestion: map<string, Summary>,
    byUseCase: map<string, Summary>,
    byCategory: map<string, Summary>,
    byAnswerType: map<string, Summary>,
    consistency: map<string, Consistency>,
    failureModes: map<string, nat>,
    latency: Latency)

  function MetricsOf(execs: seq<Exec>): Metrics {
    Metrics(|execs|, Count(execs, IsSuccess), Count(execs, IsFailure), Rate(Count(execs, IsSuccess), |execs|),
            Rate(Count(execs, IsCorrect), Count(execs, IsJudged)), |Scores(execs)|,
            MeanOf(MeansBy(execs, Names(execs, ByQuestion))), MeanOf(Scores(execs)),
            Table(execs, ByQuestion, SummaryOf), Table(execs, ByUseCase, SummaryOf),
            Table(execs, ByCategory, SummaryOf), Table(execs, ByAnswerType, SummaryOf),
            Table(execs, ByQuestion, ConsistencyOf), Table(execs, ByFailureMode, Size), LatencyOf(Latencies(execs)))
  }

  lemma {:induction false} NamesFacts(execs: seq<Exec>, field: Field)
    ensures Distinct(Names(execs, field))
    ensures forall e :: e in execs && field(e).Some? ==> field(e).value in Names(execs, field)
  {
    if execs != [] {
      NamesFacts(execs[..|execs| - 1], field);
      assert execs == execs[..|execs| - 1] + [execs[|execs| - 1]];
    }
  }

  lemma {:induction false} NotNamed(execs: seq<Exec>, field: Field, k: string)
    requires k !in Names(execs, field)
    ensures FiledUnder(execs, field, k) == []
  {
    if execs != [] {
      NotNamed(execs[..|execs| - 1], field, k);
    }
  }

  // ---------------------------------------------------------------------
  // Nothing is lost between a breakdown and the totals

  /** The weight of the executions that are filed at all. */
  function FiledCount(execs: seq<Exec>, field: Field, weight: Weight): nat {
    if execs == [] then 0
    else
      var last := execs[|execs| - 1];
      FiledCount(execs[..|execs| - 1], field, weight) + (if field(last).Some? then weight(last) else 0)
  }

  function CountBy(execs: seq<Exec>, field: Field, keys: seq<string>, weight: Weight): nat {
    if keys == [] then 0
    else CountBy(execs, field, keys[..|keys| - 1], weight) + Count(FiledUnder(execs, field, keys[|keys| - 1]), weight)
  }

  lemma FiledUnderSnoc(execs: seq<Exec>, last: Exec, field: Field, k: string)
    ensures FiledUnder(execs + [last], field, k)
         == FiledUnder(execs, field, k) + (if field(last) == Some(k) then [last] else [])
  {
    assert (execs + [last])[..|execs|] == execs;
  }

  lemma NamesSnoc(execs: seq<Exec>, last: Exec, field: Field)
    ensures var before, after := Names(execs, field), Names(execs + [last], field);
            after == if field(last).None? || field(last).value in before then before else before + [field(last).value]
  {
    assert (execs + [last])[..|execs|] == execs;
  }

  lemma CountSnoc(execs: seq<Exec>, last: Exec, weight: Weight)
    ensures Count(execs + [last], weight) == Count(execs, weight) + weight(last)
  {
    assert (execs + [last])[..|execs|] == execs;
  }

  lemma OneMoreUnder(execs: seq<Exec>, last: Exec, field: Field, k: string, weight: Weight)
    ensures Count(FiledUnder(execs + [last], field, k), weight)
         == Count(FiledUnder(execs, field, k), weight) + (if field(last) == Some(k) then weight(last) else 0)
  {
    FiledUnderSnoc(execs, last, field, k);
    if field(last) == Some(k) {
      CountSnoc(FiledUnder(execs, field, k), last, weight);
    } else {
      assert FiledUnder(execs, field, k) + [] == FiledUnder(execs, field, k);
    }
  }

  lemma CountBySnoc(execs: seq<Exec>, field: Field, front: seq<string>, k: string, weight: Weight)
    ensures CountBy(execs, field, front + [k], weight)
         == CountBy(execs, field, front, weight) + Count(FiledUnder(execs, field, k), weight)
  {
    assert (front + [k])[..|front|] == front;
  }

  lemma {:induction false} OneMoreExec(execs: seq<Exec>, last: Exec, field: Field, keys: seq<string>, weight: Weight)
    requires Distinct(keys)
    ensures CountBy(execs + [last], field, keys, weight)
         == CountBy(execs, field, keys, weight)
           + (if field(last).Some? && field(last).value in keys then weight(last) else 0)
    decreases |keys|
  {
    if keys != [] {
      var front, k := keys[..|keys| - 1], keys[|keys| - 1];
      assert keys == front + [k] && k !in front;
      OneMoreExec(execs, last, field, front, weight);
      OneMoreUnder(execs, last, field, k, weight);
      CountBySnoc(execs, field, front, k, weight);
      CountBySnoc(execs + [last], field, front, k, weight);
    }
  }

  lemma {:induction false} NothingToCount(field: Field, keys: seq<string>, weight: Weight)
    ensures CountBy([], field, keys, weight) == 0
  {
    if keys != [] {
      NothingToCount(field, keys[..|keys| - 1], weight);
    }
  }

  /** Summing any weight key by key over distinct keys that cover the filed executions gives their weight. */
  lemma {:induction false} BreakdownConserves(execs: seq<Exec>, field: Field, keys: seq<string>, weight: Weight)
    requires Distinct(keys) && forall e :: e in execs && field(e).Some? ==> field(e).value in keys
    ensures CountBy(execs, field, keys, weight) == FiledCount(execs, field, weight)
    decreases |execs|
  {
    if execs == [] {
      NothingToCount(field, keys, weight);
    } else {
      var front, last := execs[..|execs| - 1], execs[|execs| - 1];
      assert execs == front + [last];
      BreakdownConserves(front, field, keys, weight);
      OneMoreExec(front, last, field, keys, weight);
    }
  }

  lemma {:induction false} AllFiled(execs: seq<Exec>, field: Field, weight: Weight)
    requires forall e :: e in execs ==> field(e).Some?
    ensures FiledCount(execs, field, weight) == Count(execs, weight)
  {
    if execs != [] {
      assert execs == execs[..|execs| - 1] + [execs[|execs| - 1]];
      AllFiled(execs[..|execs| - 1], field, weight);
    }
  }

  /** One column of a reported table, added up. */
  function Column<T>(table: map<string, T>, keys: seq<string>, value: T -> nat): nat
    requires forall k :: k in keys ==> k in table
  {
    if keys == [] then 0 else Column(table, keys[..|keys| - 1], value) + value(table[keys[|keys| - 1]])
  }

  lemma {:induction false} ColumnCounts<T>(execs: seq<Exec>, field: Field, table: map<string, T>, keys: seq<string>,
                                           value: T -> nat, weight: Weight)
    requires forall k :: k in keys ==> k in table && value(table[k]) == Count(FiledUnder(execs, field, k), weight)
    ensures Column(table, keys, value) == CountBy(execs, field, keys, weight)
  {
    if keys != [] {
      assert keys == keys[..|keys| - 1] + [keys[|keys| - 1]];
      ColumnCounts(execs, field, table, keys[..|keys| - 1], value, weight);
    }
  }

  /** A column that counts within each entry adds up to the count over all filed executions. */
  lemma TableAddsUp<T>(execs: seq<Exec>, field: Field, entry: seq<Exec> -> T, value: T -> nat, weight: Weight)
    requires forall k :: k in Names(execs, field)
               ==> value(entry(FiledUnder(execs, field, k))) == Count(FiledUnder(execs, field, k), weight)
    ensures Column(Table(execs, field, entry), Names(execs, field), value) == FiledCount(execs, field, weight)
  {
    NamesFacts(execs, field);
    ColumnCounts(execs, field, Table(execs, field, entry), Names(execs, field), value, weight);
    BreakdownConserves(execs, field, Names(execs, field), weight);
  }

  lemma {:induction false} CountsAreLengths(execs: seq<Exec>)
    ensures Count(execs, Each) == |execs| && Count(execs, IsScored) == |Scores(execs)|
  {
    if execs != [] {
      CountsAreLengths(execs[..|execs| - 1]);
    }
  }

  lemma {:induction false} OutcomesPartition(execs: seq<Exec>)
    ensures Count(execs, IsSuccess) + Count(execs, IsFailure) == |execs|
    ensures Count(execs, IsCorrect) <= Count(execs, IsJudged) <= |execs|
  {
    if execs != [] {
      OutcomesPartition(execs[..|execs| - 1]);
    }
  }

  function ExecutionsIn(s: Summary): nat {
    s.executions
  }

  function ScoredIn(s: Summary): nat {
    s.scored
  }

  function SuccessfulIn(c: Consistency): nat {
    c.successful
  }

  function JudgedIn(c: Consistency): nat {
    c.judged
  }

  function CountIn(n: nat): nat {
    n
  }

  /** Each breakdown accounts for exactly the executions, and the scores, of those that have the name it files by. */
  lemma BreakdownAddsUp(execs: seq<Exec>, field: Field)
    ensures Column(Table(execs, field, SummaryOf), Names(execs, field), ExecutionsIn) == FiledCount(execs, field, Each)
    ensures Column(Table(execs, field, SummaryOf), Names(execs, field), ScoredIn) == FiledCount(execs, field, IsScored)
  {
    forall k | k in Names(execs, field)
      ensures ExecutionsIn(SummaryOf(FiledUnder(execs, field, k))) == Count(FiledUnder(execs, field, k), Each)
      ensures ScoredIn(SummaryOf(FiledUnder(execs, field, k))) == Count(FiledUnder(execs, field, k), IsScored)
    {
      CountsAreLengths(FiledUnder(execs, field, k));
    }
    TableAddsUp(execs, field, SummaryOf, ExecutionsIn, Each);
    TableAddsUp(execs, field, SummaryOf, ScoredIn, IsScored);
  }

  /** The per-question breakdown, the repetition table and the failure modes account for every execution. */
  lemma MetricsAddUp(execs: seq<Exec>)
    ensures MetricsOf(execs).completed + MetricsOf(execs).failed == MetricsOf(execs).total == |execs|
    ensures var m, questions := MetricsOf(execs), Names(execs, ByQuestion);
            && Column(m.byQuestion, questions, ExecutionsIn) == m.total
            && Column(m.byQuestion, questions, ScoredIn) == m.scored
            && Column(m.consistency, questions, SuccessfulIn) == m.completed
            && Column(m.consistency, questions, JudgedIn) == Count(execs, IsJudged)
    ensures Column(MetricsOf(execs).failureModes, Names(execs, ByFailureMode), CountIn) == MetricsOf(execs).total
  {
    OutcomesPartition(execs);
    CountsAreLengths(execs);
    BreakdownAddsUp(execs, ByQuestion);
    AllFiled(execs, ByQuestion, Each);
    AllFiled(execs, ByQuestion, IsScored);
    ConsistencyAddsUp(execs);
    FailureModesAddUp(execs);
  }

  lemma ConsistencyAddsUp(execs: seq<Exec>)
    ensures Column(Table(execs, ByQuestion, ConsistencyOf), Names(execs, ByQuestion), SuccessfulIn)
         == Count(execs, IsSuccess)
    ensures Column(Table(execs, ByQuestion, ConsistencyOf), Names(execs, ByQuestion), JudgedIn)
         == Count(execs, IsJudged)
  {
    TableAddsUp(execs, ByQuestion, ConsistencyOf, SuccessfulIn, IsSuccess);
    TableAddsUp(execs, ByQuestion, ConsistencyOf, JudgedIn, IsJudged);
    AllFiled(execs, ByQuestion, IsSuccess);
    AllFiled(execs, ByQuestion, IsJudged);
  }

  lemma FailureModesAddUp(execs: seq<Exec>)
    ensures Column(Table(execs, ByFailureMode, Size), Names(execs, ByFailureMode), CountIn) == |execs|
  {
    forall k | k in Names(execs, ByFailureMode)
      ensures CountIn(Size(FiledUnder(execs, ByFailureMode, k))) == Count(FiledUnder(execs, ByFailureMode, k), Each)
    {
      CountsAreLengths(FiledUnder(execs, ByFailureMode, k));
    }
    TableAddsUp(execs, ByFailureMode, Size, CountIn, Each);
    AllFiled(execs, ByFailureMode, Each);
    CountsAreLengths(execs);
  }

  lemma RateInUnit(part: nat, whole: nat)
    requires part <= whole
    ensures Rate(part, whole).Some? ==> 0.0 <= Rate(part, whole).value <= 1.0
  {
    if whole > 0 {
      DivideBounds(part as real, whole as real, 0.0, 1.0);
    }
  }

  /** Both rates lie between 0 and 1, and exist as soon as there is something to count. */
  lemma RatesInUnit(execs: seq<Exec>)
    ensures var m := MetricsOf(execs);
            && (m.completionRate.Some? <==> execs != [])
            && (m.completionRate.Some? ==> 0.0 <= m.completionRate.value <= 1.0)
            && (m.correctnessRate.Some? <==> Count(execs, IsJudged) > 0)
            && (m.correctnessRate.Some? ==> 0.0 <= m.correctnessRate.value <= 1.0)
  {
    OutcomesPartition(execs);
    RateInUnit(Count(execs, IsSuccess), |execs|);
    RateInUnit(Count(execs, IsCorrect), Count(execs, IsJudged));
  }

  lemma {:induction false} SumAfterInsert(x: real, s: seq<real>)
    ensures Sum(Insert(AtMost, x, s)) == Sum(s) + x
  {
    if s == [] || AtMost(x, s[0]) {
      SumAppend([x], s);
      assert [x][..0] == [] && Sum([x]) == x;
    } else {
      SumAfterInsert(x, s[1..]);
      SumAppend([s[0]], Insert(AtMost, x, s[1..]));
      SumAppend([s[0]], s[1..]);
      assert s == [s[0]] + s[1..];
    }
  }

  lemma {:induction false} SumOfSorted(values: seq<real>)
    ensures Sum(Sort(AtMost, values)) == Sum(values)
  {
    if values != [] {
      SumOfSorted(values[1..]);
      SumAfterInsert(values[0], Sort(AtMost, values[1..]));
      SumAppend([values[0]], values[1..]);
      assert [values[0]][..0] == [] && values == [values[0]] + values[1..];
    }
  }

  lemma SortedEnds(sorted: seq<real>)
    requires SortedBy(AtMost, sorted) && sorted != []
    ensures forall v :: v in sorted ==> sorted[0] <= v <= sorted[|sorted| - 1]
  {
    forall i | 0 <= i < |sorted| ensures sorted[0] <= sorted[i] <= sorted[|sorted| - 1] {
      assert 0 < i ==> AtMost(sorted[0], sorted[i]);
      assert i < |sorted| - 1 ==> AtMost(sorted[i], sorted[|sorted| - 1]);
    }
  }

  lemma {:induction false} SortedExtremes(values: seq<real>)
    requires values != []
    ensures |Sort(AtMost, values)| == |values|
    ensures Sort(AtMost, values)[0] == Least(values) && Sort(AtMost, values)[|values| - 1] == Greatest(values)
  {
    var sorted := Sort(AtMost, values);
    SortProperties(AtMost, values);
    SortMembers(AtMost, values);
    SortedEnds(sorted);
    Bounds(values);
    assert sorted[0] in sorted && sorted[|values| - 1] in sorted;
    assert Least(values) in sorted && Greatest(values) in sorted;
  }

  lemma MeanOfSorted(values: seq<real>)
    requires values != []
    ensures Sort(AtMost, values) != [] && Mean(Sort(AtMost, values)) == Mean(values)
  {
    SortProperties(AtMost, values);
    SumOfSorted(values);
  }

  /**
   The latency summary: its ends are the extremes, the rest lies between them, and sorting first does not
   change the mean.
   */
  lemma LatencyBetween(values: seq<real>)
    requires values != []
    ensures var l := LatencyOf(values);
            && l.least == Some(Least(values)) && l.greatest == Some(Greatest(values)) && l.mean == Some(Mean(values))
            && l.median == Some(UpperMedian(values))
    ensures Least(values) <= UpperMedian(values) <= Greatest(values)
            && Least(values) <= Mean(values) <= Greatest(values)
  {
    SortedExtremes(values);
    MeanOfSorted(values);
    MeanBetween(values);
    UpperMedianFacts(values);
    Bounds(values);
  }

  // ---------------------------------------------------------------------
  // Agreement with the analysis

  const ANSWER_METRIC := "conclusion_correctness_score"

  /** An execution exported from a run that has a question. */
  ghost predicate ExportOf(r: Row, e: Exec) {
    && Dimension(r, "question_id") == Text(e.questionId)
    && e.answerScore == if ANSWER_METRIC in r.metrics then Some(r.metrics[ANSWER_METRIC]) else None
  }

  ghost predicate Exports(rows: seq<Row>, execs: seq<Exec>) {
    |rows| == |execs| && forall i :: 0 <= i < |rows| ==> ExportOf(rows[i], execs[i])
  }

  /** Completed, valid runs. */
  ghost predicate AllUsable(rows: seq<Row>) {
    forall r :: r in rows ==> IsUsable(r)
  }

  lemma {:induction false} SameScores(rows: seq<Row>, execs: seq<Exec>)
    requires AllUsable(rows) && Exports(rows, execs)
    ensures Scores(execs) == Values(rows, ANSWER_METRIC)
  {
    if rows != [] {
      var n := |rows| - 1;
      assert rows == rows[..n] + [rows[n]] && execs == execs[..n] + [execs[n]];
      SameScores(rows[..n], execs[..n]);
      assert ExportOf(rows[n], execs[n]) && rows[n] in rows;
    }
  }

  lemma ExportsSnoc(rows: seq<Row>, execs: seq<Exec>, r: Row, e: Exec)
    requires Exports(rows, execs) && ExportOf(r, e)
    ensures Exports(rows + [r], execs + [e])
  {
  }

  /** The executions of a question are exported from its runs. */
  lemma {:induction false} SameGroups(rows: seq<Row>, execs: seq<Exec>, q: string)
    requires AllUsable(rows) && Exports(rows, execs)
    ensures Exports(OfQuestion(rows, q), FiledUnder(execs, ByQuestion, q)) && AllUsable(OfQuestion(rows, q))
  {
    MembersFacts(rows, ["question_id"], [Text(q)]);
    if rows != [] {
      var n := |rows| - 1;
      assert rows == rows[..n] + [rows[n]];
      SameGroups(rows[..n], execs[..n], q);
      assert ExportOf(rows[n], execs[n]);
      SameQuestion(rows[n], execs[n], q);
      if execs[n].questionId == q {
        ExportsSnoc(OfQuestion(rows[..n], q), FiledUnder(execs[..n], ByQuestion, q), rows[n], execs[n]);
      }
    }
  }

  lemma SameQuestion(r: Row, e: Exec, q: string)
    requires ExportOf(r, e)
    ensures KeyOf(r, ["question_id"]) == [Text(q)] <==> ByQuestion(e) == Some(q)
  {
    QuestionKey(r);
    assert [Text(e.questionId)] == [Text(q)] <==> Text(e.questionId) == Text(q) by {
      assert [Text(e.questionId)][0] == Text(e.questionId) && [Text(q)][0] == Text(q);
    }
  }

  lemma {:induction false} SameMeans(rows: seq<Row>, execs: seq<Exec>, questions: seq<string>)
    requires AllUsable(rows) && Exports(rows, execs)
    ensures MeansBy(execs, questions) == QuestionMeans(rows, questions, ANSWER_METRIC)
  {
    if questions != [] {
      var q := questions[|questions| - 1];
      SameMeans(rows, execs, questions[..|questions| - 1]);
      SameGroups(rows, execs, q);
      SameScores(OfQuestion(rows, q), FiledUnder(execs, ByQuestion, q));
    }
  }

  lemma ExportedQuestions(rows: seq<Row>, execs: seq<Exec>)
    requires Exports(rows, execs)
    ensures Covers(rows, Names(execs, ByQuestion), ANSWER_METRIC)
  {
    NamesFacts(execs, ByQuestion);
    forall i | 0 <= i < |rows|
      ensures Dimension(rows[i], "question_id").Text?
              && Dimension(rows[i], "question_id").text in Names(execs, ByQuestion)
    {
      assert ExportOf(rows[i], execs[i]) && execs[i] in execs;
    }
  }

  /**
   For one use case's valid, completed runs the export's macro and micro averages are the ones
   `use_case_question_stats` reports, given any list of distinct questions that covers them.
   */
  lemma ExportAgreesWithAnalysis(rows: seq<Row>, execs: seq<Exec>, useCase: string, questions: seq<string>)
    requires AllUsable(rows) && Exports(rows, execs) && OfUseCase(rows, useCase) == rows
    requires Distinct(questions) && Covers(rows, questions, ANSWER_METRIC)
    ensures MetricsOf(execs).macro == RollupOf(rows, useCase, questions, ANSWER_METRIC).macro
    ensures MetricsOf(execs).micro == RollupOf(rows, useCase, questions, ANSWER_METRIC).micro
  {
    var names := Names(execs, ByQuestion);
    SameScores(rows, execs);
    SameMeans(rows, execs, names);
    NamesFacts(execs, ByQuestion);
    ExportedQuestions(rows, execs);
    StringLeIsPreorder();
    SortMembers(StringLe, questions);
    forall q | ScoresOf(rows, q, ANSWER_METRIC) != [] ensures q in names <==> q in Sort(StringLe, questions) {
      if q !in names { NoScoresOutside(rows, names, ANSWER_METRIC, q); }
      if q !in questions { NoScoresOutside(rows, questions, ANSWER_METRIC, q); }
    }
    MacroIgnoresOrder(rows, names, Sort(StringLe, questions), ANSWER_METRIC);
  }

  // ---------------------------------------------------------------------
  // The loop that fills the dictionaries

  /** A dictionary of the executions so far, and its insertion order. */
  datatype Filed = Filed(groups: map<string, seq<Exec>>, order: seq<string>)

  function FiledOf(execs: seq<Exec>, field: Field): Filed {
    Filed(Table(execs, field, Group), Names(execs, field))
  }

  /** One more execution changes at most the entry it is filed under. */
  lemma {:induction false} TableSnoc<T>(execs: seq<Exec>, e: Exec, field: Field, entry: seq<Exec> -> T)
    ensures field(e).None? ==> Table(execs + [e], field, entry) == Table(execs, field, entry)
    ensures field(e).Some? ==>
              var k := field(e).value;
              Table(execs + [e], field, entry)
                == Table(execs, field, entry)[k := entry(FiledUnder(execs, field, k) + [e])]
  {
    NamesSnoc(execs, e, field);
    var before, after := Table(execs, field, entry), Table(execs + [e], field, entry);
    forall k | k in after ensures field(e) == Some(k) ==> after[k] == entry(FiledUnder(execs, field, k) + [e]) {
      FiledUnderSnoc(execs, e, field, k);
    }
    forall k | k in after && field(e) != Some(k) ensures k in before && after[k] == before[k] {
      FiledUnderSnoc(execs, e, field, k);
      assert FiledUnder(execs, field, k) + [] == FiledUnder(execs, field, k);
    }
  }

  function Group(execs: seq<Exec>): seq<Exec> {
    execs
  }

  /** `groups[k].append(record)`, if there is a name to file it under. */
  method File(filed: Filed, e: Exec, field: Field, ghost execs: seq<Exec>) returns (next: Filed)
    requires filed == FiledOf(execs, field)
    ensures next == FiledOf(execs + [e], field)
  {
    TableSnoc(execs, e, field, Group);
    NamesSnoc(execs, e, field);
    next := filed;
    var name := field(e);
    if name.Some? {
      var k := name.value;
      if k !in next.groups {
        NotNamed(execs, field, k);
        next := Filed(next.groups[k := []], next.order + [k]);
      }
      next := Filed(next.groups[k := next.groups[k] + [e]], next.order);
    }
  }

  /** `failure_mode_counts[mode] += 1`. */
  method CountMode(counts: map<string, nat>, e: Exec, ghost execs: seq<Exec>) returns (next: map<string, nat>)
    requires counts == Table(execs, ByFailureMode, Size)
    ensures next == Table(execs + [e], ByFailureMode, Size)
  {
    TableSnoc(execs, e, ByFailureMode, Size);
    var mode := if e.failureMode == "" then "none" else e.failureMode;
    if mode !in counts {
      NotNamed(execs, ByFailureMode, mode);
    }
    next := counts[mode := (if mode in counts then counts[mode] else 0) + 1];
  }

  /** Everything the loop accumulates. */
  datatype Scan = Scan(
    questions: Filed,
    useCases: Filed,
    categories: Filed,
    answerTypes: Filed,
    modes: map<string, nat>,
    latencies: seq<real>)

  function ScanOf(execs: seq<Exec>): Scan {
    Scan(FiledOf(execs, ByQuestion), FiledOf(execs, ByUseCase), FiledOf(execs, ByCategory),
         FiledOf(execs, ByAnswerType), Table(execs, ByFailureMode, Size), Latencies(execs))
  }

  method ScanOne(scan: Scan, e: Exec, ghost execs: seq<Exec>) returns (next: Scan)
    requires scan == ScanOf(execs)
    ensures next == ScanOf(execs + [e])
  {
    var questions := File(scan.questions, e, ByQuestion, execs);
    var useCases := File(scan.useCases, e, ByUseCase, execs);
    var categories := File(scan.categories, e, ByCategory, execs);
    var answerTypes := File(scan.answerTypes, e, ByAnswerType, execs);
    var modes := CountMode(scan.modes, e, execs);
    assert (execs + [e])[..|execs|] == execs;
    next := Scan(questions, useCases, categories, answerTypes, modes,
                 if e.latency.Some? then scan.latencies + [e.latency.value] else scan.latencies);
  }

  method ScanAll(execs: seq<Exec>) returns (scan: Scan)
    ensures scan == ScanOf(execs)
  {
    var none := Filed(map[], []);
    scan := Scan(none, none, none, none, map[], []);
    for i := 0 to |execs|
      invariant scan == ScanOf(execs[..i])
    {
      scan := ScanOne(scan, execs[i], execs[..i]);
      assert execs[..i + 1] == execs[..i] + [execs[i]];
    }
    assert execs[..|execs|] == execs;
  }

  method MeanPerQuestion(filed: Filed, ghost execs: seq<Exec>) returns (means: seq<real>)
    requires filed == FiledOf(execs, ByQuestion)
    ensures means == MeansBy(execs, Names(execs, ByQuestion))
  {
    means := [];
    var order := filed.order;
    for i := 0 to |order|
      invariant means == MeansBy(execs, order[..i])
    {
      assert order[..i + 1][..i] == order[..i];
      assert order[i] in order;
      var scores := Scores(filed.groups[order[i]]);
      if scores != [] {
        means := means + [Mean(scores)];
      }
    }
    assert order[..|order|] == order;
  }

  /** One table of the report, off its dictionary. */
  method Tabulate<T>(filed: Filed, field: Field, entry: seq<Exec> -> T, ghost execs: seq<Exec>)
    returns (table: map<string, T>)
    requires filed == FiledOf(execs, field)
    ensures table == Table(execs, field, entry)
  {
    table := map k | k in filed.groups :: entry(filed.groups[k]);
  }

  method BuildCampaignMetrics(execs: seq<Exec>) returns (metrics: Metrics)
    ensures metrics == MetricsOf(execs)
  {
    var scan := ScanAll(execs);
    var means := MeanPerQuestion(scan.questions, execs);
    var byQuestion := Tabulate(scan.questions, ByQuestion, SummaryOf, execs);
    var byUseCase := Tabulate(scan.useCases, ByUseCase, SummaryOf, execs);
    var byCategory := Tabulate(scan.categories, ByCategory, SummaryOf, execs);
    var byAnswerType := Tabulate(scan.answerTypes, ByAnswerType, SummaryOf, execs);
    var consistency := Tabulate(scan.questions, ByQuestion, ConsistencyOf, execs);
    var completed, failed := Count(execs, IsSuccess), Count(execs, IsFailure);
    metrics := Metrics(|execs|, completed, failed, Rate(completed, |execs|),
                       Rate(Count(execs, IsCorrect), Count(execs, IsJudged)), |Scores(execs)|, MeanOf(means),
                       MeanOf(Scores(execs)), byQuestion, byUseCase, byCategory, byAnswerType, consistency, scan.modes,
                       LatencyOf(scan.latencies));
  }
}
