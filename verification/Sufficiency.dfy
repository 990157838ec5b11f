/**
 Minimum sufficient context: which tested combinations meet every binding score,
 and which of those are minimal under dimension inclusion.
 */
module Sufficiency {
  import opened Basics
  import opened Aggregation

  /** `combination_for_id`: the dimensions of each known combination id. */
  type Table = map<string, set<string>>

  function Cardinality(table: Table, id: string): nat {
    if id in table then |table[id]| else 0
  }

  /** The sort key everywhere here: cardinality, then id. */
  predicate Before(table: Table, a: string, b: string) {
    Cardinality(table, a) < Cardinality(table, b) || (Cardinality(table, a) == Cardinality(table, b) && !StringLt(b, a))
  }

  function ByCardinality(table: Table): (string, string) -> bool {
    (a: string, b: string) => Before(table, a, b)
  }

  lemma ByCardinalityIsPreorder(table: Table)
    ensures Preorder(ByCardinality(table))
  {
    StringOrder();
    forall a: string, b: string, c: string | Before(table, a, b) && Before(table, b, c) ensures Before(table, a, c) {
      if Cardinality(table, a) == Cardinality(table, c) {
        assert a == b || StringLt(a, b);
        assert b == c || StringLt(b, c);
      }
    }
  }

  datatype Criteria = Criteria(bindingScores: seq<string>, threshold: real)

  datatype Condition = Condition(id: string, cardinality: nat, nRuns: nat, scores: map<string, Option<real>>,
                                 meets: bool)

  datatype SufficiencyReport = SufficiencyReport(tested: seq<Condition>, minimum: Option<string>,
                                                 candidates: seq<string>)

  /** An unknown combination id in the records is a lookup error. */
  datatype Outcome = UnknownCombination | Reported(report: SufficiencyReport)

  // ---------------------------------------------------------------------
  // Scoping

  predicate InScope(r: Row, useCase: string, question: Option<string>) {
    Dimension(r, "use_case_id") == Text(useCase)
      && (question.Some? ==> Dimension(r, "question_id") == Text(question.value))
  }

  function ScopedTo(rows: seq<Row>, useCase: string, question: Option<string>): seq<Row> {
    if rows == [] then []
    else
      var last := rows[|rows| - 1];
      ScopedTo(rows[..|rows| - 1], useCase, question) + (if InScope(last, useCase, question) then [last] else [])
  }

  function IdsIn(rows: seq<Row>): seq<string> {
    if rows == [] then []
    else
      var d := Dimension(rows[|rows| - 1], "context_combination_id");
      IdsIn(rows[..|rows| - 1]) + (if d.Text? && d.text != "" then [d.text] else [])
  }

  /** `tested_combination_ids`. */
  function Tested(table: Table, rows: seq<Row>): seq<string> {
    Sort(ByCardinality(table), SortedSet(IdsIn(rows)))
  }

  function OfCombination(rows: seq<Row>, id: string): seq<Row> {
    if rows == [] then []
    else
      var last := rows[|rows| - 1];
      OfCombination(rows[..|rows| - 1], id)
        + (if Dimension(last, "context_combination_id") == Text(id) then [last] else [])
  }

  lemma TestedFacts(table: Table, rows: seq<Row>)
    ensures Distinct(Tested(table, rows)) && SortedBy(ByCardinality(table), Tested(table, rows))
    ensures forall id :: id in Tested(table, rows) <==> id in IdsIn(rows)
  {
    ByCardinalityIsPreorder(table);
    SortedSetFacts(IdsIn(rows));
    SortMembers(ByCardinality(table), SortedSet(IdsIn(rows)));
    SortProperties(ByCardinality(table), SortedSet(IdsIn(rows)));
    assert forall id :: id in SortedSet(IdsIn(rows)) <==> id in SetOf(SortedSet(IdsIn(rows)));
    assert forall id :: id in IdsIn(rows) <==> id in SetOf(IdsIn(rows));
  }

  // ---------------------------------------------------------------------
  // Meeting the criteria

  /** The mean of one binding score over the usable runs, if there is any value. */
  function ScoreOf(rows: seq<Row>, name: string): Option<real> {
    var values := Values(Included(rows, false), name);
    if values == [] then None else Some(Mean(values))
  }

  function ScoreTable(rows: seq<Row>, names: seq<string>): map<string, Option<real>> {
    if names == [] then map[]
    else ScoreTable(rows, names[..|names| - 1])[names[|names| - 1] := ScoreOf(rows, names[|names| - 1])]
  }

  predicate Reaches(score: Option<real>, threshold: real) {
    score.Some? && score.value >= threshold
  }

  /** Some valid run, and every binding score's mean there and high enough. */
  predicate Meets(rows: seq<Row>, criteria: Criteria) {
    && Included(rows, false) != []
    && forall name :: name in criteria.bindingScores ==> Reaches(ScoreOf(rows, name), criteria.threshold)
  }

  function ConditionOf(table: Table, scoped: seq<Row>, id: string, criteria: Criteria): Condition {
    var rows := OfCombination(scoped, id);
    Condition(id, Cardinality(table, id), |rows|, ScoreTable(rows, criteria.bindingScores), Meets(rows, criteria))
  }

  function ConditionsOf(table: Table, scoped: seq<Row>, ids: seq<string>, criteria: Criteria): seq<Condition> {
    if ids == [] then []
    else ConditionsOf(table, scoped, ids[..|ids| - 1], criteria)
         + [ConditionOf(table, scoped, ids[|ids| - 1], criteria)]
  }

  // ---------------------------------------------------------------------
  // Minimal elements

  function SufficientIds(conditions: seq<Condition>): seq<string> {
    if conditions == [] then []
    else
      var last := conditions[|conditions| - 1];
      SufficientIds(conditions[..|conditions| - 1]) + (if last.meets then [last.id] else [])
  }

  function DimensionsOf(table: Table, id: string): set<string> {
    if id in table then table[id] else {}
  }

  predicate Beaten(table: Table, ids: seq<string>, id: string) {
    exists other :: other in ids && other != id && DimensionsOf(table, other) < DimensionsOf(table, id)
  }

  function Unbeaten(table: Table, ids: seq<string>, all: seq<string>): seq<string> {
    if ids == [] then []
    else Unbeaten(table, ids[..|ids| - 1], all) + (if Beaten(table, all, ids[|ids| - 1]) then [] else [ids[|ids| - 1]])
  }

  /** `_minimal_sufficient_conditions`; the dictionary it builds keeps each id once. */
  function Minimal(table: Table, conditions: seq<Condition>): seq<string> {
    var ids := SortedSet(SufficientIds(conditions));
    Sort(ByCardinality(table), Unbeaten(table, ids, ids))
  }

  lemma {:induction false} UnbeatenFacts(table: Table, ids: seq<string>, all: seq<string>)
    ensures forall id :: id in Unbeaten(table, ids, all) <==> id in ids && !Beaten(table, all, id)
    ensures Distinct(ids) ==> Distinct(Unbeaten(table, ids, all))
  {
    if ids != [] {
      var front, last := ids[..|ids| - 1], ids[|ids| - 1];
      UnbeatenFacts(table, front, all);
      assert ids == front + [last];
      if Distinct(ids) {
        assert last !in front;
      }
    }
  }

  ghost predicate Sufficient(conditions: seq<Condition>, id: string) {
    exists c :: c in conditions && c.meets && c.id == id
  }

  lemma {:induction false} SufficientMembers(conditions: seq<Condition>, id: string)
    ensures id in SufficientIds(conditions) <==> Sufficient(conditions, id)
  {
    if conditions != [] {
      var front, last := conditions[..|conditions| - 1], conditions[|conditions| - 1];
      SufficientMembers(front, id);
      assert conditions == front + [last];
      if Sufficient(front, id) {
        var c :| c in front && c.meets && c.id == id;
        assert c in conditions;
      }
    }
  }

  /** Sufficient, with no other sufficient condition strictly below. */
  ghost predicate IsMinimal(table: Table, conditions: seq<Condition>, id: string) {
    && Sufficient(conditions, id)
    && forall other :: Sufficient(conditions, other) ==> !(DimensionsOf(table, other) < DimensionsOf(table, id))
  }

  /** Candidates are exactly the minimal sufficient conditions, once each, ordered by cardinality and id. */
  lemma MinimalMembers(table: Table, conditions: seq<Condition>)
    ensures Distinct(Minimal(table, conditions)) && SortedBy(ByCardinality(table), Minimal(table, conditions))
    ensures forall id :: id in Minimal(table, conditions) <==> IsMinimal(table, conditions, id)
  {
    var ids := SortedSet(SufficientIds(conditions));
    SortedSetFacts(SufficientIds(conditions));
    UnbeatenFacts(table, ids, ids);
    ByCardinalityIsPreorder(table);
    SortMembers(ByCardinality(table), Unbeaten(table, ids, ids));
    SortProperties(ByCardinality(table), Unbeaten(table, ids, ids));
    forall id ensures id in ids <==> Sufficient(conditions, id) {
      SufficientMembers(conditions, id);
      assert id in ids <==> id in SetOf(ids);
      assert id in SufficientIds(conditions) <==> id in SetOf(SufficientIds(conditions));
    }
  }

  /** No candidate's dimensions strictly contain another's. */
  lemma CandidatesAreAntichain(table: Table, conditions: seq<Condition>, a: string, b: string)
    requires a in Minimal(table, conditions) && b in Minimal(table, conditions)
    ensures !(DimensionsOf(table, a) < DimensionsOf(table, b))
  {
    MinimalMembers(table, conditions);
    assert IsMinimal(table, conditions, a) && IsMinimal(table, conditions, b);
  }

  /** Every sufficient condition contains the dimensions of some candidate. */
  lemma {:induction false} CandidateBelow(table: Table, conditions: seq<Condition>, id: string)
    returns (candidate: string)
    requires Sufficient(conditions, id)
    ensures candidate in Minimal(table, conditions) && DimensionsOf(table, candidate) <= DimensionsOf(table, id)
    decreases |DimensionsOf(table, id)|
  {
    MinimalMembers(table, conditions);
    if IsMinimal(table, conditions, id) {
      candidate := id;
    } else {
      var other :| Sufficient(conditions, other) && DimensionsOf(table, other) < DimensionsOf(table, id);
      SubsetSize(DimensionsOf(table, other), DimensionsOf(table, id));
      candidate := CandidateBelow(table, conditions, other);
    }
  }

  lemma CandidatesExistIffSufficient(table: Table, conditions: seq<Condition>)
    ensures Minimal(table, conditions) != [] <==> exists id :: Sufficient(conditions, id)
  {
    MinimalMembers(table, conditions);
    var minimal := Minimal(table, conditions);
    if minimal != [] {
      assert IsMinimal(table, conditions, minimal[0]) by { assert minimal[0] in minimal; }
    }
    if exists id :: Sufficient(conditions, id) {
      var id :| Sufficient(conditions, id);
      var c := CandidateBelow(table, conditions, id);
    }
  }

  /** A sufficient condition as small as the candidate below it has the same dimensions and is a candidate itself. */
  lemma EqualSizeIsCandidate(table: Table, conditions: seq<Condition>, id: string, c: string)
    requires Sufficient(conditions, id) && IsMinimal(table, conditions, c)
    requires DimensionsOf(table, c) <= DimensionsOf(table, id) && |DimensionsOf(table, c)| == |DimensionsOf(table, id)|
    ensures IsMinimal(table, conditions, id)
  {
    SubsetSize(DimensionsOf(table, c), DimensionsOf(table, id));
  }

  /** The first candidate has the least cardinality of all sufficient conditions, and the least id among those. */
  lemma HeadIsLeast(table: Table, conditions: seq<Condition>, id: string)
    requires Sufficient(conditions, id)
    ensures Minimal(table, conditions) != []
    ensures Before(table, Minimal(table, conditions)[0], id)
  {
    var minimal, le := Minimal(table, conditions), ByCardinality(table);
    MinimalMembers(table, conditions);
    ByCardinalityIsPreorder(table);
    var c := CandidateBelow(table, conditions, id);
    SubsetSize(DimensionsOf(table, c), DimensionsOf(table, id));
    if |DimensionsOf(table, c)| == |DimensionsOf(table, id)| {
      EqualSizeIsCandidate(table, conditions, id, c);
      assert id in minimal;
    }
    forall x | x in minimal ensures le(minimal[0], x) {
      var i :| 0 <= i < |minimal| && minimal[i] == x;
    }
    assert le(minimal[0], c);
  }

  /** Every sufficient condition of the least cardinality is listed, however many tie. */
  lemma LeastAreListed(table: Table, conditions: seq<Condition>, id: string)
    requires Sufficient(conditions, id)
    requires forall other :: Sufficient(conditions, other) ==> |DimensionsOf(table, id)| <= |DimensionsOf(table, other)|
    ensures id in Minimal(table, conditions)
  {
    MinimalMembers(table, conditions);
    forall other | Sufficient(conditions, other) ensures !(DimensionsOf(table, other) < DimensionsOf(table, id)) {
      if DimensionsOf(table, other) < DimensionsOf(table, id) {
        SubsetSize(DimensionsOf(table, other), DimensionsOf(table, id));
      }
    }
    assert IsMinimal(table, conditions, id);
  }

  /**
   Equal cardinality alone is not enough: of two sufficient pairs, one that contains a sufficient single is
   not a candidate.
   */
  lemma EqualCardinalityMayBeBeaten(table: Table, conditions: seq<Condition>, single: string, pair: string,
                                    other: string)
    requires forall id :: Sufficient(conditions, id) <==> id == single || id == pair || id == other
    requires DimensionsOf(table, single) == {"C1"} && DimensionsOf(table, pair) == {"C1", "C2"}
             && DimensionsOf(table, other) == {"C3", "C4"}
    ensures |DimensionsOf(table, pair)| == |DimensionsOf(table, other)|
    ensures other in Minimal(table, conditions) && pair !in Minimal(table, conditions)
  {
    MinimalMembers(table, conditions);
    assert "C2" in DimensionsOf(table, pair) && "C2" !in DimensionsOf(table, single);
    assert Sufficient(conditions, single) && DimensionsOf(table, single) < DimensionsOf(table, pair);
    assert "C1" in DimensionsOf(table, single) && "C1" in DimensionsOf(table, pair)
           && "C1" !in DimensionsOf(table, other);
    assert IsMinimal(table, conditions, other);
  }

  // ---------------------------------------------------------------------
  // The report

  predicate AllKnown(table: Table, ids: seq<string>) {
    forall id :: id in ids ==> id in table
  }

  function ReportOf(table: Table, scoped: seq<Row>, criteria: Criteria): SufficiencyReport {
    var conditions := ConditionsOf(table, scoped, Tested(table, scoped), criteria);
    var candidates := Minimal(table, conditions);
    SufficiencyReport(conditions, if candidates == [] then None else Some(candidates[0]), candidates)
  }

  function OutcomeOf(table: Table, rows: seq<Row>, useCase: string, question: Option<string>,
                     criteria: Criteria): Outcome {
    var scoped := ScopedTo(rows, useCase, question);
    if AllKnown(table, IdsIn(scoped)) then Reported(ReportOf(table, scoped, criteria)) else UnknownCombination
  }

  lemma {:induction false} ConditionsMembers(table: Table, scoped: seq<Row>, ids: seq<string>, criteria: Criteria,
                                             id: string)
    ensures Sufficient(ConditionsOf(table, scoped, ids, criteria), id)
       <==> id in ids && Meets(OfCombination(scoped, id), criteria)
  {
    if ids != [] {
      var front, last := ids[..|ids| - 1], ids[|ids| - 1];
      FrontAndLast(ids);
      ConditionsMembers(table, scoped, front, criteria, id);
      ConditionsSnoc(table, scoped, front, last, criteria);
      SufficientSnoc(ConditionsOf(table, scoped, front, criteria), ConditionOf(table, scoped, last, criteria), id);
    }
  }

  lemma ConditionsSnoc(table: Table, scoped: seq<Row>, front: seq<string>, last: string, criteria: Criteria)
    ensures ConditionsOf(table, scoped, front + [last], criteria)
         == ConditionsOf(table, scoped, front, criteria) + [ConditionOf(table, scoped, last, criteria)]
  {
    assert (front + [last])[..|front|] == front;
  }

  lemma SufficientSnoc(conditions: seq<Condition>, last: Condition, id: string)
    ensures Sufficient(conditions + [last], id) <==> Sufficient(conditions, id) || (last.meets && last.id == id)
  {
    if Sufficient(conditions, id) {
      var c :| c in conditions && c.meets && c.id == id;
      assert c in conditions + [last];
    }
    if last.meets && last.id == id {
      assert last in conditions + [last];
    }
  }

  /**
   The reported minimum is a tested combination that meets the criteria, with as few dimensions as any that
   does; none is reported exactly when none does.
   */
  lemma ReportedMinimum(table: Table, rows: seq<Row>, useCase: string, question: Option<string>, criteria: Criteria,
                        id: string)
    requires OutcomeOf(table, rows, useCase, question, criteria).Reported?
    ensures var report, scoped := OutcomeOf(table, rows, useCase, question, criteria).report,
            ScopedTo(rows, useCase, question);
            report.minimum.Some? ==>
              report.minimum.value in IdsIn(scoped) && Meets(OfCombination(scoped, report.minimum.value), criteria)
    ensures var report, scoped := OutcomeOf(table, rows, useCase, question, criteria).report,
            ScopedTo(rows, useCase, question);
            id in IdsIn(scoped) && Meets(OfCombination(scoped, id), criteria) ==>
              report.minimum.Some? && Before(table, report.minimum.value, id)
  {
    var scoped := ScopedTo(rows, useCase, question);
    var ids := Tested(table, scoped);
    var conditions := ConditionsOf(table, scoped, ids, criteria);
    TestedFacts(table, scoped);
    ConditionsMembers(table, scoped, ids, criteria, id);
    if Sufficient(conditions, id) {
      HeadIsLeast(table, conditions, id);
    }
    var minimal := Minimal(table, conditions);
    MinimalMembers(table, conditions);
    if minimal != [] {
      assert minimal[0] in minimal;
      ConditionsMembers(table, scoped, ids, criteria, minimal[0]);
    }
  }

  // ---------------------------------------------------------------------
  // The loops

  /** One combination's valid runs form a single group. */
  lemma SingleGroup(scoped: seq<Row>, id: string, criteria: Criteria, dimensions: set<string>, show: Dim -> string)
    requires "context_combination_id" in dimensions
    ensures var rows := OfCombination(scoped, id);
            var outcome := AggregateOf(rows, ["context_combination_id"], criteria.bindingScores, None, false, true,
                                       dimensions, show);
            outcome.Done? && outcome.report.groups == GroupOf([Text(id)], rows, Chosen(criteria.bindingScores))
  {
    CombinationMembers(scoped, id);
    OneGroup(OfCombination(scoped, id), "context_combination_id", Text(id), criteria.bindingScores, dimensions, show);
  }

  lemma {:induction false} CombinationMembers(rows: seq<Row>, id: string)
    ensures forall r :: r in OfCombination(rows, id) ==> Dimension(r, "context_combination_id") == Text(id)
  {
    if rows != [] {
      CombinationMembers(rows[..|rows| - 1], id);
    }
  }

  predicate MeetsSoFar(rows: seq<Row>, names: seq<string>, threshold: real) {
    forall name :: name in names ==> Reaches(ScoreOf(rows, name), threshold)
  }

  function MeanIn(stats: Stats): Option<real> {
    if stats.NoValues? then None else Some(stats.mean)
  }

  lemma ScoreIsMean(rows: seq<Row>, names: seq<string>, name: string)
    requires name in names
    ensures name in MetricTable(Included(rows, false), names)
    ensures MeanIn(MetricTable(Included(rows, false), names)[name]) == ScoreOf(rows, name)
  {
    MetricTableEntry(Included(rows, false), names, name);
  }

  lemma MeetsNext(rows: seq<Row>, names: seq<string>, name: string, threshold: real)
    ensures MeetsSoFar(rows, names + [name], threshold)
       <==> MeetsSoFar(rows, names, threshold) && Reaches(ScoreOf(rows, name), threshold)
  {
    assert name in names + [name];
  }

  lemma ScoreTableSnoc(rows: seq<Row>, names: seq<string>, name: string)
    ensures ScoreTable(rows, names + [name]) == ScoreTable(rows, names)[name := ScoreOf(rows, name)]
  {
    assert (names + [name])[..|names|] == names;
  }

  /** One more binding score. */
  lemma ScoreNext(rows: seq<Row>, names: seq<string>, i: nat, threshold: real)
    requires i < |names|
    ensures ScoreTable(rows, names[..i + 1]) == ScoreTable(rows, names[..i])[names[i] := ScoreOf(rows, names[i])]
    ensures MeetsSoFar(rows, names[..i + 1], threshold)
       <==> MeetsSoFar(rows, names[..i], threshold) && Reaches(ScoreOf(rows, names[i]), threshold)
  {
    assert names[..i + 1] == names[..i] + [names[i]];
    ScoreTableSnoc(rows, names[..i], names[i]);
    MeetsNext(rows, names[..i], names[i], threshold);
  }

  /** The inner loop over the binding scores. */
  method Score(rows: seq<Row>, metrics: map<string, Stats>, criteria: Criteria)
    returns (scores: map<string, Option<real>>, meets: bool)
    requires criteria.bindingScores == [] || metrics == MetricTable(Included(rows, false), criteria.bindingScores)
    ensures scores == ScoreTable(rows, criteria.bindingScores)
    ensures meets == MeetsSoFar(rows, criteria.bindingScores, criteria.threshold)
  {
    scores, meets := map[], true;
    var names := criteria.bindingScores;
    for i := 0 to |names|
      invariant scores == ScoreTable(rows, names[..i])
      invariant meets == MeetsSoFar(rows, names[..i], criteria.threshold)
    {
      ScoreIsMean(rows, names, names[i]);
      ScoreNext(rows, names, i, criteria.threshold);
      var mean := MeanIn(metrics[names[i]]);
      scores := scores[names[i] := mean];
      if mean.None? || mean.value < criteria.threshold {
        meets := false;
      }
    }
    assert names[..|names|] == names;
  }

  lemma {:induction false} NoScores(rows: seq<Row>, names: seq<string>)
    requires Included(rows, false) == []
    ensures ScoreTable(rows, names) == map name | name in names :: None
  {
    if names != [] {
      NoScores(rows, names[..|names| - 1]);
      assert names == names[..|names| - 1] + [names[|names| - 1]];
      assert ScoreOf(rows, names[|names| - 1]) == None;
    }
  }

  /** `aggregate_records` over one combination's runs. */
  method AggregateOne(scoped: seq<Row>, id: string, criteria: Criteria, dimensions: set<string>, show: Dim -> string)
    returns (groups: seq<GroupSummary>)
    requires "context_combination_id" in dimensions
    ensures groups == GroupOf([Text(id)], OfCombination(scoped, id), Chosen(criteria.bindingScores))
  {
    var rows := OfCombination(scoped, id);
    SingleGroup(scoped, id, criteria, dimensions, show);
    var outcome := AggregateRecords(rows, ["context_combination_id"], criteria.bindingScores, None, false, true,
                                    dimensions, show);
    groups := outcome.report.groups;
  }

  /** One turn of the outer loop. */
  method EvaluateCondition(table: Table, scoped: seq<Row>, id: string, criteria: Criteria, dimensions: set<string>,
                           show: Dim -> string)
    returns (condition: Condition)
    requires "context_combination_id" in dimensions
    ensures condition == ConditionOf(table, scoped, id, criteria)
  {
    var rows := OfCombination(scoped, id);
    var groups := AggregateOne(scoped, id, criteria, dimensions, show);
    var scores: map<string, Option<real>>, meets: bool;
    if groups != [] {
      scores, meets := Score(rows, groups[0].metrics, criteria);
    } else {
      NoScores(rows, criteria.bindingScores);
      scores, meets := map name | name in criteria.bindingScores :: None, false;
    }
    condition := Condition(id, Cardinality(table, id), |rows|, scores, meets);
  }

  method EvaluateConditions(table: Table, scoped: seq<Row>, tested: seq<string>, criteria: Criteria,
                            dimensions: set<string>, show: Dim -> string)
    returns (conditions: seq<Condition>)
    requires "context_combination_id" in dimensions
    ensures conditions == ConditionsOf(table, scoped, tested, criteria)
  {
    conditions := [];
    for i := 0 to |tested|
      invariant conditions == ConditionsOf(table, scoped, tested[..i], criteria)
    {
      assert tested[..i + 1][..i] == tested[..i];
      var condition := EvaluateCondition(table, scoped, tested[i], criteria, dimensions, show);
      conditions := conditions + [condition];
    }
    assert tested[..|tested|] == tested;
  }

  method FindMinimumSufficientContext(table: Table, rows: seq<Row>, useCase: string, question: Option<string>,
                                      criteria: Criteria, dimensions: set<string>,
                                      show: Dim -> string) returns (outcome: Outcome)
    requires "context_combination_id" in dimensions
    ensures outcome == OutcomeOf(table, rows, useCase, question, criteria)
  {
    var scoped := ScopedTo(rows, useCase, question);
    if !AllKnown(table, IdsIn(scoped)) {
      return UnknownCombination;
    }
    var conditions := EvaluateConditions(table, scoped, Tested(table, scoped), criteria, dimensions, show);
    var candidates := Minimal(table, conditions);
    outcome := Reported(SufficiencyReport(conditions, if candidates == [] then None else Some(candidates[0]),
                                          candidates));
  }
}
