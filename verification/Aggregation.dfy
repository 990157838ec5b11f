/**
 `aggregate_records`: grouping persisted records by named dimensions, with run
 counts and summary statistics per group. Values are exact reals.
 */
module Aggregation {
  import opened Basics
  import opened ResultStore

  datatype Validity = Valid | LegacyControlOnly

  /** A resolved dimension value; `Absent` is a group of its own. */
  datatype Dim = Absent | Text(text: string) | Whole(whole: int) | Fraction(fraction: real)

  /** A record as aggregation sees it: its resolved dimensions and its metric values, a missing one being no entry. */
  datatype Row = Row(runId: string, dims: map<string, Dim>, status: RunStatus, validity: Validity,
                     metrics: map<string, real>)

  type GroupKey = seq<Dim>

  function Dimension(r: Row, name: string): Dim {
    if name in r.dims then r.dims[name] else Absent
  }

  function KeyOf(r: Row, groupBy: seq<string>): GroupKey {
    if groupBy == [] then [] else [Dimension(r, groupBy[0])] + KeyOf(r, groupBy[1..])
  }

  /** `is_usable_record`. */
  predicate IsUsable(r: Row) {
    r.validity.Valid? && r.status.Completed?
  }

  predicate HasValue(r: Row, metric: string) {
    IsUsable(r) && metric in r.metrics
  }

  function Values(rows: seq<Row>, metric: string): seq<real> {
    if rows == [] then []
    else
      var last := rows[|rows| - 1];
      Values(rows[..|rows| - 1], metric) + (if HasValue(last, metric) then [last.metrics[metric]] else [])
  }

  // ---------------------------------------------------------------------
  // `summarize`

  function Sum(values: seq<real>): real {
    if values == [] then 0.0 else Sum(values[..|values| - 1]) + values[|values| - 1]
  }

  function Mean(values: seq<real>): real
    requires values != []
  {
    Sum(values) / |values| as real
  }

  predicate AtMost(a: real, b: real) {
    a <= b
  }

  function Median(values: seq<real>): real
    requires values != []
  {
    var sorted := Sort(AtMost, values);
    SortProperties(AtMost, values);
    if |sorted| % 2 == 1 then sorted[|sorted| / 2] else (sorted[|sorted| / 2 - 1] + sorted[|sorted| / 2]) / 2.0
  }

  function Least(values: seq<real>): real
    requires values != []
  {
    if |values| == 1 then values[0]
    else
      var front, last := Least(values[..|values| - 1]), values[|values| - 1];
      if last < front then last else front
  }

  function Greatest(values: seq<real>): real
    requires values != []
  {
    if |values| == 1 then values[0]
    else
      var front, last := Greatest(values[..|values| - 1]), values[|values| - 1];
      if last > front then last else front
  }

  function Product(x: real, y: real): real {
    x * y
  }

  /** Squared distances from a centre, added up. */
  function SquaresFrom(values: seq<real>, centre: real): real {
    if values == [] then 0.0
    else
      var gap := values[|values| - 1] - centre;
      SquaresFrom(values[..|values| - 1], centre) + Product(gap, gap)
  }

  /** The square of the sample standard deviation, which a single value does not have. */
  function Spread(values: seq<real>): Option<real> {
    if |values| < 2 then None else Some(SquaresFrom(values, Mean(values)) / (|values| - 1) as real)
  }

  datatype Stats = NoValues | Stats(n: nat, mean: real, median: real, spread: Option<real>, minimum: real,
                                    maximum: real)

  function Summarize(values: seq<real>): Stats {
    if values == [] then NoValues
    else Stats(|values|, Mean(values), Median(values), Spread(values), Least(values), Greatest(values))
  }

  function Count(s: Stats): nat {
    if s.NoValues? then 0 else s.n
  }

  /** `n` times `x`, by repeated addition. */
  function Times(n: nat, x: real): real {
    if n == 0 then 0.0 else Times(n - 1, x) + x
  }

  lemma {:induction false} TimesIsProduct(n: nat, x: real)
    ensures Times(n, x) == n as real * x
  {
    if n > 0 {
      TimesIsProduct(n - 1, x);
      Scaled((n - 1) as real, x);
    }
  }

  function Contribution(s: Stats): real {
    if s.NoValues? then 0.0 else Times(s.n, s.mean)
  }

  lemma {:induction false} Bounds(values: seq<real>)
    requires values != []
    ensures Least(values) in values && Greatest(values) in values
    ensures forall v :: v in values ==> Least(values) <= v <= Greatest(values)
  {
    if |values| > 1 {
      Bounds(values[..|values| - 1]);
      assert values == values[..|values| - 1] + [values[|values| - 1]];
    }
  }

  lemma {:induction false} SumBounds(values: seq<real>, low: real, high: real)
    requires forall v :: v in values ==> low <= v <= high
    ensures |values| as real * low <= Sum(values) <= |values| as real * high
  {
    if values != [] {
      var front, last := values[..|values| - 1], values[|values| - 1];
      assert forall v :: v in front ==> v in values;
      SumBounds(front, low, high);
      assert last in values;
      assert |values| as real == |front| as real + 1.0;
      Scaled(|front| as real, low);
      Scaled(|front| as real, high);
    }
  }

  lemma Scaled(n: real, x: real)
    ensures (n + 1.0) * x == n * x + x
  {
  }

  lemma {:induction false} MedianBetween(values: seq<real>)
    requires values != []
    ensures Least(values) <= Median(values) <= Greatest(values)
  {
    Bounds(values);
    SortMembers(AtMost, values);
    SortProperties(AtMost, values);
    var sorted := Sort(AtMost, values);
    assert forall i :: 0 <= i < |sorted| ==> sorted[i] in sorted;
    assert forall i :: 0 <= i < |sorted| ==> Least(values) <= sorted[i] <= Greatest(values);
  }

  lemma {:induction false} MeanBetween(values: seq<real>)
    requires values != []
    ensures Least(values) <= Mean(values) <= Greatest(values)
  {
    Bounds(values);
    SumBounds(values, Least(values), Greatest(values));
    DivideBounds(Sum(values), |values| as real, Least(values), Greatest(values));
  }

  /** Mean and median lie between the extremes, which occur. */
  lemma SummaryBetween(values: seq<real>)
    requires values != []
    ensures var s := Summarize(values);
            && s.minimum <= s.mean <= s.maximum && s.minimum <= s.median <= s.maximum
            && s.minimum in values && s.maximum in values
  {
    Bounds(values);
    MeanBetween(values);
    MedianBetween(values);
  }

  lemma SameSigns(x: real, y: real)
    requires (x > 0.0 && y > 0.0) || (x < 0.0 && y < 0.0)
    ensures Product(x, y) > 0.0
  {
  }

  lemma SquareIsPositive(x: real)
    ensures Product(x, x) >= 0.0 && (Product(x, x) == 0.0 <==> x == 0.0)
  {
    if x != 0.0 {
      SameSigns(x, x);
    }
  }

  lemma {:induction false} SquaresFacts(values: seq<real>, centre: real)
    ensures SquaresFrom(values, centre) >= 0.0
    ensures SquaresFrom(values, centre) == 0.0 <==> forall v :: v in values ==> v == centre
  {
    if values != [] {
      var front, last := values[..|values| - 1], values[|values| - 1];
      assert values == front + [last];
      SquaresFacts(front, centre);
      SquareIsPositive(last - centre);
      if forall v :: v in values ==> v == centre {
        assert last in values && forall v :: v in front ==> v in values;
      }
    }
  }

  lemma QuotientSign(x: real, n: real)
    requires x >= 0.0 && n > 0.0
    ensures x / n >= 0.0 && (x / n == 0.0 <==> x == 0.0)
  {
    var q := x / n;
    assert q * n == x;
  }

  /** The spread is never negative, is zero exactly when all values are one and the same, and needs two of them. */
  lemma SpreadFacts(values: seq<real>)
    ensures Spread(values).Some? <==> |values| >= 2
    ensures Spread(values).Some? ==> Spread(values).value >= 0.0
    ensures Spread(values).Some?
            ==> (Spread(values).value == 0.0 <==> forall v, w :: v in values && w in values ==> v == w)
  {
    if |values| >= 2 {
      var mean := Mean(values);
      SquaresFacts(values, mean);
      QuotientSign(SquaresFrom(values, mean), (|values| - 1) as real);
      assert values[0] in values;
      if forall v, w :: v in values && w in values ==> v == w {
        MeanBetween(values);
        Bounds(values);
      }
    }
  }

  lemma MeanTimesCount(values: seq<real>)
    requires values != []
    ensures Times(|values|, Mean(values)) == Sum(values)
  {
    TimesIsProduct(|values|, Mean(values));
    TimesQuotient(Sum(values), |values| as real);
  }

  /** Count times mean is the total. */
  lemma ContributionIsSum(values: seq<real>)
    ensures Contribution(Summarize(values)) == Sum(values)
  {
    if values != [] {
      MeanTimesCount(values);
    }
  }

  // ---------------------------------------------------------------------
  // Groups

  function Included(rows: seq<Row>, includeInvalid: bool): (kept: seq<Row>)
    ensures |kept| <= |rows|
  {
    if rows == [] then []
    else
      var last := rows[|rows| - 1];
      Included(rows[..|rows| - 1], includeInvalid) + (if includeInvalid || last.validity.Valid? then [last] else [])
  }

  /** The rows of one group, in their original order. */
  function Members(rows: seq<Row>, groupBy: seq<string>, key: GroupKey): seq<Row> {
    if rows == [] then []
    else
      var last := rows[|rows| - 1];
      Members(rows[..|rows| - 1], groupBy, key) + (if KeyOf(last, groupBy) == key then [last] else [])
  }

  /** Keys in order of first appearance, a dictionary's insertion order. */
  function FirstKeys(rows: seq<Row>, groupBy: seq<string>): seq<GroupKey> {
    if rows == [] then []
    else
      var front, key := FirstKeys(rows[..|rows| - 1], groupBy), KeyOf(rows[|rows| - 1], groupBy);
      if key in front then front else front + [key]
  }

  lemma {:induction false} FirstKeysFacts(rows: seq<Row>, groupBy: seq<string>)
    ensures Distinct(FirstKeys(rows, groupBy))
    ensures forall r :: r in rows ==> KeyOf(r, groupBy) in FirstKeys(rows, groupBy)
    ensures forall k :: k in FirstKeys(rows, groupBy) ==> exists r :: r in rows && KeyOf(r, groupBy) == k
  {
    if rows != [] {
      var front, last := rows[..|rows| - 1], rows[|rows| - 1];
      FirstKeysFacts(front, groupBy);
      assert rows == front + [last];
      forall k | k in FirstKeys(rows, groupBy) ensures exists r :: r in rows && KeyOf(r, groupBy) == k {
        if k in FirstKeys(front, groupBy) {
          var r :| r in front && KeyOf(r, groupBy) == k;
          assert r in rows;
        } else {
          assert last in rows && KeyOf(last, groupBy) == k;
        }
      }
    }
  }

  lemma {:induction false} MembersFacts(rows: seq<Row>, groupBy: seq<string>, key: GroupKey)
    ensures forall r :: r in Members(rows, groupBy, key) <==> r in rows && KeyOf(r, groupBy) == key
  {
    if rows != [] {
      MembersFacts(rows[..|rows| - 1], groupBy, key);
      assert rows == rows[..|rows| - 1] + [rows[|rows| - 1]];
    }
  }

  // ---------------------------------------------------------------------
  // What grouping conserves

  datatype Measure = Runs | CompletedRuns | ValidRuns | ValueCount(metric: string) | ValueTotal(metric: string)

  function Measured(r: Row, m: Measure): real {
    match m
    case Runs => 1.0
    case CompletedRuns => if r.status.Completed? then 1.0 else 0.0
    case ValidRuns => if r.validity.Valid? then 1.0 else 0.0
    case ValueCount(metric) => if HasValue(r, metric) then 1.0 else 0.0
    case ValueTotal(metric) => if HasValue(r, metric) then r.metrics[metric] else 0.0
  }

  function Total(rows: seq<Row>, m: Measure): real {
    if rows == [] then 0.0 else Total(rows[..|rows| - 1], m) + Measured(rows[|rows| - 1], m)
  }

  function CountOf(rows: seq<Row>, m: Measure): nat {
    if rows == [] then 0 else CountOf(rows[..|rows| - 1], m) + (if Measured(rows[|rows| - 1], m) == 1.0 then 1 else 0)
  }

  function GroupTotals(rows: seq<Row>, groupBy: seq<string>, keys: seq<GroupKey>, m: Measure): real {
    if keys == [] then 0.0
    else GroupTotals(rows, groupBy, keys[..|keys| - 1], m) + Total(Members(rows, groupBy, keys[|keys| - 1]), m)
  }

  lemma MembersSnoc(front: seq<Row>, last: Row, groupBy: seq<string>, key: GroupKey)
    ensures Members(front + [last], groupBy, key)
         == Members(front, groupBy, key) + (if KeyOf(last, groupBy) == key then [last] else [])
  {
    assert (front + [last])[..|front|] == front;
  }

  lemma TotalSnoc(rows: seq<Row>, last: Row, m: Measure)
    ensures Total(rows + [last], m) == Total(rows, m) + Measured(last, m)
  {
    assert (rows + [last])[..|rows|] == rows;
  }

  /** What one more row adds to the total of one group. */
  lemma OneMoreInGroup(rows: seq<Row>, last: Row, groupBy: seq<string>, key: GroupKey, m: Measure)
    ensures Total(Members(rows + [last], groupBy, key), m)
         == Total(Members(rows, groupBy, key), m) + (if KeyOf(last, groupBy) == key then Measured(last, m) else 0.0)
  {
    MembersSnoc(rows, last, groupBy, key);
    if KeyOf(last, groupBy) == key {
      TotalSnoc(Members(rows, groupBy, key), last, m);
    } else {
      assert Members(rows, groupBy, key) + [] == Members(rows, groupBy, key);
    }
  }

  lemma GroupTotalsSnoc(rows: seq<Row>, groupBy: seq<string>, front: seq<GroupKey>, key: GroupKey, m: Measure)
    ensures GroupTotals(rows, groupBy, front + [key], m)
         == GroupTotals(rows, groupBy, front, m) + Total(Members(rows, groupBy, key), m)
  {
    assert (front + [key])[..|front|] == front;
  }

  lemma {:induction false} OneMoreRow(rows: seq<Row>, last: Row, groupBy: seq<string>, keys: seq<GroupKey>, m: Measure)
    requires Distinct(keys)
    ensures GroupTotals(rows + [last], groupBy, keys, m)
         == GroupTotals(rows, groupBy, keys, m) + (if KeyOf(last, groupBy) in keys then Measured(last, m) else 0.0)
    decreases |keys|
  {
    if keys != [] {
      var front, key := keys[..|keys| - 1], keys[|keys| - 1];
      assert keys == front + [key];
      assert key !in front;
      OneMoreRow(rows, last, groupBy, front, m);
      OneMoreInGroup(rows, last, groupBy, key, m);
      GroupTotalsSnoc(rows, groupBy, front, key, m);
      GroupTotalsSnoc(rows + [last], groupBy, front, key, m);
    }
  }

  /** Summing group by group over distinct keys that cover the rows with any weight gives the total. */
  lemma {:induction false} GroupsConserve(rows: seq<Row>, groupBy: seq<string>, keys: seq<GroupKey>, m: Measure)
    requires Distinct(keys) && forall r :: r in rows ==> KeyOf(r, groupBy) in keys || Measured(r, m) == 0.0
    ensures GroupTotals(rows, groupBy, keys, m) == Total(rows, m)
    decreases |rows|
  {
    if rows == [] {
      NoRows(groupBy, keys, m);
    } else {
      var front, last := rows[..|rows| - 1], rows[|rows| - 1];
      assert rows == front + [last];
      GroupsConserve(front, groupBy, keys, m);
      OneMoreRow(front, last, groupBy, keys, m);
    }
  }

  lemma {:induction false} NoRows(groupBy: seq<string>, keys: seq<GroupKey>, m: Measure)
    ensures GroupTotals([], groupBy, keys, m) == 0.0
  {
    if keys != [] {
      NoRows(groupBy, keys[..|keys| - 1], m);
    }
  }

  lemma {:induction false} TotalsAreCounts(rows: seq<Row>)
    ensures Total(rows, Runs) == |rows| as real
    ensures Total(rows, CompletedRuns) == CountOf(rows, CompletedRuns) as real
    ensures Total(rows, ValidRuns) == CountOf(rows, ValidRuns) as real
    ensures CountOf(rows, CompletedRuns) <= |rows| && CountOf(rows, ValidRuns) <= |rows|
  {
    if rows != [] {
      TotalsAreCounts(rows[..|rows| - 1]);
    }
  }

  lemma {:induction false} TotalsAreSums(rows: seq<Row>, metric: string)
    ensures Total(rows, ValueCount(metric)) == |Values(rows, metric)| as real
    ensures Total(rows, ValueTotal(metric)) == Sum(Values(rows, metric))
  {
    if rows != [] {
      var front, last := rows[..|rows| - 1], rows[|rows| - 1];
      TotalsAreSums(front, metric);
      if HasValue(last, metric) {
        assert Values(rows, metric) == Values(front, metric) + [last.metrics[metric]];
        assert Values(rows, metric)[..|Values(front, metric)|] == Values(front, metric);
      } else {
        assert Values(rows, metric) == Values(front, metric);
      }
    }
  }

  // ---------------------------------------------------------------------
  // The report

  datatype GroupSummary = GroupSummary(
    key: GroupKey,
    runIds: seq<string>,
    nRuns: nat,
    nCompleted: nat,
    nFailed: nat,
    nValid: nat,
    nLegacy: nat,
    metrics: map<string, Stats>)

  /** Held fields that differ, each with its distinct values. */
  type Variance = map<string, set<Dim>>

  datatype Report = Report(
    groupBy: seq<string>,
    holdConstant: seq<string>,
    consistent: bool,
    variance: Variance,
    includeInvalid: bool,
    excluded: nat,
    groups: seq<GroupSummary>,
    sourceRunIds: seq<string>)

  datatype Error =
    | EmptyGroupBy
    | UnknownDimension(name: string)
    | UnknownControl(name: string)
    | HeterogeneousControls(variance: Variance)

  datatype Outcome = Raised(error: Error) | Done(report: Report)

  function RunIds(rows: seq<Row>): seq<string> {
    if rows == [] then [] else RunIds(rows[..|rows| - 1]) + [rows[|rows| - 1].runId]
  }

  function MetricTable(rows: seq<Row>, metrics: seq<string>): map<string, Stats> {
    if metrics == [] then map[]
    else MetricTable(rows,
                     metrics[..|metrics| - 1])[metrics[|metrics| - 1] :=
                                               Summarize(Values(rows, metrics[|metrics| - 1]))]
  }

  /** `nFailed` and `nLegacy` are counted by their own tests. */
  function FailedRuns(rows: seq<Row>): nat {
    if rows == [] then 0 else FailedRuns(rows[..|rows| - 1]) + (if rows[|rows| - 1].status.Failed? then 1 else 0)
  }

  function LegacyRuns(rows: seq<Row>): nat {
    if rows == [] then 0
    else LegacyRuns(rows[..|rows| - 1]) + (if rows[|rows| - 1].validity.LegacyControlOnly? then 1 else 0)
  }

  function SummaryOf(key: GroupKey, rows: seq<Row>, metrics: seq<string>): GroupSummary {
    GroupSummary(key, RunIds(rows), |rows|, CountOf(rows, CompletedRuns), FailedRuns(rows), CountOf(rows, ValidRuns),
                 LegacyRuns(rows), MetricTable(rows, metrics))
  }

  function Summaries(rows: seq<Row>, groupBy: seq<string>, keys: seq<GroupKey>,
                     metrics: seq<string>): seq<GroupSummary> {
    if keys == [] then []
    else
      var key := keys[|keys| - 1];
      Summaries(rows, groupBy, keys[..|keys| - 1], metrics) + [SummaryOf(key, Members(rows, groupBy, key), metrics)]
  }

  /** How `str` renders a value is a parameter, so that keys may render alike. */
  function Rendered(show: Dim -> string, key: GroupKey): seq<string> {
    if key == [] then [] else [show(key[0])] + Rendered(show, key[1..])
  }

  function KeyOrder(show: Dim -> string): (GroupKey, GroupKey) -> bool {
    (a: GroupKey, b: GroupKey) => !TupleLt(Rendered(show, b), Rendered(show, a))
  }

  lemma KeyOrderIsPreorder(show: Dim -> string)
    ensures Preorder(KeyOrder(show))
  {
    TupleOrder();
    var le := KeyOrder(show);
    forall a, b, c | le(a, b) && le(b, c) ensures le(a, c) {
      var x, y, z := Rendered(show, a), Rendered(show, b), Rendered(show, c);
      assert TupleLt(x, y) || x == y;
      assert TupleLt(y, z) || y == z;
    }
  }

  const EFFECTIVENESS_METRICS :=
    ["conclusion_correctness_score", "required_evidence_score", "grounding_score", "completeness_score",
     "relationship_score", "temporal_reasoning_score", "unsupported_numeric_claims_count"]

  const EFFICIENCY_METRICS :=
    ["tool_call_count", "context_acquired_count", "context_consumed_count",
     "information_flow.redundant_acquisition_count", "information_flow.tool_error_count", "total_latency_ms",
     "total_tokens"]

  /** No metrics asked for means all of them. */
  function Chosen(metrics: seq<string>): seq<string> {
    if metrics == [] then EFFECTIVENESS_METRICS + EFFICIENCY_METRICS else metrics
  }

  const CONTROL_FIELDS := ["scenario_id", "simulation_seed", "llm_model", "llm_temperature", "max_steps"]

  function Without(fields: seq<string>, drop: seq<string>): seq<string> {
    if fields == [] then []
    else Without(fields[..|fields| - 1], drop) + (if fields[|fields| - 1] in drop then [] else [fields[|fields| - 1]])
  }

  /** The seed is tied to the scenario, so grouping on the scenario frees it too. */
  function HoldConstant(groupBy: seq<string>, given: Option<seq<string>>): seq<string> {
    if given.Some? then given.value
    else
      var rest := Without(CONTROL_FIELDS, groupBy);
      if "scenario_id" in groupBy then Without(rest, ["simulation_seed"]) else rest
  }

  function FieldValues(rows: seq<Row>, field: string): set<Dim> {
    set r | r in rows :: Dimension(r, field)
  }

  function Differing(rows: seq<Row>, fields: seq<string>): Variance {
    if fields == [] then map[]
    else
      var front, last := Differing(rows, fields[..|fields| - 1]), fields[|fields| - 1];
      if |FieldValues(rows, last)| > 1 then front[last := FieldValues(rows, last)] else front
  }

  function FirstOutside(names: seq<string>, known: set<string>): Option<string> {
    if names == [] then None
    else if names[0] !in known then Some(names[0])
    else FirstOutside(names[1..], known)
  }

  function SortedKeys(rows: seq<Row>, groupBy: seq<string>, show: Dim -> string): seq<GroupKey> {
    Sort(KeyOrder(show), FirstKeys(rows, groupBy))
  }

  function VarianceOf(included: seq<Row>, hold: seq<string>): Variance {
    if included == [] then map[] else Differing(included, hold)
  }

  /** Everything that is refused, in the order it is checked. */
  function Refusal(included: seq<Row>, groupBy: seq<string>, hold: seq<string>, allowHeterogeneous: bool,
                   dimensions: set<string>): Option<Error> {
    if groupBy == [] then Some(EmptyGroupBy)
    else
      match FirstOutside(groupBy, dimensions)
      case Some(name) => Some(UnknownDimension(name))
      case None => ControlRefusal(included, hold, allowHeterogeneous)
  }

  function ControlRefusal(included: seq<Row>, hold: seq<string>, allowHeterogeneous: bool): Option<Error> {
    var bad := FirstOutside(hold, SetOf(CONTROL_FIELDS));
    if included != [] && bad.Some? then Some(UnknownControl(bad.value))
    else if VarianceOf(included, hold) != map[] && !allowHeterogeneous then
      Some(HeterogeneousControls(VarianceOf(included, hold)))
    else None
  }

  function ReportOf(rows: seq<Row>, groupBy: seq<string>, metrics: seq<string>, hold: seq<string>, includeInvalid: bool,
                    show: Dim -> string): Report {
    var included := Included(rows, includeInvalid);
    Report(groupBy, hold, VarianceOf(included, hold) == map[], VarianceOf(included, hold), includeInvalid,
           |rows| - |included|, Summaries(included, groupBy, SortedKeys(included, groupBy, show), Chosen(metrics)),
           Sort(StringLe, RunIds(rows)))
  }

  /** The result as a function of its inputs; `dimensions` are the names that have a resolver. */
  function AggregateOf(rows: seq<Row>, groupBy: seq<string>, metrics: seq<string>, given: Option<seq<string>>,
                       includeInvalid: bool, allowHeterogeneous: bool, dimensions: set<string>,
                       show: Dim -> string): Outcome {
    var included, hold := Included(rows, includeInvalid), HoldConstant(groupBy, given);
    match Refusal(included, groupBy, hold, allowHeterogeneous, dimensions)
    case Some(error) => Raised(error)
    case None => Done(ReportOf(rows, groupBy, metrics, hold, includeInvalid, show))
  }

  // ---------------------------------------------------------------------
  // What the report guarantees

  lemma {:induction false} StatusesPartition(rows: seq<Row>)
    ensures CountOf(rows, CompletedRuns) + FailedRuns(rows) == |rows|
    ensures CountOf(rows, ValidRuns) + LegacyRuns(rows) == |rows|
  {
    if rows != [] {
      StatusesPartition(rows[..|rows| - 1]);
    }
  }

  lemma {:induction false} MetricTableEntry(rows: seq<Row>, metrics: seq<string>, metric: string)
    requires metric in metrics
    ensures metric in MetricTable(rows, metrics)
            && MetricTable(rows, metrics)[metric] == Summarize(Values(rows, metric))
  {
    var front, last := metrics[..|metrics| - 1], metrics[|metrics| - 1];
    assert metrics == front + [last];
    if last != metric {
      MetricTableEntry(rows, front, metric);
    }
  }

  lemma SortedKeysFacts(rows: seq<Row>, groupBy: seq<string>, show: Dim -> string)
    ensures Distinct(SortedKeys(rows, groupBy, show))
    ensures forall r :: r in rows ==> KeyOf(r, groupBy) in SortedKeys(rows, groupBy, show)
    ensures forall k :: k in SortedKeys(rows, groupBy, show) ==> k in FirstKeys(rows, groupBy)
    ensures SortedBy(KeyOrder(show), SortedKeys(rows, groupBy, show))
  {
    KeyOrderIsPreorder(show);
    FirstKeysFacts(rows, groupBy);
    SortMembers(KeyOrder(show), FirstKeys(rows, groupBy));
    SortProperties(KeyOrder(show), FirstKeys(rows, groupBy));
  }

  function RunTotal(groups: seq<GroupSummary>): nat {
    if groups == [] then 0 else RunTotal(groups[..|groups| - 1]) + groups[|groups| - 1].nRuns
  }

  /** Sum over the groups of count times mean, and of the counts. */
  function MetricSum(groups: seq<GroupSummary>, metric: string): real
    requires forall g :: g in groups ==> metric in g.metrics
  {
    if groups == [] then 0.0
    else MetricSum(groups[..|groups| - 1], metric) + Contribution(groups[|groups| - 1].metrics[metric])
  }

  function MetricCount(groups: seq<GroupSummary>, metric: string): nat
    requires forall g :: g in groups ==> metric in g.metrics
  {
    if groups == [] then 0
    else MetricCount(groups[..|groups| - 1], metric) + Count(groups[|groups| - 1].metrics[metric])
  }

  lemma {:induction false} SummariesLength(rows: seq<Row>, groupBy: seq<string>, keys: seq<GroupKey>,
                                           metrics: seq<string>)
    ensures |Summaries(rows, groupBy, keys, metrics)| == |keys|
  {
    if keys != [] {
      SummariesLength(rows, groupBy, keys[..|keys| - 1], metrics);
    }
  }

  lemma {:induction false} SummaryAt(rows: seq<Row>, groupBy: seq<string>, keys: seq<GroupKey>, metrics: seq<string>,
                                     i: nat)
    requires i < |keys| == |Summaries(rows, groupBy, keys, metrics)|
    ensures Summaries(rows, groupBy, keys, metrics)[i] == SummaryOf(keys[i], Members(rows, groupBy, keys[i]), metrics)
  {
    SummariesLength(rows, groupBy, keys[..|keys| - 1], metrics);
    if i < |keys| - 1 {
      SummaryAt(rows, groupBy, keys[..|keys| - 1], metrics, i);
    }
  }

  lemma {:induction false} RunTotals(rows: seq<Row>, groupBy: seq<string>, keys: seq<GroupKey>, metrics: seq<string>)
    ensures RunTotal(Summaries(rows, groupBy, keys, metrics)) as real == GroupTotals(rows, groupBy, keys, Runs)
  {
    if keys != [] {
      var front := keys[..|keys| - 1];
      RunTotals(rows, groupBy, front, metrics);
      var groups := Summaries(rows, groupBy, front, metrics);
      assert Summaries(rows, groupBy, keys, metrics)[..|groups|] == groups;
      TotalsAreCounts(Members(rows, groupBy, keys[|keys| - 1]));
    }
  }

  lemma SummaryTotals(rows: seq<Row>, metric: string)
    ensures Contribution(Summarize(Values(rows, metric))) == Total(rows, ValueTotal(metric))
    ensures Count(Summarize(Values(rows, metric))) as real == Total(rows, ValueCount(metric))
  {
    TotalsAreSums(rows, metric);
    ContributionIsSum(Values(rows, metric));
  }

  lemma {:induction false} MetricTotals(rows: seq<Row>, groupBy: seq<string>, keys: seq<GroupKey>, metrics: seq<string>,
                                        metric: string)
    requires metric in metrics
    ensures forall g :: g in Summaries(rows, groupBy, keys, metrics) ==> metric in g.metrics
    ensures MetricSum(Summaries(rows, groupBy, keys, metrics), metric)
         == GroupTotals(rows, groupBy, keys, ValueTotal(metric))
    ensures MetricCount(Summaries(rows, groupBy, keys, metrics), metric) as real
         == GroupTotals(rows, groupBy, keys, ValueCount(metric))
  {
    if keys != [] {
      var front, members := keys[..|keys| - 1], Members(rows, groupBy, keys[|keys| - 1]);
      MetricTotals(rows, groupBy, front, metrics, metric);
      var groups := Summaries(rows, groupBy, front, metrics);
      assert Summaries(rows, groupBy, keys, metrics)[..|groups|] == groups;
      MetricTableEntry(members, metrics, metric);
      SummaryTotals(members, metric);
    }
  }

  /**
   What the summaries say of the included rows: the groups are exactly the classes of equal keys, none lost
   and none counted twice.
   */
  ghost predicate Partitions(groups: seq<GroupSummary>, rows: seq<Row>, groupBy: seq<string>, metrics: seq<string>) {
    && (forall i, j :: 0 <= i < j < |groups| ==> groups[i].key != groups[j].key)
    && (forall r :: r in rows ==> exists i :: 0 <= i < |groups| && groups[i].key == KeyOf(r, groupBy))
    && (forall g :: g in groups ==> g == SummaryOf(g.key, Members(rows, groupBy, g.key), metrics) && g.nRuns > 0)
  }

  lemma {:induction false} GroupsPartition(rows: seq<Row>, groupBy: seq<string>, metrics: seq<string>,
                                           show: Dim -> string)
    ensures Partitions(Summaries(rows, groupBy, SortedKeys(rows, groupBy, show), metrics), rows, groupBy, metrics)
    ensures RunTotal(Summaries(rows, groupBy, SortedKeys(rows, groupBy, show), metrics)) == |rows|
  {
    var keys := SortedKeys(rows, groupBy, show);
    var groups := Summaries(rows, groupBy, keys, metrics);
    SortedKeysFacts(rows, groupBy, show);
    SummariesLength(rows, groupBy, keys, metrics);
    forall i | 0 <= i < |keys| ensures groups[i] == SummaryOf(keys[i], Members(rows, groupBy, keys[i]), metrics) {
      SummaryAt(rows, groupBy, keys, metrics, i);
    }
    assert RunTotal(groups) == |rows| by {
      RunTotals(rows, groupBy, keys, metrics);
      GroupsConserve(rows, groupBy, keys, Runs);
      TotalsAreCounts(rows);
    }
    forall r | r in rows ensures exists i :: 0 <= i < |groups| && groups[i].key == KeyOf(r, groupBy) {
      var i :| 0 <= i < |keys| && keys[i] == KeyOf(r, groupBy);
      assert groups[i].key == keys[i];
    }
    forall g | g in groups ensures g == SummaryOf(g.key, Members(rows, groupBy, g.key), metrics) && g.nRuns > 0 {
      var i :| 0 <= i < |groups| && groups[i] == g;
      assert keys[i] in keys;
      FirstKeysFacts(rows, groupBy);
      MembersFacts(rows, groupBy, g.key);
      var r :| r in rows && KeyOf(r, groupBy) == g.key;
      assert r in Members(rows, groupBy, g.key);
    }
  }

  /** Within a group every run counts once by status and once by validity. */
  lemma GroupCounts(rows: seq<Row>, groupBy: seq<string>, key: GroupKey, metrics: seq<string>)
    ensures var g := SummaryOf(key, Members(rows, groupBy, key), metrics);
            g.nCompleted + g.nFailed == g.nRuns && g.nValid + g.nLegacy == g.nRuns
  {
    StatusesPartition(Members(rows, groupBy, key));
  }

  /**
   The whole report: groups partition the included rows, exclusions make up the rest, and without
   `include_invalid` no group counts a legacy run.
   */
  lemma {:induction false} ReportPartitions(rows: seq<Row>, groupBy: seq<string>, metrics: seq<string>,
                                            given: Option<seq<string>>, includeInvalid: bool, allowHeterogeneous: bool,
                                            dimensions: set<string>, show: Dim -> string)
    requires AggregateOf(rows, groupBy, metrics, given, includeInvalid, allowHeterogeneous, dimensions, show).Done?
    ensures var report :=
            AggregateOf(rows, groupBy, metrics, given, includeInvalid, allowHeterogeneous, dimensions, show).report;
            && Partitions(report.groups, Included(rows, includeInvalid), groupBy, Chosen(metrics))
            && RunTotal(report.groups) + report.excluded == |rows|
            && (!includeInvalid ==> forall g :: g in report.groups ==> g.nLegacy == 0)
  {
    var included := Included(rows, includeInvalid);
    GroupsPartition(included, groupBy, Chosen(metrics), show);
    var groups := Summaries(included, groupBy, SortedKeys(included, groupBy, show), Chosen(metrics));
    if !includeInvalid {
      OnlyValid(rows);
      forall g | g in groups ensures g.nLegacy == 0 {
        MembersFacts(included, groupBy, g.key);
        NoLegacy(Members(included, groupBy, g.key));
      }
    }
  }

  /** Two of the rows differ in the field. */
  ghost predicate Varies(rows: seq<Row>, field: string) {
    exists i, j :: 0 <= i < j < |rows| && Dimension(rows[i], field) != Dimension(rows[j], field)
  }

  lemma VariesIffSeveralValues(rows: seq<Row>, field: string)
    ensures |FieldValues(rows, field)| > 1 <==> Varies(rows, field)
  {
    var values := FieldValues(rows, field);
    if |values| > 1 {
      var v :| v in values;
      assert |values - {v}| > 0;
      var w :| w in values - {v};
      var i :| 0 <= i < |rows| && Dimension(rows[i], field) == v;
      var j :| 0 <= j < |rows| && Dimension(rows[j], field) == w;
      assert Varies(rows, field) by {
        assert Dimension(rows[if i < j then i else j], field) != Dimension(rows[if i < j then j else i], field);
      }
    }
    if Varies(rows, field) {
      var i, j :| 0 <= i < j < |rows| && Dimension(rows[i], field) != Dimension(rows[j], field);
      SubsetSize({Dimension(rows[i], field), Dimension(rows[j], field)}, values);
    }
  }

  /** The variance holds exactly the held fields in which two records differ. */
  lemma {:induction false} DifferingFacts(rows: seq<Row>, fields: seq<string>)
    ensures forall f :: f in Differing(rows, fields) <==> f in fields && Varies(rows, f)
    ensures forall f :: f in Differing(rows, fields) ==> Differing(rows, fields)[f] == FieldValues(rows, f)
  {
    if fields != [] {
      var front, last := fields[..|fields| - 1], fields[|fields| - 1];
      DifferingFacts(rows, front);
      VariesIffSeveralValues(rows, last);
      assert fields == front + [last];
    }
  }

  lemma DifferingNone(rows: seq<Row>, fields: seq<string>)
    ensures Differing(rows, fields) != map[] <==> exists f :: f in fields && Varies(rows, f)
  {
    DifferingFacts(rows, fields);
    if Differing(rows, fields) != map[] {
      var f :| f in Differing(rows, fields);
    }
  }

  lemma {:induction false} FirstOutsideFinds(names: seq<string>, known: set<string>)
    ensures FirstOutside(names, known).Some? <==> exists n :: n in names && n !in known
  {
    if names != [] {
      FirstOutsideFinds(names[1..], known);
      assert names == [names[0]] + names[1..];
    }
  }

  ghost predicate Incompatible(included: seq<Row>, groupBy: seq<string>, hold: seq<string>, allowHeterogeneous: bool,
                               dimensions: set<string>) {
    || groupBy == []
    || (exists d :: d in groupBy && d !in dimensions)
    || (included != [] && exists f :: f in hold && f !in CONTROL_FIELDS)
    || (!allowHeterogeneous && exists f :: f in hold && Varies(included, f))
  }

  /**
   Aggregation is refused exactly for no or unknown dimensions, unknown controls, or, unless allowed,
   included records that differ in a held one.
   */
  lemma RefusedIff(rows: seq<Row>, groupBy: seq<string>, metrics: seq<string>, given: Option<seq<string>>,
                   includeInvalid: bool, allowHeterogeneous: bool, dimensions: set<string>, show: Dim -> string)
    ensures AggregateOf(rows, groupBy, metrics, given, includeInvalid, allowHeterogeneous, dimensions, show).Raised?
       <==> Incompatible(Included(rows, includeInvalid), groupBy, HoldConstant(groupBy, given), allowHeterogeneous,
                         dimensions)
  {
    var included, hold := Included(rows, includeInvalid), HoldConstant(groupBy, given);
    FirstOutsideFinds(groupBy, dimensions);
    FirstOutsideFinds(hold, SetOf(CONTROL_FIELDS));
    DifferingNone(included, hold);
  }

  lemma {:induction false} OnlyValid(rows: seq<Row>)
    ensures forall r :: r in Included(rows, false) ==> r.validity.Valid?
  {
    if rows != [] {
      OnlyValid(rows[..|rows| - 1]);
    }
  }

  lemma {:induction false} NoLegacy(rows: seq<Row>)
    requires forall r :: r in rows ==> r.validity.Valid?
    ensures LegacyRuns(rows) == 0
  {
    if rows != [] {
      assert rows == rows[..|rows| - 1] + [rows[|rows| - 1]];
      NoLegacy(rows[..|rows| - 1]);
    }
  }

  /**
   Grouping loses no observation: over the groups, counts add up to the usable values and count times mean
   to their sum.
   */
  lemma {:induction false} TotalsConserved(rows: seq<Row>, groupBy: seq<string>, metrics: seq<string>,
                                           show: Dim -> string, metric: string)
    requires metric in metrics
    ensures forall g :: g in Summaries(rows, groupBy, SortedKeys(rows, groupBy, show), metrics) ==> metric in g.metrics
    ensures MetricSum(Summaries(rows, groupBy, SortedKeys(rows, groupBy, show), metrics), metric)
         == Sum(Values(rows, metric))
    ensures MetricCount(Summaries(rows, groupBy, SortedKeys(rows, groupBy, show), metrics), metric)
         == |Values(rows, metric)|
  {
    var keys := SortedKeys(rows, groupBy, show);
    SortedKeysFacts(rows, groupBy, show);
    MetricTotals(rows, groupBy, keys, metrics, metric);
    GroupsConserve(rows, groupBy, keys, ValueTotal(metric));
    GroupsConserve(rows, groupBy, keys, ValueCount(metric));
    TotalsAreSums(rows, metric);
  }

  // ---------------------------------------------------------------------
  // Finer and coarser groupings

  /** `group_key`: the dictionary from dimension name to value. */
  function AsMap(groupBy: seq<string>, key: GroupKey): map<string, Dim>
    requires |key| == |groupBy|
  {
    if groupBy == [] then map[] else AsMap(groupBy[1..], key[1..])[groupBy[0] := key[0]]
  }

  lemma {:induction false} KeyIsItsMap(r: Row, groupBy: seq<string>)
    ensures |KeyOf(r, groupBy)| == |groupBy|
    ensures forall d :: d in AsMap(groupBy, KeyOf(r, groupBy)) <==> d in groupBy
    ensures forall d :: d in groupBy ==> AsMap(groupBy, KeyOf(r, groupBy))[d] == Dimension(r, d)
  {
    if groupBy != [] {
      KeyIsItsMap(r, groupBy[1..]);
      assert groupBy == [groupBy[0]] + groupBy[1..];
      assert KeyOf(r, groupBy)[1..] == KeyOf(r, groupBy[1..]);
    }
  }

  lemma {:induction false} SameKeyIffSameDimensions(a: Row, b: Row, groupBy: seq<string>)
    ensures KeyOf(a, groupBy) == KeyOf(b, groupBy) <==> forall d :: d in groupBy ==> Dimension(a, d) == Dimension(b, d)
  {
    if groupBy != [] {
      SameKeyIffSameDimensions(a, b, groupBy[1..]);
      assert groupBy == [groupBy[0]] + groupBy[1..];
      assert KeyOf(a, groupBy)[0] == Dimension(a, groupBy[0]) && KeyOf(b, groupBy)[0] == Dimension(b, groupBy[0]);
      assert KeyOf(a, groupBy)[1..] == KeyOf(a, groupBy[1..]) && KeyOf(b, groupBy)[1..] == KeyOf(b, groupBy[1..]);
    }
  }

  /** A fine group key agrees with a coarse one on the coarse dimensions. */
  ghost predicate Within(fine: seq<string>, f: GroupKey, coarse: seq<string>, c: GroupKey)
    requires |f| == |fine| && |c| == |coarse|
  {
    forall d :: d in coarse ==> d in AsMap(fine, f) && d in AsMap(coarse, c) && AsMap(fine, f)[d] == AsMap(coarse, c)[d]
  }

  /**
   With more dimensions, a run's fine group lies within a coarse group exactly when the run is in that
   coarse group.
   */
  lemma WithinIsMembership(r: Row, fine: seq<string>, coarse: seq<string>, c: GroupKey, s: Row)
    requires SetOf(coarse) <= SetOf(fine) && c == KeyOf(s, coarse)
    ensures |KeyOf(r, fine)| == |fine| && |c| == |coarse|
    ensures Within(fine, KeyOf(r, fine), coarse, c) <==> KeyOf(r, coarse) == c
  {
    KeyIsItsMap(r, fine);
    KeyIsItsMap(s, coarse);
    SameKeyIffSameDimensions(r, s, coarse);
    forall d | d in coarse ensures d in fine {
      assert d in SetOf(coarse);
    }
  }

  /** Total over those fine groups that lie within a coarse one. */
  ghost function TotalWithin(rows: seq<Row>, fine: seq<string>, keys: seq<GroupKey>, coarse: seq<string>, c: GroupKey,
                             m: Measure): real
    requires |c| == |coarse| && forall k :: k in keys ==> |k| == |fine|
  {
    if keys == [] then 0.0
    else
      var k := keys[|keys| - 1];
      TotalWithin(rows, fine, keys[..|keys| - 1], coarse, c, m)
      + (if Within(fine, k, coarse, c) then Total(Members(rows, fine, k), m) else 0.0)
  }

  /** `rows` whose fine key is `f` are in the coarse group or not according to `inside`. */
  lemma {:induction false} MembersWithin(rows: seq<Row>, fine: seq<string>, f: GroupKey, coarse: seq<string>,
                                         c: GroupKey, inside: bool)
    requires forall r :: r in rows && KeyOf(r, fine) == f ==> (inside <==> KeyOf(r, coarse) == c)
    ensures Members(Members(rows, coarse, c), fine, f) == if inside then Members(rows, fine, f) else []
  {
    if rows != [] {
      var front, last := rows[..|rows| - 1], rows[|rows| - 1];
      assert rows == front + [last];
      MembersWithin(front, fine, f, coarse, c, inside);
      MembersSnoc(front, last, coarse, c);
      MembersSnoc(front, last, fine, f);
      MembersSnoc(Members(front, coarse, c), last, fine, f);
      assert last in rows;
      if KeyOf(last, coarse) != c {
        assert Members(rows, coarse, c) == Members(front, coarse, c);
      }
    }
  }

  lemma {:induction false} SumWithin(rows: seq<Row>, fine: seq<string>, keys: seq<GroupKey>, coarse: seq<string>,
                                     c: GroupKey, m: Measure)
    requires |c| == |coarse| && forall k :: k in keys ==> |k| == |fine|
    requires forall r :: r in rows
               ==> |KeyOf(r, fine)| == |fine| && (Within(fine, KeyOf(r, fine), coarse, c) <==> KeyOf(r, coarse) == c)
    ensures TotalWithin(rows, fine, keys, coarse, c, m) == GroupTotals(Members(rows, coarse, c), fine, keys, m)
  {
    if keys != [] {
      var front, k := keys[..|keys| - 1], keys[|keys| - 1];
      assert keys == front + [k];
      SumWithin(rows, fine, front, coarse, c, m);
      MembersWithin(rows, fine, k, coarse, c, Within(fine, k, coarse, c));
    }
  }

  /** Grouping by more dimensions refines: every measure of a coarse group is the sum over the fine groups within it. */
  lemma {:induction false} FinerRefinesCoarser(rows: seq<Row>, fine: seq<string>, coarse: seq<string>, c: GroupKey,
                                               m: Measure)
    requires SetOf(coarse) <= SetOf(fine) && c in FirstKeys(rows, coarse)
    ensures |c| == |coarse| && forall k :: k in FirstKeys(rows, fine) ==> |k| == |fine|
    ensures Total(Members(rows, coarse, c), m) == TotalWithin(rows, fine, FirstKeys(rows, fine), coarse, c, m)
  {
    var keys := FirstKeys(rows, fine);
    FirstKeysFacts(rows, coarse);
    FirstKeysFacts(rows, fine);
    var s :| s in rows && KeyOf(s, coarse) == c;
    KeyIsItsMap(s, coarse);
    forall r | r in rows
      ensures |KeyOf(r, fine)| == |fine| && (Within(fine, KeyOf(r, fine), coarse, c) <==> KeyOf(r, coarse) == c)
    {
      WithinIsMembership(r, fine, coarse, c, s);
    }
    forall k | k in keys ensures |k| == |fine| {
      var r :| r in rows && KeyOf(r, fine) == k;
    }
    SumWithin(rows, fine, keys, coarse, c, m);
    MembersFacts(rows, coarse, c);
    GroupsConserve(Members(rows, coarse, c), fine, keys, m);
  }

  // ---------------------------------------------------------------------
  // Grouping records that agree on the one dimension

  /** No group without valid records. */
  function GroupOf(key: GroupKey, rows: seq<Row>, metrics: seq<string>): seq<GroupSummary> {
    if Included(rows, false) == [] then [] else [SummaryOf(key, Included(rows, false), metrics)]
  }

  lemma DefaultControls(name: string)
    ensures FirstOutside(HoldConstant([name], None), SetOf(CONTROL_FIELDS)) == None
  {
    WithoutKeeps(CONTROL_FIELDS, [name]);
    WithoutKeeps(Without(CONTROL_FIELDS, [name]), ["simulation_seed"]);
    AllInside(HoldConstant([name], None), SetOf(CONTROL_FIELDS));
  }

  lemma {:induction false} WithoutKeeps(fields: seq<string>, drop: seq<string>)
    ensures forall f :: f in Without(fields, drop) ==> f in fields
  {
    if fields != [] {
      WithoutKeeps(fields[..|fields| - 1], drop);
      assert fields == fields[..|fields| - 1] + [fields[|fields| - 1]];
    }
  }

  lemma {:induction false} AllInside(names: seq<string>, known: set<string>)
    requires forall n :: n in names ==> n in known
    ensures FirstOutside(names, known) == None
  {
    if names != [] {
      AllInside(names[1..], known);
    }
  }

  lemma {:induction false} OneKey(rows: seq<Row>, groupBy: seq<string>, key: GroupKey)
    requires forall r :: r in rows ==> KeyOf(r, groupBy) == key
    ensures FirstKeys(rows, groupBy) == if rows == [] then [] else [key]
    ensures Members(rows, groupBy, key) == rows
  {
    if rows != [] {
      assert rows == rows[..|rows| - 1] + [rows[|rows| - 1]];
      OneKey(rows[..|rows| - 1], groupBy, key);
    }
  }

  lemma SortShort<T>(le: (T, T) -> bool, x: T)
    ensures Sort(le, [x]) == [x]
    ensures Sort<T>(le, []) == []
  {
    assert [x][1..] == [];
  }

  lemma SummariesShort(rows: seq<Row>, groupBy: seq<string>, key: GroupKey, metrics: seq<string>)
    ensures Summaries(rows, groupBy, [key], metrics) == [SummaryOf(key, Members(rows, groupBy, key), metrics)]
  {
    assert [key][..0] == [];
  }

  lemma {:induction false} IncludedMembers(rows: seq<Row>)
    ensures forall r :: r in Included(rows, false) ==> r in rows
  {
    if rows != [] {
      IncludedMembers(rows[..|rows| - 1]);
      assert rows == rows[..|rows| - 1] + [rows[|rows| - 1]];
    }
  }

  /** Records with one value of a dimension aggregate by it to a single group of the valid ones, or to none. */
  lemma OneGroup(rows: seq<Row>, name: string, value: Dim, metrics: seq<string>, dimensions: set<string>,
                 show: Dim -> string)
    requires name in dimensions && forall r :: r in rows ==> Dimension(r, name) == value
    ensures var outcome := AggregateOf(rows, [name], metrics, None, false, true, dimensions, show);
            outcome.Done? && outcome.report.groups == GroupOf([value], rows, Chosen(metrics))
  {
    var valid := Included(rows, false);
    assert [name][1..] == [] && FirstOutside([name], dimensions) == None;
    DefaultControls(name);
    IncludedMembers(rows);
    OneKey(valid, [name], [value]);
    SortShort(KeyOrder(show), [value]);
    SummariesShort(valid, [name], [value], Chosen(metrics));
  }

  // ---------------------------------------------------------------------
  // The loops

  /** `groups.setdefault(key, []).append(record)`. */
  method GroupRows(rows: seq<Row>, groupBy: seq<string>) returns (groups: map<GroupKey, seq<Row>>, order: seq<GroupKey>)
    ensures order == FirstKeys(rows, groupBy)
    ensures forall k :: k in groups <==> k in order
    ensures forall k :: k in groups ==> groups[k] == Members(rows, groupBy, k)
  {
    groups, order := map[], [];
    for i := 0 to |rows|
      invariant order == FirstKeys(rows[..i], groupBy)
      invariant forall k :: k in groups <==> k in order
      invariant forall k :: k in groups ==> groups[k] == Members(rows[..i], groupBy, k)
    {
      assert rows[..i + 1][..i] == rows[..i];
      var key := KeyOf(rows[i], groupBy);
      if key !in groups {
        NewKeyEmpty(rows[..i], groupBy, key);
        groups, order := groups[key := []], order + [key];
      }
      groups := groups[key := groups[key] + [rows[i]]];
    }
    assert rows[..|rows|] == rows;
  }

  lemma NewKeyEmpty(rows: seq<Row>, groupBy: seq<string>, key: GroupKey)
    requires key !in FirstKeys(rows, groupBy)
    ensures Members(rows, groupBy, key) == []
  {
    FirstKeysFacts(rows, groupBy);
    MembersFacts(rows, groupBy, key);
    assert SetOf(Members(rows, groupBy, key)) == {};
    SetOfEmpty(Members(rows, groupBy, key));
  }

  method SummarizeMetrics(rows: seq<Row>, metrics: seq<string>) returns (table: map<string, Stats>)
    ensures table == MetricTable(rows, metrics)
  {
    table := map[];
    for i := 0 to |metrics|
      invariant table == MetricTable(rows, metrics[..i])
    {
      assert metrics[..i + 1][..i] == metrics[..i];
      table := table[metrics[i] := Summarize(Values(rows, metrics[i]))];
    }
    assert metrics[..|metrics|] == metrics;
  }

  method SummarizeGroups(groups: map<GroupKey, seq<Row>>, keys: seq<GroupKey>, metrics: seq<string>,
                         ghost rows: seq<Row>, ghost groupBy: seq<string>)
    returns (summaries: seq<GroupSummary>)
    requires forall k :: k in keys ==> k in groups && groups[k] == Members(rows, groupBy, k)
    ensures summaries == Summaries(rows, groupBy, keys, metrics)
  {
    summaries := [];
    for i := 0 to |keys|
      invariant summaries == Summaries(rows, groupBy, keys[..i], metrics)
    {
      assert keys[..i + 1][..i] == keys[..i];
      assert keys[i] in keys;
      var members := groups[keys[i]];
      var table := SummarizeMetrics(members, metrics);
      summaries := summaries
        + [GroupSummary(keys[i], RunIds(members), |members|, CountOf(members, CompletedRuns), FailedRuns(members),
                        CountOf(members, ValidRuns), LegacyRuns(members), table)];
    }
    assert keys[..|keys|] == keys;
  }

  method CheckControls(included: seq<Row>, hold: seq<string>, allowHeterogeneous: bool)
    returns (variance: Variance, error: Option<Error>)
    ensures variance == VarianceOf(included, hold) && error == ControlRefusal(included, hold, allowHeterogeneous)
  {
    variance, error := map[], None;
    if included != [] {
      variance := Differing(included, hold);
      var bad := FirstOutside(hold, SetOf(CONTROL_FIELDS));
      if bad.Some? {
        return variance, Some(UnknownControl(bad.value));
      }
    }
    if variance != map[] && !allowHeterogeneous {
      error := Some(HeterogeneousControls(variance));
    }
  }

  method SummarizeAll(included: seq<Row>, groupBy: seq<string>, metrics: seq<string>, show: Dim -> string)
    returns (summaries: seq<GroupSummary>)
    ensures summaries == Summaries(included, groupBy, SortedKeys(included, groupBy, show), metrics)
  {
    var groups, order := GroupRows(included, groupBy);
    var keys := Sort(KeyOrder(show), order);
    SortedKeysFacts(included, groupBy, show);
    summaries := SummarizeGroups(groups, keys, metrics, included, groupBy);
  }

  method CheckRequest(included: seq<Row>, groupBy: seq<string>, hold: seq<string>, allowHeterogeneous: bool,
                      dimensions: set<string>)
    returns (variance: Variance, error: Option<Error>)
    ensures error == Refusal(included, groupBy, hold, allowHeterogeneous, dimensions)
    ensures error.None? ==> variance == VarianceOf(included, hold)
  {
    if groupBy == [] {
      return map[], Some(EmptyGroupBy);
    }
    var unknown := FirstOutside(groupBy, dimensions);
    if unknown.Some? {
      return map[], Some(UnknownDimension(unknown.value));
    }
    variance, error := CheckControls(included, hold, allowHeterogeneous);
  }

  method BuildReport(rows: seq<Row>, groupBy: seq<string>, metrics: seq<string>, hold: seq<string>, variance: Variance,
                     includeInvalid: bool, show: Dim -> string)
    returns (report: Report)
    requires variance == VarianceOf(Included(rows, includeInvalid), hold)
    ensures report == ReportOf(rows, groupBy, metrics, hold, includeInvalid, show)
  {
    var included := Included(rows, includeInvalid);
    var summaries := SummarizeAll(included, groupBy, Chosen(metrics), show);
    report := Report(groupBy, hold, variance == map[], variance, includeInvalid, |rows| - |included|, summaries,
                     Sort(StringLe, RunIds(rows)));
  }

  method AggregateRecords(rows: seq<Row>, groupBy: seq<string>, metrics: seq<string>, given: Option<seq<string>>,
                          includeInvalid: bool, allowHeterogeneous: bool, dimensions: set<string>, show: Dim -> string)
    returns (outcome: Outcome)
    ensures outcome == AggregateOf(rows, groupBy, metrics, given, includeInvalid, allowHeterogeneous, dimensions, show)
  {
    var hold := HoldConstant(groupBy, given);
    var variance, error := CheckRequest(Included(rows, includeInvalid), groupBy, hold, allowHeterogeneous, dimensions);
    if error.Some? {
      return Raised(error.value);
    }
    var report := BuildReport(rows, groupBy, metrics, hold, variance, includeInvalid, show);
    outcome := Done(report);
  }
}
