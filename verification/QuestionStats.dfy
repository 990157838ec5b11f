/**
 Question-level statistics and their two roll-ups: the macro average (mean of the
 questions' means) and the micro average (mean over all runs), and the same two
 numbers as the campaign export computes them.
 */
module QuestionStats {
  import opened Basics
  import opened Aggregation

  function OfQuestion(rows: seq<Row>, q: string): seq<Row> {
    Members(rows, ["question_id"], [Text(q)])
  }

  function OfUseCase(rows: seq<Row>, useCase: string): seq<Row> {
    Members(rows, ["use_case_id"], [Text(useCase)])
  }

  function ScoresOf(rows: seq<Row>, q: string, metric: string): seq<real> {
    Values(OfQuestion(rows, q), metric)
  }

  function MeanOf(values: seq<real>): Option<real> {
    if values == [] then None else Some(Mean(values))
  }

  /** The means of those questions that have any usable score. */
  function QuestionMeans(rows: seq<Row>, questions: seq<string>, metric: string): seq<real> {
    if questions == [] then []
    else
      var scores := ScoresOf(rows, questions[|questions| - 1], metric);
      QuestionMeans(rows, questions[..|questions| - 1], metric) + (if scores == [] then [] else [Mean(scores)])
  }

  /** `sorted(values)[len(values) // 2]`. */
  function UpperMedian(values: seq<real>): real
    requires values != []
  {
    SortProperties(AtMost, values);
    Sort(AtMost, values)[|values| / 2]
  }

  function Passes(values: seq<real>): nat {
    if values == [] then 0 else Passes(values[..|values| - 1]) + (if values[|values| - 1] >= 1.0 then 1 else 0)
  }

  /** How much evidence so many runs are. */
  datatype SampleSize = NoEvidence | SingleObservation | TentativeSmallN | RepeatedEmpiricalResult

  function SampleSizeOf(n: nat): SampleSize {
    if n == 0 then NoEvidence else if n == 1 then SingleObservation else if n < 5 then TentativeSmallN
    else RepeatedEmpiricalResult
  }

  /** What is kept of each question. */
  datatype Entry = Entry(
    questionId: string,
    repetitions: nat,
    usable: nat,
    successRate: Option<real>,
    mean: Option<real>,
    median: Option<real>,
    spread: Option<real>,
    sampleSize: SampleSize,
    efficiency: map<string, Option<real>>,
    runIds: seq<string>)

  /** A question without runs has every efficiency metric, without a mean; one with invalid runs alone has none. */
  function EfficiencyOf(own: seq<Row>): map<string, Option<real>> {
    if own != [] && Included(own, false) == [] then map[]
    else map name | name in EFFICIENCY_METRICS :: MeanOf(Values(Included(own, false), name))
  }

  function EntryOf(rows: seq<Row>, q: string, metric: string): Entry {
    var own, scores := OfQuestion(rows, q), ScoresOf(rows, q, metric);
    Entry(q, |own|, |scores|,
          if scores == [] then None else Some(Passes(scores) as real / |scores| as real),
          MeanOf(scores), if scores == [] then None
          else Some(UpperMedian(scores)), Spread(scores), SampleSizeOf(|scores|), EfficiencyOf(own),
          Sort(StringLe, RunIds(own)))
  }

  function EntriesOf(rows: seq<Row>, questions: seq<string>, metric: string): seq<Entry> {
    MapAll(q => EntryOf(rows, q, metric), questions)
  }

  datatype Rollup = Rollup(questions: seq<Entry>, macro: Option<real>, micro: Option<real>)

  /** `use_case_question_stats`. */
  function RollupOf(rows: seq<Row>, useCase: string, questions: seq<string>, metric: string): Rollup {
    var scoped, sorted := OfUseCase(rows, useCase), Sort(StringLe, questions);
    Rollup(EntriesOf(scoped, sorted, metric), MeanOf(QuestionMeans(scoped, sorted, metric)),
           MeanOf(Values(scoped, metric)))
  }

  // ---------------------------------------------------------------------
  // Two medians

  lemma Halfway(a: real, b: real)
    requires a <= b
    ensures (a + b) / 2.0 <= b && ((a + b) / 2.0 == b <==> a == b)
  {
  }

  /** Both are middle values; they differ only when an even number of values has two different ones in the middle. */
  lemma UpperMedianFacts(values: seq<real>)
    requires values != []
    ensures UpperMedian(values) in values && Median(values) <= UpperMedian(values) <= Greatest(values)
    ensures |Sort(AtMost, values)| == |values|
    ensures UpperMedian(values) == Median(values)
       <==> |values| % 2 == 1 || Sort(AtMost, values)[|values| / 2 - 1] == Sort(AtMost, values)[|values| / 2]
  {
    var sorted := Sort(AtMost, values);
    UpperMedianOccurs(values);
    if |values| % 2 == 0 {
      SortedPair(sorted, |values| / 2);
      Halfway(sorted[|values| / 2 - 1], sorted[|values| / 2]);
    }
  }

  lemma UpperMedianOccurs(values: seq<real>)
    requires values != []
    ensures UpperMedian(values) in values && UpperMedian(values) <= Greatest(values)
    ensures |Sort(AtMost, values)| == |values| && SortedBy(AtMost, Sort(AtMost, values))
  {
    SortProperties(AtMost, values);
    SortMembers(AtMost, values);
    Bounds(values);
    assert Sort(AtMost, values)[|values| / 2] in Sort(AtMost, values);
  }

  lemma SortedPair(sorted: seq<real>, i: nat)
    requires SortedBy(AtMost, sorted) && 0 < i < |sorted|
    ensures sorted[i - 1] <= sorted[i]
  {
    assert AtMost(sorted[i - 1], sorted[i]);
  }

  // ---------------------------------------------------------------------
  // Arithmetic

  lemma {:induction false} TimesSum(n: nat, m: nat, x: real)
    ensures Times(n + m, x) == Times(n, x) + Times(m, x)
  {
    if n > 0 {
      TimesSum(n - 1, m, x);
    }
  }

  lemma {:induction false} TimesOver(n: nat, x: real, y: real)
    ensures Times(n, x + y) == Times(n, x) + Times(n, y)
    ensures x <= y ==> Times(n, x) <= Times(n, y)
  {
    if n > 0 {
      TimesOver(n - 1, x, y);
    }
  }

  lemma {:induction false} TimesZero(n: nat)
    ensures Times(n, 0.0) == 0.0
  {
    if n > 0 {
      TimesZero(n - 1);
    }
  }

  lemma Cancel(n: real, s: real, k: real)
    requires n > 0.0 && k > 0.0 && n * k != 0.0
    ensures (n * s) / (n * k) == s / k
  {
    var q := s / k;
    assert q * k == s;
    Regroup(n, q, k);
    QuotientIs(n * s, n * k, q);
  }

  lemma Regroup(n: real, q: real, k: real)
    ensures q * (n * k) == n * (q * k)
  {
  }

  lemma QuotientIs(a: real, b: real, q: real)
    requires b != 0.0 && q * b == a
    ensures a / b == q
  {
    var p := a / b;
    assert p * b == a;
    assert (p - q) * b == 0.0;
    if p != q {
      NonzeroProduct(p - q, b);
    }
  }

  lemma NonzeroProduct(x: real, y: real)
    requires x != 0.0 && y != 0.0
    ensures x * y != 0.0
  {
    if x > 0.0 && y > 0.0 { assert x * y > 0.0; }
    if x > 0.0 && y < 0.0 { assert x * -y > 0.0; }
    if x < 0.0 && y > 0.0 { assert -x * y > 0.0; }
    if x < 0.0 && y < 0.0 { assert -x * -y > 0.0; }
  }

  /** A common factor in the number of values and in their sum does not change the mean. */
  lemma ScaledMean(n: nat, sum: real, k: nat)
    requires n > 0 && k > 0
    ensures (n * k) as real > 0.0
    ensures Times(n, sum) / (n * k) as real == sum / k as real
  {
    TimesIsProduct(n, sum);
    assert (n * k) as real == n as real * k as real;
    NonzeroProduct(n as real, k as real);
    Cancel(n as real, sum, k as real);
  }

  // ---------------------------------------------------------------------
  // Summing question by question

  function QuestionKeys(questions: seq<string>): seq<GroupKey> {
    if questions == [] then [] else QuestionKeys(questions[..|questions| - 1]) + [[Text(questions[|questions| - 1])]]
  }

  lemma {:induction false} QuestionKeysFacts(questions: seq<string>)
    ensures forall q :: [Text(q)] in QuestionKeys(questions) <==> q in questions
    ensures Distinct(questions) ==> Distinct(QuestionKeys(questions))
    ensures forall k: GroupKey :: k in QuestionKeys(questions) ==> |k| == 1 && k[0].Text?
  {
    if questions != [] {
      var front, last := questions[..|questions| - 1], questions[|questions| - 1];
      QuestionKeysFacts(front);
      assert questions == front + [last];
      forall q ensures [Text(q)] in QuestionKeys(questions) <==> q in questions {
        assert [Text(q)] == [Text(last)]
          <==> q == last by { assert [Text(q)][0] == Text(q) && [Text(last)][0] == Text(last); }
      }
      if Distinct(questions) {
        assert last !in front;
      }
    }
  }

  /** Number of scores and their sum, added up over the questions, the sum as count times mean. */
  function CountSum(rows: seq<Row>, questions: seq<string>, metric: string): nat {
    if questions == [] then 0
    else CountSum(rows, questions[..|questions| - 1], metric) + |ScoresOf(rows, questions[|questions| - 1], metric)|
  }

  function WeightedSum(rows: seq<Row>, questions: seq<string>, metric: string): real {
    if questions == [] then 0.0
    else
      var scores := ScoresOf(rows, questions[|questions| - 1], metric);
      WeightedSum(rows, questions[..|questions| - 1], metric)
        + (if scores == [] then 0.0 else Times(|scores|, Mean(scores)))
  }

  lemma {:induction false} SumsAreGroupTotals(rows: seq<Row>, questions: seq<string>, metric: string)
    ensures CountSum(rows, questions, metric) as real
         == GroupTotals(rows, ["question_id"], QuestionKeys(questions), ValueCount(metric))
    ensures WeightedSum(rows, questions, metric)
         == GroupTotals(rows, ["question_id"], QuestionKeys(questions), ValueTotal(metric))
  {
    if questions != [] {
      var front, last := questions[..|questions| - 1], questions[|questions| - 1];
      SumsAreGroupTotals(rows, front, metric);
      assert QuestionKeys(questions)[..|QuestionKeys(front)|] == QuestionKeys(front);
      var scores := ScoresOf(rows, last, metric);
      TotalsAreSums(OfQuestion(rows, last), metric);
      if scores != [] {
        MeanTimesCount(scores);
      }
    }
  }

  /** Every usable score belongs to one of the questions. */
  ghost predicate Covers(rows: seq<Row>, questions: seq<string>, metric: string) {
    forall r :: r in rows && HasValue(r, metric)
      ==> Dimension(r, "question_id").Text? && Dimension(r, "question_id").text in questions
  }

  lemma QuestionKey(r: Row)
    ensures KeyOf(r, ["question_id"]) == [Dimension(r, "question_id")]
  {
    assert ["question_id"][1..] == [];
  }

  lemma QuestionsConserve(rows: seq<Row>, questions: seq<string>, metric: string)
    requires Distinct(questions) && Covers(rows, questions, metric)
    ensures CountSum(rows, questions, metric) == |Values(rows, metric)|
    ensures WeightedSum(rows, questions, metric) == Sum(Values(rows, metric))
  {
    QuestionKeysCover(rows, questions, metric);
    GroupsConserve(rows, ["question_id"], QuestionKeys(questions), ValueCount(metric));
    GroupsConserve(rows, ["question_id"], QuestionKeys(questions), ValueTotal(metric));
    SumsAreGroupTotals(rows, questions, metric);
    TotalsAreSums(rows, metric);
  }

  lemma QuestionKeysCover(rows: seq<Row>, questions: seq<string>, metric: string)
    requires Distinct(questions) && Covers(rows, questions, metric)
    ensures Distinct(QuestionKeys(questions))
    ensures forall r :: r in rows
              ==> KeyOf(r, ["question_id"]) in QuestionKeys(questions) || Measured(r, ValueCount(metric)) == 0.0
    ensures forall r :: r in rows
              ==> KeyOf(r, ["question_id"]) in QuestionKeys(questions) || Measured(r, ValueTotal(metric)) == 0.0
  {
    QuestionKeysFacts(questions);
    forall r | r in rows
      ensures KeyOf(r, ["question_id"]) in QuestionKeys(questions)
           || (Measured(r, ValueCount(metric)) == 0.0 && Measured(r, ValueTotal(metric)) == 0.0)
    {
      QuestionKey(r);
    }
  }

  /** Runs and scored runs of the kept entries, added up. */
  function EntryRuns(entries: seq<Entry>): nat {
    if entries == [] then 0 else EntryRuns(entries[..|entries| - 1]) + entries[|entries| - 1].repetitions
  }

  function EntryScores(entries: seq<Entry>): nat {
    if entries == [] then 0 else EntryScores(entries[..|entries| - 1]) + entries[|entries| - 1].usable
  }

  lemma {:induction false} EntryTotals(rows: seq<Row>, questions: seq<string>, metric: string)
    ensures EntryRuns(EntriesOf(rows, questions, metric)) as real
         == GroupTotals(rows, ["question_id"], QuestionKeys(questions), Runs)
    ensures EntryScores(EntriesOf(rows, questions, metric)) == CountSum(rows, questions, metric)
  {
    if questions != [] {
      var front, last := questions[..|questions| - 1], questions[|questions| - 1];
      EntryTotals(rows, front, metric);
      var entries := EntriesOf(rows, front, metric);
      assert EntriesOf(rows, questions, metric)[..|entries|] == entries;
      assert QuestionKeys(questions)[..|QuestionKeys(front)|] == QuestionKeys(front);
      TotalsAreCounts(OfQuestion(rows, last));
    }
  }

  /** No run and no score of the use case is lost between its questions' entries, given every question that occurs. */
  lemma EntriesConserve(rows: seq<Row>, questions: seq<string>, metric: string)
    requires Distinct(questions)
    requires forall r :: r in rows
               ==> Dimension(r, "question_id").Text? && Dimension(r, "question_id").text in questions
    ensures EntryRuns(EntriesOf(rows, questions, metric)) == |rows|
    ensures EntryScores(EntriesOf(rows, questions, metric)) == |Values(rows, metric)|
  {
    QuestionKeysFacts(questions);
    forall r | r in rows ensures KeyOf(r, ["question_id"]) in QuestionKeys(questions) {
      QuestionKey(r);
    }
    EntryTotals(rows, questions, metric);
    GroupsConserve(rows, ["question_id"], QuestionKeys(questions), Runs);
    TotalsAreCounts(rows);
    QuestionsConserve(rows, questions, metric);
  }

  // ---------------------------------------------------------------------
  // Macro and micro

  /** Micro, times the number of scores, is the count-weighted sum of the question means. */
  lemma MicroIsWeightedMean(rows: seq<Row>, questions: seq<string>, metric: string)
    requires Distinct(questions) && Covers(rows, questions, metric) && Values(rows, metric) != []
    ensures Times(CountSum(rows, questions, metric), MeanOf(Values(rows, metric)).value)
         == WeightedSum(rows, questions, metric)
    ensures CountSum(rows, questions, metric) == |Values(rows, metric)|
    ensures QuestionMeans(rows, questions, metric) != []
  {
    QuestionsConserve(rows, questions, metric);
    MeanTimesCount(Values(rows, metric));
    if QuestionMeans(rows, questions, metric) == [] {
      NoMeansNoScores(rows, questions, metric);
      assert false;
    }
  }

  lemma {:induction false} NoMeansNoScores(rows: seq<Row>, questions: seq<string>, metric: string)
    requires QuestionMeans(rows, questions, metric) == []
    ensures CountSum(rows, questions, metric) == 0
  {
    if questions != [] {
      NoMeansNoScores(rows, questions[..|questions| - 1], metric);
    }
  }

  lemma WeightedSnoc(rows: seq<Row>, front: seq<string>, q: string, metric: string)
    ensures var scores := ScoresOf(rows, q, metric);
            && CountSum(rows, front + [q], metric) == CountSum(rows, front, metric) + |scores|
            && WeightedSum(rows, front + [q], metric)
            == WeightedSum(rows, front, metric) + (if scores == [] then 0.0 else Times(|scores|, Mean(scores)))
            && QuestionMeans(rows, front + [q], metric)
            == QuestionMeans(rows, front, metric) + (if scores == [] then [] else [Mean(scores)])
  {
    assert (front + [q])[..|front|] == front;
  }

  lemma {:induction false} WeightedBetween(rows: seq<Row>, questions: seq<string>, metric: string, low: real,
                                           high: real)
    requires forall m :: m in QuestionMeans(rows, questions, metric) ==> low <= m <= high
    ensures Times(CountSum(rows, questions, metric), low) <= WeightedSum(rows, questions, metric)
    ensures WeightedSum(rows, questions, metric) <= Times(CountSum(rows, questions, metric), high)
  {
    if questions != [] {
      var front, last := questions[..|questions| - 1], questions[|questions| - 1];
      FrontAndLast(questions);
      WeightedSnoc(rows, front, last, metric);
      var means, scores := QuestionMeans(rows, front, metric), ScoresOf(rows, last, metric);
      assert forall m :: m in means ==> m in QuestionMeans(rows, questions, metric);
      WeightedBetween(rows, front, metric, low, high);
      if scores != [] {
        assert Mean(scores) in QuestionMeans(rows, questions, metric);
        WeightedStep(CountSum(rows, front, metric), WeightedSum(rows, front, metric), |scores|, low, Mean(scores),
                     high);
      }
    }
  }

  lemma WeightedStep(n: nat, sum: real, k: nat, low: real, mean: real, high: real)
    requires Times(n, low) <= sum <= Times(n, high) && low <= mean <= high
    ensures Times(n + k, low) <= sum + Times(k, mean) <= Times(n + k, high)
  {
    TimesSum(n, k, low);
    TimesSum(n, k, high);
    TimesOrdered(k, low, mean, high);
  }

  lemma TimesOrdered(n: nat, low: real, x: real, high: real)
    requires low <= x <= high
    ensures Times(n, low) <= Times(n, x) <= Times(n, high)
  {
    TimesOver(n, low, x);
    TimesOver(n, x, high);
  }

  lemma TimesBetween(n: nat, low: real, x: real, high: real)
    requires n > 0 && Times(n, low) <= Times(n, x) <= Times(n, high)
    ensures low <= x <= high
  {
    if x < low {
      StrictTimes(n, x, low);
      assert false;
    }
    if x > high {
      StrictTimes(n, high, x);
      assert false;
    }
  }

  lemma {:induction false} StrictTimes(n: nat, x: real, y: real)
    requires n > 0 && x < y
    ensures Times(n, x) < Times(n, y)
  {
    if n > 1 {
      StrictTimes(n - 1, x, y);
    }
  }

  /** Both averages lie between the least and the greatest question mean. */
  lemma AveragesBetweenQuestionMeans(rows: seq<Row>, questions: seq<string>, metric: string)
    requires Distinct(questions) && Covers(rows, questions, metric) && Values(rows, metric) != []
    ensures var means := QuestionMeans(rows, questions, metric);
            && means != []
            && Least(means) <= Mean(means) <= Greatest(means)
            && Least(means) <= Mean(Values(rows, metric)) <= Greatest(means)
  {
    var means := QuestionMeans(rows, questions, metric);
    MicroIsWeightedMean(rows, questions, metric);
    MeanBetween(means);
    Bounds(means);
    WeightedBetween(rows, questions, metric, Least(means), Greatest(means));
    TimesBetween(CountSum(rows, questions, metric), Least(means), Mean(Values(rows, metric)), Greatest(means));
  }

  lemma {:induction false} EqualCountSums(rows: seq<Row>, questions: seq<string>, metric: string, n: nat)
    requires forall q :: q in questions && ScoresOf(rows, q, metric) != [] ==> |ScoresOf(rows, q, metric)| == n
    ensures CountSum(rows, questions, metric) == n * |QuestionMeans(rows, questions, metric)|
    ensures WeightedSum(rows, questions, metric) == Times(n, Sum(QuestionMeans(rows, questions, metric)))
  {
    if questions == [] {
      TimesZero(n);
    } else {
      var front, last := questions[..|questions| - 1], questions[|questions| - 1];
      FrontAndLast(questions);
      assert forall q :: q in front ==> q in questions;
      EqualCountSums(rows, front, metric, n);
      WeightedSnoc(rows, front, last, metric);
      var means, scores := QuestionMeans(rows, front, metric), ScoresOf(rows, last, metric);
      if scores != [] {
        assert last in questions;
        EqualStep(n, means, Mean(scores), CountSum(rows, front, metric), WeightedSum(rows, front, metric));
      } else {
        assert means + [] == means;
      }
    }
  }

  lemma EqualStep(n: nat, means: seq<real>, mean: real, count: nat, weighted: real)
    requires count == n * |means| && weighted == Times(n, Sum(means))
    ensures count + n == n * |means + [mean]|
    ensures weighted + Times(n, mean) == Times(n, Sum(means + [mean]))
  {
    SumSnoc(means, mean);
    TimesOver(n, Sum(means), mean);
    TimesNext(n, |means|);
  }

  lemma SumSnoc(values: seq<real>, x: real)
    ensures Sum(values + [x]) == Sum(values) + x
  {
    assert (values + [x])[..|values|] == values;
  }

  /** When every question that was scored has equally many scores, macro and micro coincide. */
  lemma EqualCountsCoincide(rows: seq<Row>, questions: seq<string>, metric: string, n: nat)
    requires Distinct(questions) && Covers(rows, questions, metric) && Values(rows, metric) != [] && n > 0
    requires forall q :: q in questions && ScoresOf(rows, q, metric) != [] ==> |ScoresOf(rows, q, metric)| == n
    ensures MeanOf(QuestionMeans(rows, questions, metric)) == MeanOf(Values(rows, metric))
  {
    var means, all := QuestionMeans(rows, questions, metric), Values(rows, metric);
    QuestionsConserve(rows, questions, metric);
    MicroIsWeightedMean(rows, questions, metric);
    EqualCountSums(rows, questions, metric, n);
    ScaledMean(n, Sum(means), |means|);
  }

  // ---------------------------------------------------------------------
  // Replicating one question's runs

  function Copies(rows: seq<Row>, k: nat): seq<Row> {
    if k == 0 then [] else Copies(rows, k - 1) + rows
  }

  lemma {:induction false} MembersAppend(a: seq<Row>, b: seq<Row>, groupBy: seq<string>, key: GroupKey)
    ensures Members(a + b, groupBy, key) == Members(a, groupBy, key) + Members(b, groupBy, key)
  {
    if b == [] {
      assert a + b == a;
    } else {
      var front, last := b[..|b| - 1], b[|b| - 1];
      assert (a + b)[..|a + b| - 1] == a + front;
      MembersAppend(a, front, groupBy, key);
    }
  }

  lemma {:induction false} ValuesAppend(a: seq<Row>, b: seq<Row>, metric: string)
    ensures Values(a + b, metric) == Values(a, metric) + Values(b, metric)
  {
    if b == [] {
      assert a + b == a;
    } else {
      var front, last := b[..|b| - 1], b[|b| - 1];
      assert (a + b)[..|a + b| - 1] == a + front;
      ValuesAppend(a, front, metric);
    }
  }

  lemma {:induction false} SumAppend(a: seq<real>, b: seq<real>)
    ensures Sum(a + b) == Sum(a) + Sum(b)
  {
    if b == [] {
      assert a + b == a;
    } else {
      assert (a + b)[..|a + b| - 1] == a + b[..|b| - 1];
      SumAppend(a, b[..|b| - 1]);
    }
  }

  /** Copies of a question's runs are again all and only that question's runs. */
  lemma {:induction false} CopiesOfQuestion(rows: seq<Row>, q: string, other: string, k: nat)
    ensures OfQuestion(Copies(OfQuestion(rows, q), k), other) == if other == q then Copies(OfQuestion(rows, q), k)
            else []
  {
    if k > 0 {
      var block := OfQuestion(rows, q);
      CopiesOfQuestion(rows, q, other, k - 1);
      MembersAppend(Copies(block, k - 1), block, ["question_id"], [Text(other)]);
      MembersTwice(rows, q, other);
    }
  }

  lemma {:induction false} MembersTwice(rows: seq<Row>, q: string, other: string)
    ensures OfQuestion(OfQuestion(rows, q), other) == if other == q then OfQuestion(rows, q) else []
  {
    if rows != [] {
      var front, last := rows[..|rows| - 1], rows[|rows| - 1];
      MembersTwice(front, q, other);
      assert [Text(q)][0] == Text(q) && [Text(other)][0] == Text(other);
      if KeyOf(last, ["question_id"]) == [Text(q)] {
        MembersSnoc(OfQuestion(front, q), last, ["question_id"], [Text(other)]);
      } else {
        assert OfQuestion(rows, q) == OfQuestion(front, q);
      }
    }
  }

  lemma {:induction false} ScoresOfCopies(rows: seq<Row>, k: nat, metric: string)
    ensures |Values(Copies(rows, k), metric)| == k * |Values(rows, metric)|
    ensures Sum(Values(Copies(rows, k), metric)) == Times(k, Sum(Values(rows, metric)))
  {
    if k > 0 {
      ScoresOfCopies(rows, k - 1, metric);
      ValuesAppend(Copies(rows, k - 1), rows, metric);
      SumAppend(Values(Copies(rows, k - 1), metric), Values(rows, metric));
      TimesNext(|Values(rows, metric)|, k - 1);
    }
  }

  lemma MeanOfCopies(block: seq<Row>, k: nat, metric: string)
    ensures MeanOf(Values(block + Copies(block, k), metric)) == MeanOf(Values(block, metric))
  {
    var scores, copied := Values(block, metric), Values(Copies(block, k), metric);
    ValuesAppend(block, Copies(block, k), metric);
    ScoresOfCopies(block, k, metric);
    SumAppend(scores, copied);
    if scores != [] {
      CopiedMean(Sum(scores), |scores|, k);
    }
  }

  lemma CopiedMean(sum: real, n: nat, k: nat)
    requires n > 0
    ensures n + k * n > 0
    ensures (sum + Times(k, sum)) / (n + k * n) as real == sum / n as real
  {
    TimesNext(n, k);
    assert Times(k + 1, sum) == Times(k, sum) + sum;
    ScaledMean(k + 1, sum, n);
  }

  lemma ReplicatedMean(rows: seq<Row>, q: string, other: string, k: nat, metric: string)
    ensures MeanOf(ScoresOf(rows + Copies(OfQuestion(rows, q), k), other, metric))
         == MeanOf(ScoresOf(rows, other, metric))
  {
    var block := OfQuestion(rows, q);
    MembersAppend(rows, Copies(block, k), ["question_id"], [Text(other)]);
    CopiesOfQuestion(rows, q, other, k);
    if other == q {
      MeanOfCopies(block, k, metric);
    } else {
      assert OfQuestion(rows, other) + [] == OfQuestion(rows, other);
    }
  }

  /** Repeating one question's runs any number of times leaves the macro average as it was. */
  lemma {:induction false} ReplicationKeepsMacro(rows: seq<Row>, questions: seq<string>, q: string, k: nat,
                                                 metric: string)
    ensures QuestionMeans(rows + Copies(OfQuestion(rows, q), k), questions, metric)
         == QuestionMeans(rows, questions, metric)
  {
    if questions != [] {
      ReplicationKeepsMacro(rows, questions[..|questions| - 1], q, k, metric);
      ReplicatedMean(rows, q, questions[|questions| - 1], k, metric);
    }
  }

  // ---------------------------------------------------------------------
  // The order of the questions does not matter

  /** What one question adds to the list of means. */
  function MeanShare(rows: seq<Row>, q: string, metric: string): (real, nat) {
    var scores := ScoresOf(rows, q, metric);
    if scores == [] then (0.0, 0) else (Mean(scores), 1)
  }

  lemma MeansSnoc(rows: seq<Row>, questions: seq<string>, q: string, metric: string)
    ensures var before, after := QuestionMeans(rows, questions, metric), QuestionMeans(rows, questions + [q], metric);
            && Sum(after) == Sum(before) + MeanShare(rows, q, metric).0
            && |after| == |before| + MeanShare(rows, q, metric).1
  {
    assert (questions + [q])[..|questions|] == questions;
    var before, scores := QuestionMeans(rows, questions, metric), ScoresOf(rows, q, metric);
    if scores == [] {
      assert before + [] == before;
    } else {
      assert (before + [Mean(scores)])[..|before|] == before;
    }
  }

  function Dropped(questions: seq<string>, j: nat): seq<string>
    requires j < |questions|
  {
    questions[..j] + questions[j + 1..]
  }

  lemma DroppedSnoc(front: seq<string>, last: string, j: nat)
    requires j < |front|
    ensures Dropped(front + [last], j) == Dropped(front, j) + [last]
  {
  }

  lemma {:induction false} DropQuestion(rows: seq<Row>, questions: seq<string>, j: nat, metric: string)
    requires j < |questions|
    ensures var all, rest := QuestionMeans(rows, questions, metric), QuestionMeans(rows, Dropped(questions, j), metric);
            && Sum(all) == Sum(rest) + MeanShare(rows, questions[j], metric).0
            && |all| == |rest| + MeanShare(rows, questions[j], metric).1
    decreases |questions|
  {
    var front, last := questions[..|questions| - 1], questions[|questions| - 1];
    assert questions == front + [last];
    MeansSnoc(rows, front, last, metric);
    if j == |front| {
      assert Dropped(questions, j) == front;
    } else {
      DropQuestion(rows, front, j, metric);
      DroppedSnoc(front, last, j);
      MeansSnoc(rows, Dropped(front, j), last, metric);
    }
  }

  lemma DroppedDistinct(questions: seq<string>, j: nat)
    requires j < |questions| && Distinct(questions)
    ensures Distinct(Dropped(questions, j))
    ensures forall q :: q in Dropped(questions, j) <==> q in questions && q != questions[j]
  {
    var rest := Dropped(questions, j);
    forall q ensures q in rest <==> q in questions && q != questions[j] {
      if q in rest {
        var i :| 0 <= i < |rest| && rest[i] == q;
        assert questions[if i < j then i else i + 1] == q;
      }
      if q in questions && q != questions[j] {
        var i :| 0 <= i < |questions| && questions[i] == q;
        assert rest[if i < j then i else i - 1] == q;
      }
    }
  }

  lemma {:induction false} NoScoresNoMeans(rows: seq<Row>, questions: seq<string>, metric: string)
    requires forall q :: q in questions ==> ScoresOf(rows, q, metric) == []
    ensures QuestionMeans(rows, questions, metric) == []
  {
    if questions != [] {
      assert questions == questions[..|questions| - 1] + [questions[|questions| - 1]];
      NoScoresNoMeans(rows, questions[..|questions| - 1], metric);
    }
  }

  /** Any two lists of distinct questions that name every scored one give means with the same sum and number. */
  lemma {:induction false} MeansIgnoreOrder(rows: seq<Row>, a: seq<string>, b: seq<string>, metric: string)
    requires Distinct(a) && Distinct(b)
    requires forall q :: ScoresOf(rows, q, metric) != [] ==> (q in a <==> q in b)
    ensures Sum(QuestionMeans(rows, a, metric)) == Sum(QuestionMeans(rows, b, metric))
    ensures |QuestionMeans(rows, a, metric)| == |QuestionMeans(rows, b, metric)|
    decreases |a|
  {
    if a == [] {
      NoScoresNoMeans(rows, b, metric);
    } else {
      var last := |a| - 1;
      var q := a[last];
      DropQuestion(rows, a, last, metric);
      DroppedDistinct(a, last);
      if q in b {
        var j :| 0 <= j < |b| && b[j] == q;
        DropQuestion(rows, b, j, metric);
        DroppedDistinct(b, j);
        MeansIgnoreOrder(rows, Dropped(a, last), Dropped(b, j), metric);
      } else {
        MeansIgnoreOrder(rows, Dropped(a, last), b, metric);
      }
    }
  }

  /** So the sorted list the code uses, or any other, gives the same macro average. */
  lemma MacroIgnoresOrder(rows: seq<Row>, a: seq<string>, b: seq<string>, metric: string)
    requires Distinct(a) && Distinct(b)
    requires forall q :: ScoresOf(rows, q, metric) != [] ==> (q in a <==> q in b)
    ensures MeanOf(QuestionMeans(rows, a, metric)) == MeanOf(QuestionMeans(rows, b, metric))
  {
    MeansIgnoreOrder(rows, a, b, metric);
  }

  lemma StringLeIsPreorder()
    ensures Preorder(StringLe)
  {
    StringOrder();
    forall a: string, b: string, c: string | StringLe(a, b) && StringLe(b, c) ensures StringLe(a, c) {
      assert StringLt(a, b) || a == b;
      assert StringLt(b, c) || b == c;
    }
  }

  lemma {:induction false} NoScoresOutside(rows: seq<Row>, questions: seq<string>, metric: string, q: string)
    requires Covers(rows, questions, metric) && q !in questions
    ensures ScoresOf(rows, q, metric) == []
  {
    if rows != [] {
      var front, last := rows[..|rows| - 1], rows[|rows| - 1];
      assert rows == front + [last];
      NoScoresOutside(front, questions, metric, q);
      QuestionKey(last);
      MembersSnoc(front, last, ["question_id"], [Text(q)]);
      if KeyOf(last, ["question_id"]) == [Text(q)] {
        assert [Dimension(last, "question_id")][0] == Text(q);
        ValuesAppend(OfQuestion(front, q), [last], metric);
        assert !HasValue(last, metric);
      } else {
        assert OfQuestion(rows, q) == OfQuestion(front, q);
      }
    }
  }

  // ---------------------------------------------------------------------
  // `_metric_values` and the use case report

  method MetricValues(rows: seq<Row>, metric: string) returns (values: seq<real>)
    ensures values == Values(rows, metric)
  {
    values := [];
    for i := 0 to |rows|
      invariant values == Values(rows[..i], metric)
    {
      assert rows[..i + 1][..i] == rows[..i];
      if IsUsable(rows[i]) && metric in rows[i].metrics {
        values := values + [rows[i].metrics[metric]];
      }
    }
    assert rows[..|rows|] == rows;
  }

  method CountPasses(values: seq<real>) returns (n: nat)
    ensures n == Passes(values)
  {
    n := 0;
    for i := 0 to |values|
      invariant n == Passes(values[..i])
    {
      assert values[..i + 1][..i] == values[..i];
      if values[i] >= 1.0 {
        n := n + 1;
      }
    }
    assert values[..|values|] == values;
  }

  lemma OneQuestion(rows: seq<Row>, q: string, dimensions: set<string>, show: Dim -> string)
    requires "question_id" in dimensions
    ensures var outcome :=
            AggregateOf(OfQuestion(rows, q), ["question_id"], EFFICIENCY_METRICS, None, false, true, dimensions, show);
            outcome.Done? && outcome.report.groups == GroupOf([Text(q)], OfQuestion(rows, q), EFFICIENCY_METRICS)
  {
    MembersFacts(rows, ["question_id"], [Text(q)]);
    forall r | r in OfQuestion(rows, q) ensures Dimension(r, "question_id") == Text(q) {
      QuestionKey(r);
      assert [Dimension(r, "question_id")][0] == Text(q);
    }
    OneGroup(OfQuestion(rows, q), "question_id", Text(q), EFFICIENCY_METRICS, dimensions, show);
  }

  function MeanIn(stats: Stats): Option<real> {
    if stats.NoValues? then None else Some(stats.mean)
  }

  lemma TableMeans(valid: seq<Row>, names: seq<string>)
    ensures forall name :: name in names ==> name in MetricTable(valid, names)
    ensures forall name :: name in names ==> MeanIn(MetricTable(valid, names)[name]) == MeanOf(Values(valid, name))
  {
    forall name | name in names
      ensures name in MetricTable(valid, names)
              && MeanIn(MetricTable(valid, names)[name]) == MeanOf(Values(valid, name))
    {
      MetricTableEntry(valid, names, name);
    }
  }

  method MeansIn(table: map<string, Stats>, ghost valid: seq<Row>, names: seq<string>)
    returns (means: map<string, Option<real>>)
    requires table == MetricTable(valid, names)
    ensures means == map name | name in names :: MeanOf(Values(valid, name))
  {
    TableMeans(valid, names);
    means := map name | name in names :: MeanIn(table[name]);
  }

  method GroupsOfQuestion(rows: seq<Row>, q: string, dimensions: set<string>, show: Dim -> string)
    returns (groups: seq<GroupSummary>)
    requires "question_id" in dimensions
    ensures groups == GroupOf([Text(q)], OfQuestion(rows, q), EFFICIENCY_METRICS)
  {
    OneQuestion(rows, q, dimensions, show);
    var outcome := AggregateRecords(OfQuestion(rows, q), ["question_id"], EFFICIENCY_METRICS, None, false, true,
                                    dimensions, show);
    groups := outcome.report.groups;
  }

  /** The efficiency means of one question, off `aggregate_records`. */
  method Efficiency(rows: seq<Row>, q: string, dimensions: set<string>, show: Dim -> string)
    returns (efficiency: map<string, Option<real>>)
    requires "question_id" in dimensions
    ensures efficiency == EfficiencyOf(OfQuestion(rows, q))
  {
    var own := OfQuestion(rows, q);
    if own == [] {
      return map name | name in EFFICIENCY_METRICS :: None;
    }
    var groups := GroupsOfQuestion(rows, q, dimensions, show);
    if groups == [] {
      return map[];
    }
    efficiency := MeansIn(groups[0].metrics, Included(own, false), EFFICIENCY_METRICS);
  }

  /** `question_stats` on the runs of one use case. */
  method StatsOfQuestion(rows: seq<Row>, q: string, metric: string, dimensions: set<string>, show: Dim -> string)
    returns (entry: Entry)
    requires "question_id" in dimensions
    ensures entry == EntryOf(rows, q, metric)
  {
    var own := OfQuestion(rows, q);
    var scores := MetricValues(own, metric);
    var efficiency := Efficiency(rows, q, dimensions, show);
    var passes := CountPasses(scores);
    entry := Entry(q, |own|, |scores|,
                   if scores == [] then None else Some(passes as real / |scores| as real),
                   MeanOf(scores), if scores == [] then None
                   else Some(UpperMedian(scores)), Spread(scores), SampleSizeOf(|scores|), efficiency,
                   Sort(StringLe, RunIds(own)));
  }

  lemma EntryAt(rows: seq<Row>, questions: seq<string>, metric: string, i: nat)
    requires i < |questions|
    ensures |EntriesOf(rows, questions, metric)| == |questions|
    ensures EntriesOf(rows, questions, metric)[i] == EntryOf(rows, questions[i], metric)
  {
    MapAt(q => EntryOf(rows, q, metric), questions);
  }

  lemma EntriesLength(rows: seq<Row>, questions: seq<string>, metric: string)
    ensures |EntriesOf(rows, questions, metric)| == |questions|
  {
    MapAt(q => EntryOf(rows, q, metric), questions);
  }

  method CollectMeans(entries: seq<Entry>, ghost rows: seq<Row>, ghost questions: seq<string>, ghost metric: string)
    returns (means: seq<real>)
    requires entries == EntriesOf(rows, questions, metric)
    ensures means == QuestionMeans(rows, questions, metric)
  {
    means := [];
    EntriesLength(rows, questions, metric);
    for i := 0 to |entries|
      invariant means == QuestionMeans(rows, questions[..i], metric)
    {
      assert questions[..i + 1][..i] == questions[..i];
      EntryAt(rows, questions, metric, i);
      if entries[i].mean.Some? {
        means := means + [entries[i].mean.value];
      }
    }
    assert questions[..|questions|] == questions;
  }

  method UseCaseQuestionStats(rows: seq<Row>, useCase: string, questions: seq<string>, metric: string,
                              dimensions: set<string>, show: Dim -> string)
    returns (rollup: Rollup)
    requires "question_id" in dimensions
    ensures rollup == RollupOf(rows, useCase, questions, metric)
  {
    var scoped, sorted := OfUseCase(rows, useCase), Sort(StringLe, questions);
    var entries: seq<Entry> := [];
    for i := 0 to |sorted|
      invariant entries == EntriesOf(scoped, sorted[..i], metric)
    {
      assert sorted[..i + 1][..i] == sorted[..i];
      var entry := StatsOfQuestion(scoped, sorted[i], metric, dimensions, show);
      entries := entries + [entry];
    }
    assert sorted[..|sorted|] == sorted;
    var means := CollectMeans(entries, scoped, sorted, metric);
    var all := MetricValues(scoped, metric);
    rollup := Rollup(entries, MeanOf(means), MeanOf(all));
  }
}
