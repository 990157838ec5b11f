/**
 `check_level_completeness`: separate checks over persisted runs that together
 pin down the exact shape of a level's result set.
 */
module Completeness {
  import opened Basics
  import opened ResultStore

  const QUESTIONS_PER_LEVEL := 50
  const REPETITIONS_PER_QUESTION := 10
  const EXECUTIONS_PER_LEVEL := QUESTIONS_PER_LEVEL * REPETITIONS_PER_QUESTION
  const LEVEL_COUNT := 6
  const TOTAL_EXECUTIONS := EXECUTIONS_PER_LEVEL * LEVEL_COUNT

  /** What the check reads of a record. */
  datatype Run = Run(
    level: Option<string>,
    questionId: Option<string>,
    instanceId: Option<string>,
    repetition: Option<int>,
    experimentId: string,
    traced: bool,
    status: RunStatus)

  datatype Issue =
    | WrongBankSize(size: nat)
    | DuplicateQuestions
    | WrongLevel(count: nat)
    | MissingReference(count: nat)
    | DuplicateRepetitions(count: nat)

  datatype QuestionReport = QuestionReport(questionId: string, repetitionsCompleted: nat, complete: bool)

  datatype LevelReport = LevelReport(
    inBank: nat,
    validated: nat,
    actual: nat,
    successful: nat,
    questions: seq<QuestionReport>,
    issues: seq<Issue>)
  {
    predicate IsComplete() {
      && issues == []
      && inBank == QUESTIONS_PER_LEVEL
      && successful == EXECUTIONS_PER_LEVEL
      && forall q :: q in questions ==> q.complete
    }
  }

  // ---------------------------------------------------------------------
  // What each check counts

  /** An empty question id counts as none. */
  predicate Asks(r: Run, q: string) {
    q != "" && r.questionId == Some(q)
  }

  predicate Asking(r: Run) {
    r.questionId.Some? && r.questionId.value != ""
  }

  predicate AtLevel(r: Run, level: string) {
    r.level == Some(level)
  }

  predicate Referenced(r: Run) {
    r.experimentId != "" && r.traced
  }

  function Scoped(runs: seq<Run>, level: string): (scoped: seq<Run>)
    ensures |scoped| <= |runs|
  {
    if runs == [] then []
    else Scoped(runs[..|runs| - 1], level) + (if AtLevel(runs[|runs| - 1], level) then [runs[|runs| - 1]] else [])
  }

  function Unreferenced(runs: seq<Run>): nat {
    if runs == [] then 0 else Unreferenced(runs[..|runs| - 1]) + (if Referenced(runs[|runs| - 1]) then 0 else 1)
  }

  function Group(runs: seq<Run>, q: string): seq<Run> {
    if runs == [] then []
    else Group(runs[..|runs| - 1], q) + (if Asks(runs[|runs| - 1], q) then [runs[|runs| - 1]] else [])
  }

  /** Question ids in order of first appearance. */
  function Asked(runs: seq<Run>): seq<string> {
    if runs == [] then []
    else
      var front, last := Asked(runs[..|runs| - 1]), runs[|runs| - 1];
      if Asking(last) && last.questionId.value !in front then front + [last.questionId.value] else front
  }

  function Completed(runs: seq<Run>): seq<Run> {
    if runs == [] then []
    else Completed(runs[..|runs| - 1]) + (if runs[|runs| - 1].status.Completed? then [runs[|runs| - 1]] else [])
  }

  /** Repetition indices of the completed runs that have one. */
  function Repetitions(runs: seq<Run>): seq<int> {
    if runs == [] then []
    else
      var last := runs[|runs| - 1];
      Repetitions(runs[..|runs| - 1])
        + (if last.status.Completed? && last.repetition.Some? then [last.repetition.value] else [])
  }

  type Key = (Option<string>, Option<int>)

  function KeyOf(r: Run): Key {
    (r.instanceId, r.repetition)
  }

  function Keys(runs: seq<Run>): seq<Key> {
    if runs == [] then [] else Keys(runs[..|runs| - 1]) + [KeyOf(runs[|runs| - 1])]
  }

  function RepeatsOf(runs: seq<Run>, q: string): nat {
    |Repeated(Keys(Group(runs, q)))|
  }

  function RepeatedCount(runs: seq<Run>, questions: seq<string>): nat {
    if questions == [] then 0
    else RepeatedCount(runs, questions[..|questions| - 1]) + RepeatsOf(runs, questions[|questions| - 1])
  }

  function QuestionReportOf(runs: seq<Run>, q: string): QuestionReport {
    var n := |SetOf(Repetitions(Group(runs, q)))|;
    QuestionReport(q, n, n >= REPETITIONS_PER_QUESTION)
  }

  function QuestionReports(runs: seq<Run>, bank: seq<string>): seq<QuestionReport> {
    if bank == [] then [] else QuestionReports(runs, bank[..|bank| - 1]) + [QuestionReportOf(runs, bank[|bank| - 1])]
  }

  function BankIssuesOf(bank: seq<string>): seq<Issue> {
    (if |bank| != QUESTIONS_PER_LEVEL then [WrongBankSize(|bank|)] else [])
    + (if |bank| != |SetOf(bank)| then [DuplicateQuestions] else [])
  }

  function RecordIssuesOf(mismatched: nat, missing: nat, repeated: nat): seq<Issue> {
    (if mismatched > 0 then [WrongLevel(mismatched)] else [])
    + (if missing > 0 then [MissingReference(missing)] else [])
    + (if repeated > 0 then [DuplicateRepetitions(repeated)] else [])
  }

  function IssuesOf(level: string, bank: seq<string>, runs: seq<Run>): seq<Issue> {
    var scoped := Scoped(runs, level);
    BankIssuesOf(bank) + RecordIssuesOf(|runs| - |scoped|, Unreferenced(runs), RepeatedCount(scoped, Asked(scoped)))
  }

  function LevelReportOf(level: string, bank: seq<string>, runs: seq<Run>): LevelReport {
    var scoped := Scoped(runs, level);
    LevelReport(|bank|, |Asked(scoped)|, |scoped|, |Completed(scoped)|, QuestionReports(scoped, bank),
                IssuesOf(level, bank, runs))
  }

  // ---------------------------------------------------------------------
  // The shape the checks add up to

  /** Exactly the target number of completed runs, with pairwise distinct repetition indices. */
  ghost predicate FullQuestion(runs: seq<Run>, q: string) {
    var done := Completed(Group(runs, q));
    && |done| == REPETITIONS_PER_QUESTION
    && (forall i :: 0 <= i < |done| ==> done[i].repetition.Some?)
    && forall i, j :: 0 <= i < j < |done| ==> done[i].repetition != done[j].repetition
  }

  /** No two runs, failed ones included, share question, instance and repetition. */
  ghost predicate NoRepeats(runs: seq<Run>) {
    forall i, j :: 0 <= i < j < |runs| && Asking(runs[i]) && runs[i].questionId == runs[j].questionId
      ==> KeyOf(runs[i]) != KeyOf(runs[j])
  }

  predicate InBank(r: Run, bank: seq<string>) {
    Asking(r) && r.questionId.value in bank
  }

  ghost predicate ExactShape(level: string, bank: seq<string>, runs: seq<Run>) {
    && |bank| == QUESTIONS_PER_LEVEL && Distinct(bank)
    && (forall r :: r in runs ==> AtLevel(r, level) && Referenced(r))
    && NoRepeats(runs)
    && (forall q :: q in bank ==> FullQuestion(runs, q))
    && (forall r :: r in runs && r.status.Completed? ==> InBank(r, bank))
  }

  // ---------------------------------------------------------------------
  // Filters

  lemma {:induction false} ScopedAll(runs: seq<Run>, level: string)
    ensures |Scoped(runs, level)| == |runs| <==> forall r :: r in runs ==> AtLevel(r, level)
    ensures |Scoped(runs, level)| == |runs| ==> Scoped(runs, level) == runs
  {
    if runs != [] {
      var front, last := runs[..|runs| - 1], runs[|runs| - 1];
      ScopedAll(front, level);
      assert runs == front + [last];
      assert (forall r :: r in runs ==> AtLevel(r, level))
        <==> AtLevel(last, level) && forall r :: r in front ==> AtLevel(r, level);
    }
  }

  lemma {:induction false} UnreferencedNone(runs: seq<Run>)
    ensures Unreferenced(runs) == 0 <==> forall r :: r in runs ==> Referenced(r)
  {
    if runs != [] {
      UnreferencedNone(runs[..|runs| - 1]);
      assert runs == runs[..|runs| - 1] + [runs[|runs| - 1]];
    }
  }

  lemma {:induction false} GroupMembers(runs: seq<Run>, q: string)
    ensures forall r :: r in Group(runs, q) <==> r in runs && Asks(r, q)
  {
    if runs != [] {
      GroupMembers(runs[..|runs| - 1], q);
      assert runs == runs[..|runs| - 1] + [runs[|runs| - 1]];
    }
  }

  lemma {:induction false} AskedMembers(runs: seq<Run>)
    ensures forall q :: q in Asked(runs) <==> exists r :: r in runs && Asks(r, q)
    ensures Distinct(Asked(runs))
  {
    if runs != [] {
      var front, last := runs[..|runs| - 1], runs[|runs| - 1];
      AskedMembers(front);
      assert runs == front + [last];
      forall q ensures q in Asked(runs) <==> exists r :: r in runs && Asks(r, q) {
        if Asks(last, q) {
          assert last in runs;
        }
        if exists r :: r in front && Asks(r, q) {
          var r :| r in front && Asks(r, q);
          assert r in runs;
        }
      }
    }
  }

  // ---------------------------------------------------------------------
  // Repetitions

  lemma {:induction false} RepetitionsOfCompleted(runs: seq<Run>)
    ensures |Repetitions(runs)| <= |Completed(runs)|
    ensures |Repetitions(runs)| == |Completed(runs)| <==> forall r :: r in Completed(runs) ==> r.repetition.Some?
    ensures |Repetitions(runs)| == |Completed(runs)| ==>
              forall i :: 0 <= i < |Completed(runs)| ==> Completed(runs)[i].repetition == Some(Repetitions(runs)[i])
  {
    if runs != [] {
      var front, last := runs[..|runs| - 1], runs[|runs| - 1];
      RepetitionsOfCompleted(front);
      if last.status.Completed? {
        assert Completed(runs) == Completed(front) + [last];
      } else {
        assert Completed(runs) == Completed(front);
      }
    }
  }

  /** The deduplicated count never exceeds the completed runs, and reaches it exactly for distinct, present indices. */
  lemma DistinctRepetitions(runs: seq<Run>, q: string)
    ensures QuestionReportOf(runs, q).repetitionsCompleted <= |Completed(Group(runs, q))|
    ensures FullQuestion(runs, q)
       <==> |Completed(Group(runs, q))| == REPETITIONS_PER_QUESTION == QuestionReportOf(runs, q).repetitionsCompleted
  {
    var group := Group(runs, q);
    var done, reps := Completed(group), Repetitions(group);
    RepetitionsOfCompleted(group);
    SetOfSize(reps);
    if FullQuestion(runs, q) {
      assert forall r :: r in done ==> r.repetition.Some?;
      assert Distinct(reps);
    }
    if |done| == REPETITIONS_PER_QUESTION == |SetOf(reps)| {
      assert Distinct(reps);
      assert FullQuestion(runs, q);
    }
  }

  // ---------------------------------------------------------------------
  // Repeats

  lemma {:induction false} KeysOf(runs: seq<Run>)
    ensures |Keys(runs)| == |runs| && forall i :: 0 <= i < |runs| ==> Keys(runs)[i] == KeyOf(runs[i])
  {
    if runs != [] {
      KeysOf(runs[..|runs| - 1]);
    }
  }

  ghost predicate DistinctKeys(runs: seq<Run>, q: string) {
    Distinct(Keys(Group(runs, q)))
  }

  lemma NoRepeats1(runs: seq<Run>, q: string)
    ensures RepeatsOf(runs, q) == 0 <==> DistinctKeys(runs, q)
  {
    var repeated := Repeated(Keys(Group(runs, q)));
    RepeatedNone(Keys(Group(runs, q)));
    assert |repeated| == 0 <==> repeated == {};
  }

  lemma {:induction false} NoRepeatedCount(runs: seq<Run>, questions: seq<string>)
    ensures RepeatedCount(runs, questions) == 0 <==> forall q :: q in questions ==> RepeatsOf(runs, q) == 0
  {
    if questions != [] {
      var front, last := questions[..|questions| - 1], questions[|questions| - 1];
      NoRepeatedCount(runs, front);
      assert questions == front + [last];
    }
  }

  ghost predicate NoTwoAsking(runs: seq<Run>, q: string) {
    forall i, j :: 0 <= i < j < |runs| && Asks(runs[i], q) && Asks(runs[j], q) ==> KeyOf(runs[i]) != KeyOf(runs[j])
  }

  ghost predicate HasKey(runs: seq<Run>, q: string, k: Key) {
    exists i :: 0 <= i < |runs| && Asks(runs[i], q) && KeyOf(runs[i]) == k
  }

  lemma KeyInGroup(runs: seq<Run>, q: string, k: Key)
    ensures k in Keys(Group(runs, q)) <==> HasKey(runs, q, k)
  {
    var group := Group(runs, q);
    KeysOf(group);
    GroupMembers(runs, q);
    if k in Keys(group) {
      var g :| 0 <= g < |group| && Keys(group)[g] == k;
      assert group[g] in runs;
    }
    if HasKey(runs, q, k) {
      var i :| 0 <= i < |runs| && Asks(runs[i], q) && KeyOf(runs[i]) == k;
      assert runs[i] in group;
      var g :| 0 <= g < |group| && group[g] == runs[i];
      assert Keys(group)[g] == k;
    }
  }

  lemma NoTwoAskingSnoc(runs: seq<Run>, r: Run, q: string)
    ensures NoTwoAsking(runs + [r], q) <==> NoTwoAsking(runs, q) && (Asks(r, q) ==> !HasKey(runs, q, KeyOf(r)))
  {
    var all := runs + [r];
    assert forall i :: 0 <= i < |runs| ==> all[i] == runs[i];
    if NoTwoAsking(all, q) {
      assert forall i :: 0 <= i < |runs| && Asks(runs[i], q) && Asks(r, q) ==> KeyOf(all[i]) != KeyOf(all[|runs|]);
    }
  }

  /** Within a group, distinct keys mean no two of its runs share one. */
  lemma {:induction false} GroupRepeats(runs: seq<Run>, q: string)
    ensures DistinctKeys(runs, q) <==> NoTwoAsking(runs, q)
  {
    if runs != [] {
      var front, last := runs[..|runs| - 1], runs[|runs| - 1];
      GroupRepeats(front, q);
      assert runs == front + [last];
      NoTwoAskingSnoc(front, last, q);
      if Asks(last, q) {
        KeysSnoc(Group(front, q), last);
        LastIsNew(Keys(Group(front, q)), KeyOf(last));
        KeyInGroup(front, q, KeyOf(last));
      } else {
        assert Group(runs, q) == Group(front, q);
      }
    }
  }

  lemma KeysSnoc(runs: seq<Run>, last: Run)
    ensures Keys(runs + [last]) == Keys(runs) + [KeyOf(last)]
  {
    assert (runs + [last])[..|runs|] == runs;
  }

  lemma LastIsNew<T>(s: seq<T>, x: T)
    ensures Distinct(s + [x]) <==> Distinct(s) && x !in s
  {
    var t := s + [x];
    assert forall i :: 0 <= i < |s| ==> t[i] == s[i];
    if x in s {
      var i :| 0 <= i < |s| && s[i] == x;
      assert t[i] == t[|s|];
    }
    if Distinct(t) {
      assert forall i, j :: 0 <= i < j < |s| ==> t[i] != t[j];
    }
  }

  lemma RepeatsDetected(runs: seq<Run>)
    ensures RepeatedCount(runs, Asked(runs)) == 0 <==> NoRepeats(runs)
  {
    var asked := Asked(runs);
    NoRepeatedCount(runs, asked);
    AskedMembers(runs);
    forall q ensures RepeatsOf(runs, q) == 0 <==> NoTwoAsking(runs, q) {
      NoRepeats1(runs, q);
      GroupRepeats(runs, q);
    }
    if forall q :: q in asked ==> RepeatsOf(runs, q) == 0 {
      forall i, j | 0 <= i < j < |runs| && Asking(runs[i]) && runs[i].questionId == runs[j].questionId
        ensures KeyOf(runs[i]) != KeyOf(runs[j])
      {
        var q := runs[i].questionId.value;
        assert runs[i] in runs && Asks(runs[i], q) && Asks(runs[j], q);
        assert NoTwoAsking(runs, q);
      }
    }
  }

  // ---------------------------------------------------------------------
  // The counting argument

  /** Completed runs outside the bank. */
  function Outside(runs: seq<Run>, bank: seq<string>): nat {
    if runs == [] then 0
    else
      var last := runs[|runs| - 1];
      Outside(runs[..|runs| - 1], bank) + (if last.status.Completed? && !InBank(last, bank) then 1 else 0)
  }

  function CompletedInBank(runs: seq<Run>, bank: seq<string>): nat {
    if bank == [] then 0 else |Completed(Group(runs, bank[0]))| + CompletedInBank(runs, bank[1..])
  }

  lemma {:induction false} OneQuestionInside(runs: seq<Run>, q: string, bank: seq<string>)
    requires q !in bank
    ensures Outside(runs, bank) == Outside(runs, [q] + bank) + |Completed(Group(runs, q))|
  {
    if runs != [] {
      var front, last := runs[..|runs| - 1], runs[|runs| - 1];
      OneQuestionInside(front, q, bank);
      if Asks(last, q) {
        assert Group(runs, q) == Group(front, q) + [last];
        assert (Group(front, q) + [last])[..|Group(front, q)|] == Group(front, q);
      } else {
        assert Group(runs, q) == Group(front, q);
      }
    }
  }

  /** Distinct questions partition the completed runs. */
  lemma {:induction false} CompletedPartition(runs: seq<Run>, bank: seq<string>)
    requires Distinct(bank)
    ensures |Completed(runs)| == CompletedInBank(runs, bank) + Outside(runs, bank)
    decreases |bank|
  {
    if bank == [] {
      OutsideNothing(runs);
    } else {
      DistinctTail(bank);
      CompletedPartition(runs, bank[1..]);
      OneQuestionInside(runs, bank[0], bank[1..]);
      assert bank == [bank[0]] + bank[1..];
    }
  }

  lemma {:induction false} OutsideNothing(runs: seq<Run>)
    ensures Outside(runs, []) == |Completed(runs)|
  {
    if runs != [] {
      OutsideNothing(runs[..|runs| - 1]);
    }
  }

  lemma {:induction false} OutsideNone(runs: seq<Run>, bank: seq<string>)
    ensures Outside(runs, bank) == 0 <==> forall r :: r in runs && r.status.Completed? ==> InBank(r, bank)
  {
    if runs != [] {
      OutsideNone(runs[..|runs| - 1], bank);
      assert runs == runs[..|runs| - 1] + [runs[|runs| - 1]];
    }
  }

  /**
   If every question reaches the target, so does their total, and it exceeds the target unless every one
   meets it exactly.
   */
  lemma {:induction false} AtLeastEach(runs: seq<Run>, bank: seq<string>)
    requires forall q :: q in bank ==> |Completed(Group(runs, q))| >= REPETITIONS_PER_QUESTION
    ensures CompletedInBank(runs, bank) >= |bank| * REPETITIONS_PER_QUESTION
    ensures CompletedInBank(runs, bank) == |bank| * REPETITIONS_PER_QUESTION
       <==> forall q :: q in bank ==> |Completed(Group(runs, q))| == REPETITIONS_PER_QUESTION
  {
    if bank != [] {
      AtLeastEach(runs, bank[1..]);
      assert bank == [bank[0]] + bank[1..];
      assert (forall q :: q in bank ==> |Completed(Group(runs, q))| == REPETITIONS_PER_QUESTION)
        <==> |Completed(Group(runs, bank[0]))| == REPETITIONS_PER_QUESTION
             && forall q :: q in bank[1..] ==> |Completed(Group(runs, q))| == REPETITIONS_PER_QUESTION;
    }
  }

  lemma {:induction false} ReportsComplete(runs: seq<Run>, bank: seq<string>)
    ensures (forall q :: q in QuestionReports(runs, bank) ==> q.complete)
       <==> forall q :: q in bank ==> QuestionReportOf(runs, q).complete
  {
    if bank != [] {
      var front, last := bank[..|bank| - 1], bank[|bank| - 1];
      ReportsComplete(runs, front);
      assert bank == front + [last];
      assert QuestionReports(runs, bank) == QuestionReports(runs, front) + [QuestionReportOf(runs, last)];
    }
  }

  /** The pigeonhole step: enough distinct repetitions everywhere and no run to spare. */
  lemma {:induction false} Pigeonhole(runs: seq<Run>, bank: seq<string>)
    requires |bank| == QUESTIONS_PER_LEVEL && Distinct(bank)
    ensures |Completed(runs)| == EXECUTIONS_PER_LEVEL && (forall q :: q in bank ==> QuestionReportOf(runs, q).complete)
       <==> (forall q :: q in bank ==> FullQuestion(runs, q))
            && (forall r :: r in runs && r.status.Completed? ==> InBank(r, bank))
  {
    CompletedPartition(runs, bank);
    OutsideNone(runs, bank);
    forall q | q in bank
      ensures QuestionReportOf(runs, q).repetitionsCompleted <= |Completed(Group(runs, q))|
      ensures FullQuestion(runs, q)
         <==> |Completed(Group(runs, q))| == REPETITIONS_PER_QUESTION == QuestionReportOf(runs, q).repetitionsCompleted
    {
      DistinctRepetitions(runs, q);
    }
    if forall q :: q in bank ==> QuestionReportOf(runs, q).complete {
      AtLeastEach(runs, bank);
    }
    if forall q :: q in bank ==> FullQuestion(runs, q) {
      AtLeastEach(runs, bank);
    }
  }

  lemma NoIssues(level: string, bank: seq<string>, runs: seq<Run>)
    ensures IssuesOf(level, bank, runs) == []
       <==> |bank| == QUESTIONS_PER_LEVEL && Distinct(bank)
            && (forall r :: r in runs ==> AtLevel(r, level)) && (forall r :: r in runs ==> Referenced(r))
            && NoRepeats(Scoped(runs, level))
  {
    SetOfSize(bank);
    ScopedAll(runs, level);
    UnreferencedNone(runs);
    RepeatsDetected(Scoped(runs, level));
  }

  lemma {:induction false} CompleteUnfolded(level: string, bank: seq<string>, runs: seq<Run>)
    ensures LevelReportOf(level, bank, runs).IsComplete()
       <==> && IssuesOf(level, bank, runs) == [] && |bank| == QUESTIONS_PER_LEVEL
            && |Completed(Scoped(runs, level))| == EXECUTIONS_PER_LEVEL
            && forall q :: q in bank ==> QuestionReportOf(Scoped(runs, level), q).complete
  {
    ReportsComplete(Scoped(runs, level), bank);
  }

  lemma {:induction false} CompleteHasShape(level: string, bank: seq<string>, runs: seq<Run>)
    requires LevelReportOf(level, bank, runs).IsComplete()
    ensures ExactShape(level, bank, runs)
  {
    CompleteUnfolded(level, bank, runs);
    NoIssues(level, bank, runs);
    ScopedAll(runs, level);
    Pigeonhole(runs, bank);
  }

  lemma {:induction false} ShapeIsComplete(level: string, bank: seq<string>, runs: seq<Run>)
    requires ExactShape(level, bank, runs)
    ensures LevelReportOf(level, bank, runs).IsComplete()
  {
    ScopedAll(runs, level);
    NoIssues(level, bank, runs);
    Pigeonhole(runs, bank);
    CompleteUnfolded(level, bank, runs);
  }

  /** No single check says so, but together they hold exactly for result sets of the intended shape. */
  lemma {:induction false} CompleteIffExactShape(level: string, bank: seq<string>, runs: seq<Run>)
    ensures LevelReportOf(level, bank, runs).IsComplete() <==> ExactShape(level, bank, runs)
  {
    if LevelReportOf(level, bank, runs).IsComplete() {
      CompleteHasShape(level, bank, runs);
    }
    if ExactShape(level, bank, runs) {
      ShapeIsComplete(level, bank, runs);
    }
  }

  /**
   Two runs of one question that share a key, such as a failed run and its re-run, keep the level incomplete
   for good.
   */
  lemma RerunNeverCompletes(level: string, bank: seq<string>, runs: seq<Run>, first: nat, again: nat)
    requires first < again < |runs| && Asking(runs[first])
    requires runs[first].questionId == runs[again].questionId && KeyOf(runs[first]) == KeyOf(runs[again])
    ensures forall more :: !LevelReportOf(level, bank, runs + more).IsComplete()
  {
    forall more ensures !LevelReportOf(level, bank, runs + more).IsComplete() {
      var all := runs + more;
      CompleteIffExactShape(level, bank, all);
      assert !NoRepeats(all) by {
        assert all[first] == runs[first] && all[again] == runs[again];
      }
    }
  }

  // ---------------------------------------------------------------------
  // The suite

  predicate SuiteIsComplete(levels: seq<LevelReport>) {
    |levels| == LEVEL_COUNT && forall l :: l in levels ==> l.IsComplete()
  }

  function TotalActual(levels: seq<LevelReport>): nat {
    if levels == [] then 0 else levels[0].successful + TotalActual(levels[1..])
  }

  lemma {:induction false} CompleteLevelsAddUp(levels: seq<LevelReport>)
    requires forall l :: l in levels ==> l.IsComplete()
    ensures TotalActual(levels) == |levels| * EXECUTIONS_PER_LEVEL
  {
    if levels != [] {
      CompleteLevelsAddUp(levels[1..]);
      assert levels[0] in levels;
    }
  }

  lemma CompleteSuiteTotals(levels: seq<LevelReport>)
    requires SuiteIsComplete(levels)
    ensures TotalActual(levels) == TOTAL_EXECUTIONS == 3000
  {
    CompleteLevelsAddUp(levels);
  }

  // ---------------------------------------------------------------------
  // The check itself

  /** `Counter(...)` over one question's runs, then the keys counted more than once. */
  method CountRepeats(runs: seq<Run>) returns (n: nat)
    ensures n == |Repeated(Keys(runs))|
  {
    var counter: map<Key, nat> := map[];
    ghost var keys: seq<Key> := [];
    for i := 0 to |runs|
      invariant keys == Keys(runs[..i]) && Counts(counter, keys)
    {
      var k := KeyOf(runs[i]);
      assert runs[..i + 1][..i] == runs[..i];
      CountsNext(counter, keys, k);
      counter := counter[k := (if k in counter then counter[k] else 0) + 1];
      keys := keys + [k];
    }
    assert runs[..|runs|] == runs;
    CountsRepeated(counter, keys);
    n := |set k | k in counter && counter[k] > 1|;
  }

  /** Group the runs by question; `order` is the dictionary's insertion order. */
  method GroupByQuestion(runs: seq<Run>) returns (byQuestion: map<string, seq<Run>>, order: seq<string>)
    ensures order == Asked(runs)
    ensures forall q :: q in byQuestion <==> q in order
    ensures forall q :: q in byQuestion ==> byQuestion[q] == Group(runs, q)
  {
    byQuestion, order := map[], [];
    for i := 0 to |runs|
      invariant order == Asked(runs[..i])
      invariant forall q :: q in byQuestion <==> q in order
      invariant forall q :: q in byQuestion ==> byQuestion[q] == Group(runs[..i], q)
    {
      assert runs[..i + 1][..i] == runs[..i];
      var r := runs[i];
      if r.questionId.Some? && r.questionId.value != "" {
        var q := r.questionId.value;
        if q !in byQuestion {
          NotAskedEmpty(runs[..i], q);
          byQuestion, order := byQuestion[q := []], order + [q];
        }
        byQuestion := byQuestion[q := byQuestion[q] + [r]];
      }
    }
    assert runs[..|runs|] == runs;
  }

  lemma NotAskedEmpty(runs: seq<Run>, q: string)
    requires q !in Asked(runs)
    ensures Group(runs, q) == []
  {
    AskedMembers(runs);
    GroupMembers(runs, q);
    assert SetOf(Group(runs, q)) == {};
    SetOfEmpty(Group(runs, q));
  }

  method ReportQuestions(byQuestion: map<string, seq<Run>>, bank: seq<string>, ghost runs: seq<Run>)
    returns (reports: seq<QuestionReport>)
    requires forall q :: q in byQuestion <==> q in Asked(runs)
    requires forall q :: q in byQuestion ==> byQuestion[q] == Group(runs, q)
    ensures reports == QuestionReports(runs, bank)
  {
    reports := [];
    for i := 0 to |bank|
      invariant reports == QuestionReports(runs, bank[..i])
    {
      var q := bank[i];
      assert bank[..i + 1][..i] == bank[..i];
      if q !in byQuestion {
        NotAskedEmpty(runs, q);
      }
      var recs := if q in byQuestion then byQuestion[q] else [];
      var completed := |SetOf(Repetitions(recs))|;
      reports := reports + [QuestionReport(q, completed, completed >= REPETITIONS_PER_QUESTION)];
    }
    assert bank[..|bank|] == bank;
  }

  /** The loop over `by_question`. */
  method CountAllRepeats(byQuestion: map<string, seq<Run>>, order: seq<string>, ghost runs: seq<Run>)
    returns (duplicates: nat)
    requires forall q :: q in order ==> q in byQuestion && byQuestion[q] == Group(runs, q)
    ensures duplicates == RepeatedCount(runs, order)
  {
    duplicates := 0;
    for i := 0 to |order|
      invariant duplicates == RepeatedCount(runs, order[..i])
    {
      assert order[..i + 1][..i] == order[..i];
      assert order[i] in order;
      var n := CountRepeats(byQuestion[order[i]]);
      duplicates := duplicates + n;
    }
    assert order[..|order|] == order;
  }

  method BankIssues(bank: seq<string>) returns (issues: seq<Issue>)
    ensures issues == BankIssuesOf(bank)
  {
    issues := [];
    if |bank| != QUESTIONS_PER_LEVEL {
      issues := issues + [WrongBankSize(|bank|)];
    }
    if |bank| != |SetOf(bank)| {
      issues := issues + [DuplicateQuestions];
    }
  }

  method RecordIssues(mismatched: nat, missing: nat, repeated: nat) returns (issues: seq<Issue>)
    ensures issues == RecordIssuesOf(mismatched, missing, repeated)
  {
    issues := [];
    if mismatched > 0 {
      issues := issues + [WrongLevel(mismatched)];
    }
    if missing > 0 {
      issues := issues + [MissingReference(missing)];
    }
    if repeated > 0 {
      issues := issues + [DuplicateRepetitions(repeated)];
    }
  }

  method CheckLevelCompleteness(level: string, bank: seq<string>, runs: seq<Run>) returns (report: LevelReport)
    ensures report == LevelReportOf(level, bank, runs)
  {
    var scoped := Scoped(runs, level);
    var bankIssues := BankIssues(bank);
    var byQuestion, order := GroupByQuestion(scoped);
    var repeated := CountAllRepeats(byQuestion, order, scoped);
    var recordIssues := RecordIssues(|runs| - |scoped|, Unreferenced(runs), repeated);
    var questions := ReportQuestions(byQuestion, bank, scoped);
    report := LevelReport(|bank|, |order|, |scoped|, |Completed(scoped)|, questions, bankIssues + recordIssues);
  }
}
