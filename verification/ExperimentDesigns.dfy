/** The experimental designs: which context combinations an experiment is to run. */
module ExperimentDesigns {
  import opened Basics
  import opened Text
  import opened ContextSpace
  import opened Conditions
  import opened ResultStore
  import opened Instances

  function WithoutDimension(dims: seq<string>, removed: string): seq<string> {
    if dims == [] then []
    else (if dims[0] != removed then [dims[0]] else []) + WithoutDimension(dims[1..], removed)
  }

  function Ablations(cat: Catalog, baseline: ContextCombination, removed: seq<string>): seq<ContextCombination> {
    if removed == [] then []
    else
      var combo := CombinationForDimensions(cat, WithoutDimension(baseline.dimensions, removed[0]));
      (if combo.Some? then [combo.value] else []) + Ablations(cat, baseline, removed[1..])
  }

  /** The baseline, then the baseline without each of its dimensions in turn, never empty. */
  function AblationConditions(cat: Catalog, baseline: ContextCombination): seq<ContextCombination> {
    [baseline] + Ablations(cat, baseline, baseline.dimensions)
  }

  /** What all of a task's architectures together provide. */
  function DefaultBaseline(cat: Catalog, task: Task): Option<ContextCombination> {
    CombinationForDimensions(cat, ProvidedDimensions(cat, task.available))
  }

  lemma {:induction false} WithoutMembers(dims: seq<string>, removed: string)
    ensures SetOf(WithoutDimension(dims, removed)) == SetOf(dims) - {removed}
  {
    if dims != [] {
      WithoutMembers(dims[1..], removed);
      assert dims == [dims[0]] + dims[1..];
      var rest := WithoutDimension(dims[1..], removed);
      assert SetOf([dims[0]] + rest) == {dims[0]} + SetOf(rest);
      assert SetOf(dims) == {dims[0]} + SetOf(dims[1..]);
      assert [] + rest == rest;
    }
  }

  /** Exactly the combinations of one dimension fewer, and none when there is only one. */
  lemma {:induction false} AblationsFacts(cat: Catalog, baseline: ContextCombination, removed: seq<string>,
                                          c: ContextCombination)
    requires Valid(cat) && SetOf(baseline.dimensions) <= SetOf(cat.order)
    requires SetOf(removed) <= SetOf(baseline.dimensions)
    requires Canonical(cat, c.dimensions) && c == CombinationOf(c.dimensions)
    ensures c in Ablations(cat, baseline, removed)
       <==> exists d :: d in removed && SetOf(c.dimensions) == SetOf(baseline.dimensions) - {d}
  {
    SetOfEmpty(c.dimensions);
    if removed != [] {
      assert removed == [removed[0]] + removed[1..];
      assert SetOf(removed) == {removed[0]} + SetOf(removed[1..]);
      AblationsFacts(cat, baseline, removed[1..], c);
      var remaining := WithoutDimension(baseline.dimensions, removed[0]);
      WithoutMembers(baseline.dimensions, removed[0]);
      SetOfEmpty(remaining);
      var combo := CombinationForDimensions(cat, remaining);
      if remaining == [] {
        RestrictMembers(cat.order, {});
        SetOfEmpty(Restrict(cat.order, SetOf(remaining)));
        assert combo == None;
      } else {
        IdRoundTrip(cat, remaining);
        assert c == combo.value <==> SetOf(c.dimensions) == SetOf(remaining);
      }
      assert c in Ablations(cat, baseline, removed)
        <==> (remaining != [] && c == combo.value) || c in Ablations(cat, baseline, removed[1..]);
    }
  }

  lemma {:induction false} AblationsAreCombinations(cat: Catalog, baseline: ContextCombination, removed: seq<string>,
                                                    c: ContextCombination)
    requires Valid(cat) && SetOf(baseline.dimensions) <= SetOf(cat.order)
    requires c in Ablations(cat, baseline, removed)
    ensures Canonical(cat, c.dimensions) && c == CombinationOf(c.dimensions)
  {
    var remaining := WithoutDimension(baseline.dimensions, removed[0]);
    var combo := CombinationForDimensions(cat, remaining);
    if combo == Some(c) {
      WithoutMembers(baseline.dimensions, removed[0]);
      if remaining == [] {
        RestrictMembers(cat.order, {});
        SetOfEmpty(remaining);
        SetOfEmpty(Restrict(cat.order, SetOf(remaining)));
      } else {
        IdRoundTrip(cat, remaining);
      }
    } else {
      AblationsAreCombinations(cat, baseline, removed[1..], c);
    }
  }

  /** The default baseline always resolves EXACT, and none of its ablations is UNREALIZABLE. */
  lemma DefaultAblationIsRunnable(cat: Catalog, task: Task, c: ContextCombination)
    requires Valid(cat) && Provided(cat, SetOf(task.available)) != {}
    ensures var baseline := DefaultBaseline(cat, task);
            && baseline.Some?
            && Resolve(cat, baseline.value, task.available).status == Exact
            && (c in AblationConditions(cat, baseline.value)
                ==> Resolve(cat, c, task.available).status != Unrealizable)
  {
    ProvidedCombination(cat, task.available);
    var b := DefaultBaseline(cat, task).value;
    NothingProvidesNothing(cat);
    SetOfEmpty(task.available);
    assert Realizes(cat, task.available, SetOf(b.dimensions), SetOf(task.available));
    ExactIffRealized(cat, b, task.available);
    if c in AblationConditions(cat, b) {
      if c != b {
        AblationsAreCombinations(cat, b, b.dimensions, c);
        AblationsFacts(cat, b, b.dimensions, c);
      }
      UnrealizableIffUncovered(cat, c, task.available);
    }
  }

  /**
   `progressive_conditions`: the combination of each prefix of `order`; `None` when it is no permutation of
   the catalog.
   */
  function ProgressiveConditions(cat: Catalog, order: seq<string>): Option<seq<ContextCombination>> {
    if SetOf(order) != SetOf(cat.order) || |order| != |cat.order| then None else Some(Prefixes(cat, order, |order|))
  }

  function Prefixes(cat: Catalog, order: seq<string>, n: nat): seq<ContextCombination>
    requires n <= |order|
  {
    if n == 0 then []
    else
      var combo := CombinationForDimensions(cat, order[..n]);
      Prefixes(cat, order, n - 1) + (if combo.Some? then [combo.value] else [])
  }

  /** The combination of one prefix. */
  lemma PrefixCombination(cat: Catalog, order: seq<string>, n: nat)
    requires Valid(cat) && SetOf(order) <= SetOf(cat.order) && Distinct(order) && 0 < n <= |order|
    ensures var combo := CombinationForDimensions(cat, order[..n]);
            combo.Some? && SetOf(combo.value.dimensions) == SetOf(order[..n]) && combo.value.cardinality == n
  {
    var prefix := order[..n];
    forall d | d in prefix ensures d in cat.order {
      assert d in SetOf(order);
    }
    IdRoundTrip(cat, prefix);
    var c := CombinationForDimensions(cat, prefix).value;
    RestrictFacts(cat.order, SetOf(c.dimensions));
    SetOfSize(prefix);
    SetOfSize(c.dimensions);
  }

  lemma {:induction false} PrefixesAt(cat: Catalog, order: seq<string>, n: nat, k: nat)
    requires Valid(cat) && SetOf(order) <= SetOf(cat.order) && Distinct(order) && k < n <= |order|
    ensures |Prefixes(cat, order, n)| == n
    ensures Some(Prefixes(cat, order, n)[k]) == CombinationForDimensions(cat, order[..k + 1])
  {
    PrefixCombination(cat, order, n);
    if n > 1 {
      PrefixesAt(cat, order, n - 1, if k < n - 1 then k else 0);
    } else {
      assert Prefixes(cat, order, 0) == [];
    }
  }

  /**
   Any permutation of the catalog gives one combination per length, holding the first dimensions of the
   order, up to all of them.
   */
  lemma ProgressiveChain(cat: Catalog, order: seq<string>, k: nat)
    requires Valid(cat) && ProgressiveConditions(cat, order).Some? && k < |order|
    ensures Distinct(order)
    ensures var chain := ProgressiveConditions(cat, order).value;
            |chain| == |order| && chain[k].cardinality == k + 1 && SetOf(chain[k].dimensions) == SetOf(order[..k + 1])
    ensures order[..|order|] == order
  {
    SetOfSize(order);
    SetOfSize(cat.order);
    PrefixesAt(cat, order, |order|, k);
    PrefixCombination(cat, order, k + 1);
  }

  /** Each step of the chain adds exactly the next dimension of the order. */
  lemma ProgressiveStep(cat: Catalog, order: seq<string>, k: nat)
    requires Valid(cat) && ProgressiveConditions(cat, order).Some?
             && 0 < k < |order| == |ProgressiveConditions(cat, order).value|
    ensures var chain := ProgressiveConditions(cat, order).value;
            order[k] !in SetOf(chain[k - 1].dimensions)
              && SetOf(chain[k].dimensions) == SetOf(chain[k - 1].dimensions) + {order[k]}
  {
    ProgressiveChain(cat, order, k);
    ProgressiveChain(cat, order, k - 1);
    TakeOneMore(order, k);
  }

  lemma TakeOneMore(order: seq<string>, k: nat)
    requires Distinct(order) && k < |order|
    ensures order[k] !in SetOf(order[..k]) && SetOf(order[..k + 1]) == SetOf(order[..k]) + {order[k]}
  {
    assert order[..k + 1] == order[..k] + [order[k]];
    assert order[k] !in order[..k];
  }

  // ---------------------------------------------------------------------
  // Selecting by strategy

  datatype Strategy = Single | Pairwise | Progressive | Targeted | Ablation | Replay

  /** Empty texts and lists stand for what was not given. */
  datatype Design = Design(strategy: Strategy, targets: seq<string>, baseline: string, order: seq<string>)

  datatype DesignError = UnknownCombination | NoTargets | BadOrder | NothingProvided

  datatype Selection = Refused(error: DesignError) | Selected(combos: seq<ContextCombination>)

  function OfCardinality(cat: Catalog, n: nat): seq<ContextCombination> {
    Filter(AllCombinations(cat), (c: ContextCombination) => c.cardinality == n)
  }

  function LookupTargets(cat: Catalog, ids: seq<string>): Selection {
    if ids == [] then Selected([])
    else
      var combo, rest := CombinationForId(cat, ids[0]), LookupTargets(cat, ids[1..]);
      if combo.None? || rest.Refused? then Refused(UnknownCombination) else Selected([combo.value] + rest.combos)
  }

  /** The combination ids under which runs of the task are recorded. */
  function RecordedIds(d: Disk, taskId: string): set<string> {
    set id | id in d.raw && d.raw[id].config.taskId == taskId
      && d.raw[id].config.combinationId != "" :: d.raw[id].config.combinationId
  }

  function Replayed(cat: Catalog, ids: set<string>): Selection {
    if exists id :: id in ids && CombinationForId(cat, id).None? then Refused(UnknownCombination)
    else Selected(Sort(SmallerFirst, Filter(AllCombinations(cat), (c: ContextCombination) => c.combinationId in ids)))
  }

  function BaselineOf(cat: Catalog, design: Design, task: Task): Option<ContextCombination> {
    if design.baseline != "" then CombinationForId(cat, design.baseline) else DefaultBaseline(cat, task)
  }

  function GenerateConditions(cat: Catalog, design: Design, task: Task): Selection {
    match design.strategy
    case Single => Selected(OfCardinality(cat, 1))
    case Pairwise => Selected(OfCardinality(cat, 2))
    case Progressive =>
      (match ProgressiveConditions(cat, if design.order != [] then design.order else cat.order)
       case None => Refused(BadOrder)
       case Some(chain) => Selected(chain))
    case Targeted => if design.targets == [] then Refused(NoTargets) else LookupTargets(cat, design.targets)
    case Ablation =>
      (match BaselineOf(cat, design, task)
       case None => Refused(if design.baseline != "" then UnknownCombination else NothingProvided)
       case Some(baseline) => Selected(AblationConditions(cat, baseline)))
    case Replay => Replayed(cat, {})
  }

  /** `_select_conditions`: the baseline is looked up first, then the order is read, whatever the strategy uses. */
  function SelectConditions(cat: Catalog, d: Disk, design: Design, task: Task): Selection {
    if design.strategy.Replay? then Replayed(cat, RecordedIds(d, task.taskId))
    else if design.strategy.Ablation? && BaselineOf(cat, design, task).None? then GenerateConditions(cat, design, task)
    else if !(SetOf(design.order) <= SetOf(cat.order)) then Refused(BadOrder)
    else GenerateConditions(cat, design, task)
  }

  /** A combination of the catalog, with the id and cardinality that belong to its dimensions. */
  ghost predicate IsCombination(cat: Catalog, c: ContextCombination) {
    Canonical(cat, c.dimensions) && c == CombinationOf(c.dimensions)
  }

  lemma FoundIsCombination(cat: Catalog, id: string)
    requires Valid(cat) && CombinationForId(cat, id).Some?
    ensures IsCombination(cat, CombinationForId(cat, id).value) && CombinationForId(cat, id).value.combinationId == id
  {
    IndexFacts(AllCombinations(cat));
    AllCombinationsMembers(cat, CombinationForId(cat, id).value);
  }

  lemma {:induction false} TargetsAreCombinations(cat: Catalog, ids: seq<string>, c: ContextCombination)
    requires Valid(cat) && LookupTargets(cat, ids).Selected? && c in LookupTargets(cat, ids).combos
    ensures IsCombination(cat, c)
  {
    FoundIsCombination(cat, ids[0]);
    if c != CombinationForId(cat, ids[0]).value {
      TargetsAreCombinations(cat, ids[1..], c);
    }
  }

  lemma FilteredAreCombinations(cat: Catalog, keep: ContextCombination -> bool, c: ContextCombination)
    requires Valid(cat) && c in Filter(AllCombinations(cat), keep)
    ensures IsCombination(cat, c)
  {
    FilterMembers(AllCombinations(cat), keep);
    AllCombinationsMembers(cat, c);
  }

  lemma {:induction false} PrefixesAreCombinations(cat: Catalog, order: seq<string>, n: nat, c: ContextCombination)
    requires Valid(cat) && n <= |order| && c in Prefixes(cat, order, n)
    ensures IsCombination(cat, c)
  {
    var combo := CombinationForDimensions(cat, order[..n]);
    if combo.Some? && c == combo.value {
      FoundIsCombination(cat, CombinationIdFor(cat, order[..n]).value);
    } else {
      PrefixesAreCombinations(cat, order, n - 1, c);
    }
  }

  lemma AblationsAreAll(cat: Catalog, baseline: ContextCombination, c: ContextCombination)
    requires Valid(cat) && IsCombination(cat, baseline) && c in AblationConditions(cat, baseline)
    ensures IsCombination(cat, c)
  {
    if c != baseline {
      RestrictFacts(cat.order, SetOf(baseline.dimensions));
      AblationsAreCombinations(cat, baseline, baseline.dimensions, c);
    }
  }

  /** Whatever the strategy, only combinations of the catalog are selected. */
  lemma SelectedAreCombinations(cat: Catalog, d: Disk, design: Design, task: Task, c: ContextCombination)
    requires Valid(cat) && SelectConditions(cat, d, design, task).Selected?
    requires c in SelectConditions(cat, d, design, task).combos
    ensures IsCombination(cat, c)
  {
    match design.strategy
    case Single => FilteredAreCombinations(cat, (c: ContextCombination) => c.cardinality == 1, c);
    case Pairwise => FilteredAreCombinations(cat, (c: ContextCombination) => c.cardinality == 2, c);
    case Progressive =>
      var order := if design.order != [] then design.order else cat.order;
      PrefixesAreCombinations(cat, order, |order|, c);
    case Targeted => TargetsAreCombinations(cat, design.targets, c);
    case Ablation =>
      BaselineIsCombination(cat, design, task);
      AblationsAreAll(cat, BaselineOf(cat, design, task).value, c);
    case Replay =>
      var ids := RecordedIds(d, task.taskId);
      ReplayedAreCombinations(cat, ids, c);
  }

  lemma ReplayedAreCombinations(cat: Catalog, ids: set<string>, c: ContextCombination)
    requires Valid(cat) && Replayed(cat, ids).Selected? && c in Replayed(cat, ids).combos
    ensures IsCombination(cat, c) && c.combinationId in ids
  {
    var keep := (c: ContextCombination) => c.combinationId in ids;
    SmallerFirstIsPreorder();
    SortMembers(SmallerFirst, Filter(AllCombinations(cat), keep));
    FilterMembers(AllCombinations(cat), keep);
    FilteredAreCombinations(cat, keep, c);
  }

  lemma BaselineIsCombination(cat: Catalog, design: Design, task: Task)
    requires Valid(cat) && BaselineOf(cat, design, task).Some?
    ensures IsCombination(cat, BaselineOf(cat, design, task).value)
  {
    if design.baseline != "" {
      FoundIsCombination(cat, design.baseline);
    } else {
      FoundIsCombination(cat, CombinationIdFor(cat, ProvidedDimensions(cat, task.available)).value);
    }
  }

  /**
   A replay selects exactly the combinations under which the task's runs are recorded, each once, by
   cardinality and id.
   */
  lemma ReplayIsWhatWasRecorded(cat: Catalog, ids: set<string>, id: string)
    requires Valid(cat) && Replayed(cat, ids).Selected?
    ensures id in ids <==> exists c :: c in Replayed(cat, ids).combos && c.combinationId == id
    ensures Distinct(Replayed(cat, ids).combos) && SortedBy(SmallerFirst, Replayed(cat, ids).combos)
  {
    var keep := (c: ContextCombination) => c.combinationId in ids;
    var kept := Filter(AllCombinations(cat), keep);
    SmallerFirstIsPreorder();
    EnumerationComplete(cat);
    FilterDistinct(AllCombinations(cat), keep);
    SortMembers(SmallerFirst, kept);
    SortProperties(SmallerFirst, kept);
    FilterMembers(AllCombinations(cat), keep);
    if id in ids {
      FoundIsCombination(cat, id);
      var c := CombinationForId(cat, id).value;
      AllCombinationsMembers(cat, c);
      assert c in kept;
    }
  }
}
