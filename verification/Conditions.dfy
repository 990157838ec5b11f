/**
 From a requested context combination to the architecture arm that realizes it,
 for any catalog of dimensions and any set of available architectures.
 */
module Conditions {
  import opened Basics
  import opened ContextSpace

  datatype Status = Exact | Overshoot | Unrealizable

  datatype Resolution = Resolution(
    combinationId: string,
    requested: seq<string>,
    status: Status,
    architectures: Option<seq<string>>,
    provided: seq<string>,
    extra: seq<string>)

  function Extra(cat: Catalog, target: set<string>, arm: seq<string>): set<string> {
    Provided(cat, SetOf(arm)) - target
  }

  /** Fewest extra dimensions, then fewest architectures, then alphabetical. */
  predicate RankLt(cat: Catalog, target: set<string>, a: seq<string>, b: seq<string>) {
    var x, y := |Extra(cat, target, a)|, |Extra(cat, target, b)|;
    x < y || (x == y && (|a| < |b| || (|a| == |b| && TupleLt(a, b))))
  }

  predicate IsExact(cat: Catalog, target: set<string>, arm: seq<string>) {
    Provided(cat, SetOf(arm)) == target
  }

  predicate Overshoots(cat: Catalog, target: set<string>, arm: seq<string>) {
    !IsExact(cat, target, arm) && target <= Provided(cat, SetOf(arm))
  }

  function ExactArms(cat: Catalog, target: set<string>, arms: seq<seq<string>>): seq<seq<string>> {
    if arms == [] then []
    else
      var front, last := ExactArms(cat, target, arms[..|arms| - 1]), arms[|arms| - 1];
      if IsExact(cat, target, last) then front + [last] else front
  }

  function OvershootArms(cat: Catalog, target: set<string>, arms: seq<seq<string>>): seq<seq<string>> {
    if arms == [] then []
    else
      var front, last := OvershootArms(cat, target, arms[..|arms| - 1]), arms[|arms| - 1];
      if Overshoots(cat, target, last) then front + [last] else front
  }

  /** Python's `min(arms, key=...)`. No exact arm has extras, so among them this compares size, then names. */
  function Least(cat: Catalog, target: set<string>, arms: seq<seq<string>>): seq<string>
    requires arms != []
  {
    var last := arms[|arms| - 1];
    if |arms| == 1 then last
    else
      var best := Least(cat, target, arms[..|arms| - 1]);
      if RankLt(cat, target, last, best) then last else best
  }

  /** Every non-empty choice from the available architectures. */
  function Arms(available: seq<string>): seq<seq<string>> {
    Picks(SortedSet(available), |SortedSet(available)|)
  }

  function Resolve(cat: Catalog, combo: ContextCombination, available: seq<string>): Resolution {
    var target := SetOf(combo.dimensions);
    Decide(cat, combo, ExactArms(cat, target, Arms(available)), OvershootArms(cat, target, Arms(available)))
  }

  function Decide(cat: Catalog, combo: ContextCombination, exact: seq<seq<string>>,
                  over: seq<seq<string>>): Resolution {
    var target := SetOf(combo.dimensions);
    if exact != [] then
      Resolution(combo.combinationId, combo.dimensions, Exact, Some(Least(cat, target, exact)), combo.dimensions, [])
    else if over != [] then
      var best := Least(cat, target, over);
      Resolution(combo.combinationId, combo.dimensions, Overshoot, Some(best),
                 Restrict(cat.order, Provided(cat, SetOf(best))), Restrict(cat.order, Extra(cat, target, best)))
    else
      Resolution(combo.combinationId, combo.dimensions, Unrealizable, None, [], [])
  }

  /** The search as written: all sizes, all subsets of each size, two candidate lists. */
  method ResolveConditionArchitectures(cat: Catalog, combo: ContextCombination, available: seq<string>)
    returns (resolution: Resolution)
    ensures resolution == Resolve(cat, combo, available)
  {
    var exact, over := FindCandidates(cat, SetOf(combo.dimensions), SortedSet(available));
    resolution := Decide(cat, combo, exact, over);
  }

  method FindCandidates(cat: Catalog, target: set<string>, archs: seq<string>)
    returns (exact: seq<seq<string>>, over: seq<seq<string>>)
    ensures exact == ExactArms(cat, target, Picks(archs, |archs|))
            && over == OvershootArms(cat, target, Picks(archs, |archs|))
  {
    NoPicks(cat, target, archs);
    exact, over := [], [];
    for r := 0 to |archs|
      invariant exact == ExactArms(cat, target, Picks(archs, r))
      invariant over == OvershootArms(cat, target, Picks(archs, r))
    {
      exact, over := AddSize(cat, target, archs, r, exact, over);
    }
  }

  lemma NoPicks(cat: Catalog, target: set<string>, archs: seq<string>)
    ensures ExactArms(cat, target, Picks(archs, 0)) == [] && OvershootArms(cat, target, Picks(archs, 0)) == []
  {
  }

  /** One turn of the outer loop: the subsets of the next size. */
  method AddSize(cat: Catalog, target: set<string>, archs: seq<string>, r: nat, exact0: seq<seq<string>>,
                 over0: seq<seq<string>>)
    returns (exact: seq<seq<string>>, over: seq<seq<string>>)
    requires exact0 == ExactArms(cat, target, Picks(archs, r)) && over0 == OvershootArms(cat, target, Picks(archs, r))
    ensures exact == ExactArms(cat, target, Picks(archs, r + 1))
            && over == OvershootArms(cat, target, Picks(archs, r + 1))
  {
    PicksNext(archs, r);
    exact, over := SortIntoCandidates(cat, target, Combinations(archs, r + 1), exact0, over0, Picks(archs, r));
  }

  lemma PicksNext(archs: seq<string>, r: nat)
    ensures Picks(archs, r + 1) == Picks(archs, r) + Combinations(archs, r + 1)
  {
  }

  /** The inner loop: each subset goes to one candidate list or to neither. */
  method SortIntoCandidates(cat: Catalog, target: set<string>, subsets: seq<seq<string>>,
                            exact0: seq<seq<string>>, over0: seq<seq<string>>, ghost before: seq<seq<string>>)
    returns (exact: seq<seq<string>>, over: seq<seq<string>>)
    requires exact0 == ExactArms(cat, target, before) && over0 == OvershootArms(cat, target, before)
    ensures exact == ExactArms(cat, target, before + subsets)
    ensures over == OvershootArms(cat, target, before + subsets)
  {
    exact, over := exact0, over0;
    ghost var seen := before;
    assert seen == before + subsets[..0];
    var i := 0;
    while i < |subsets|
      invariant 0 <= i <= |subsets|
      invariant seen == before + subsets[..i]
      invariant exact == ExactArms(cat, target, seen) && over == OvershootArms(cat, target, seen)
    {
      var provided := Provided(cat, SetOf(subsets[i]));
      ArmsSnoc(cat, target, seen, subsets[i]);
      TakeSnoc(before, subsets, i);
      if provided == target {
        exact := exact + [subsets[i]];
      } else if provided >= target {
        over := over + [subsets[i]];
      }
      seen := seen + [subsets[i]];
      i := i + 1;
    }
    assert subsets[..i] == subsets;
  }

  lemma ArmsSnoc(cat: Catalog, target: set<string>, arms: seq<seq<string>>, last: seq<string>)
    ensures ExactArms(cat, target, arms + [last])
         == if IsExact(cat, target, last) then ExactArms(cat, target, arms) + [last] else ExactArms(cat, target, arms)
    ensures OvershootArms(cat, target, arms + [last])
         == if Overshoots(cat, target, last) then OvershootArms(cat, target, arms) + [last]
         else OvershootArms(cat, target, arms)
  {
    assert (arms + [last])[..|arms|] == arms;
  }

  lemma {:induction false} CandidateMembers(cat: Catalog, target: set<string>, arms: seq<seq<string>>, arm: seq<string>)
    ensures arm in ExactArms(cat, target, arms) <==> arm in arms && IsExact(cat, target, arm)
    ensures arm in OvershootArms(cat, target, arms) <==> arm in arms && Overshoots(cat, target, arm)
  {
    if arms != [] {
      CandidateMembers(cat, target, arms[..|arms| - 1], arm);
      assert arms == arms[..|arms| - 1] + [arms[|arms| - 1]];
    }
  }

  lemma RankTotal(cat: Catalog, target: set<string>, a: seq<string>, b: seq<string>)
    ensures RankLt(cat, target, a, b) || a == b || RankLt(cat, target, b, a)
  {
    TupleOrder();
  }

  lemma RankTransitive(cat: Catalog, target: set<string>, a: seq<string>, b: seq<string>, c: seq<string>)
    requires RankLt(cat, target, a, b) && RankLt(cat, target, b, c)
    ensures RankLt(cat, target, a, c)
  {
    TupleOrder();
  }

  lemma {:induction false} LeastIsLeast(cat: Catalog, target: set<string>, arms: seq<seq<string>>, arm: seq<string>)
    requires arms != []
    ensures Least(cat, target, arms) in arms
    ensures arm in arms ==> arm == Least(cat, target, arms) || RankLt(cat, target, Least(cat, target, arms), arm)
  {
    var front, last := arms[..|arms| - 1], arms[|arms| - 1];
    assert arms == front + [last];
    if front != [] {
      LeastIsLeast(cat, target, front, arm);
      StillLeast(cat, target, Least(cat, target, front), last, arm, arm in front);
    }
  }

  /** The better of the best so far and one more precedes everything the best so far preceded, and both of them. */
  lemma StillLeast(cat: Catalog, target: set<string>, best: seq<string>, last: seq<string>, arm: seq<string>,
                   among: bool)
    requires among ==> arm == best || RankLt(cat, target, best, arm)
    ensures var least := if RankLt(cat, target, last, best) then last else best;
            among || arm == last ==> arm == least || RankLt(cat, target, least, arm)
  {
    RankTotal(cat, target, best, last);
    if among && arm != best && RankLt(cat, target, last, best) {
      RankTransitive(cat, target, last, best, arm);
    }
  }

  // ---------------------------------------------------------------------
  // Arms are exactly the non-empty sets of available architectures

  /** The arm that uses exactly the architectures in `chosen`, listed alphabetically. */
  function ArmOf(available: seq<string>, chosen: set<string>): seq<string> {
    Restrict(SortedSet(available), chosen)
  }

  lemma ChosenSetIsArm(available: seq<string>, chosen: set<string>)
    requires chosen != {} && chosen <= SetOf(available)
    ensures ArmOf(available, chosen) in Arms(available) && SetOf(ArmOf(available, chosen)) == chosen
  {
    var archs := SortedSet(available);
    var arm := ArmOf(available, chosen);
    SortedSetFacts(available);
    RestrictFacts(archs, chosen);
    assert SetOf(archs) * chosen == chosen;
    SetOfEmpty(arm);
    SetOfSize(archs);
    SubsetSize(chosen, SetOf(archs));
    PicksMembers(archs, |archs|, arm);
  }

  lemma ArmIsChosenSet(available: seq<string>, arm: seq<string>)
    requires arm in Arms(available)
    ensures SetOf(arm) != {} && SetOf(arm) <= SetOf(available) && arm == ArmOf(available, SetOf(arm))
  {
    var archs := SortedSet(available);
    SortedSetFacts(available);
    PicksMembers(archs, |archs|, arm);
    RestrictFacts(archs, SetOf(arm));
    SetOfEmpty(arm);
  }

  lemma ChosenArmIsCandidate(cat: Catalog, target: set<string>, available: seq<string>, chosen: set<string>)
    requires chosen != {} && chosen <= SetOf(available)
    ensures Provided(cat, chosen) == target ==> ArmOf(available, chosen) in ExactArms(cat, target, Arms(available))
    ensures Provided(cat, chosen) > target ==> ArmOf(available, chosen) in OvershootArms(cat, target, Arms(available))
  {
    ChosenSetIsArm(available, chosen);
    CandidateMembers(cat, target, Arms(available), ArmOf(available, chosen));
  }

  lemma BestIsCandidate(cat: Catalog, target: set<string>, available: seq<string>, arms: seq<seq<string>>)
    requires arms != []
    requires arms == ExactArms(cat, target, Arms(available)) || arms == OvershootArms(cat, target, Arms(available))
    ensures var best := Least(cat, target, arms);
            best in arms && SetOf(best) != {} && SetOf(best) <= SetOf(available)
              && best == ArmOf(available, SetOf(best))
    ensures arms == ExactArms(cat, target, Arms(available)) ==> IsExact(cat, target, Least(cat, target, arms))
    ensures arms == OvershootArms(cat, target, Arms(available)) ==> Overshoots(cat, target, Least(cat, target, arms))
  {
    var best := Least(cat, target, arms);
    LeastIsLeast(cat, target, arms, best);
    CandidateMembers(cat, target, Arms(available), best);
    ArmIsChosenSet(available, best);
  }

  // ---------------------------------------------------------------------
  // Resolution is sound, complete and optimal

  /** A choice that provides exactly, respectively at least, the target. */
  ghost predicate Realizes(cat: Catalog, available: seq<string>, target: set<string>, chosen: set<string>) {
    chosen != {} && chosen <= SetOf(available) && Provided(cat, chosen) == target
  }

  ghost predicate Covers(cat: Catalog, available: seq<string>, target: set<string>, chosen: set<string>) {
    chosen != {} && chosen <= SetOf(available) && target <= Provided(cat, chosen)
  }

  /** EXACT exactly when some non-empty choice of architectures provides exactly the target. */
  lemma ExactIffRealized(cat: Catalog, combo: ContextCombination, available: seq<string>)
    ensures Resolve(cat, combo, available).status == Exact
       <==> exists chosen :: Realizes(cat, available, SetOf(combo.dimensions), chosen)
  {
    var target := SetOf(combo.dimensions);
    var exact := ExactArms(cat, target, Arms(available));
    if exact != [] {
      BestIsCandidate(cat, target, available, exact);
      assert Realizes(cat, available, target, SetOf(Least(cat, target, exact)));
    }
    if chosen :| Realizes(cat, available, target, chosen) {
      ChosenArmIsCandidate(cat, target, available, chosen);
    }
  }

  /** UNREALIZABLE exactly when not even all the available architectures together cover the target. */
  lemma UnrealizableIffUncovered(cat: Catalog, combo: ContextCombination, available: seq<string>)
    ensures Resolve(cat, combo, available).status == Unrealizable
       <==> available == [] || !(SetOf(combo.dimensions) <= Provided(cat, SetOf(available)))
  {
    var target := SetOf(combo.dimensions);
    var exact := ExactArms(cat, target, Arms(available));
    var over := OvershootArms(cat, target, Arms(available));
    SetOfEmpty(available);
    if exact != [] {
      BestIsCandidate(cat, target, available, exact);
      ProvidedMonotone(cat, SetOf(Least(cat, target, exact)), SetOf(available));
    } else if over != [] {
      BestIsCandidate(cat, target, available, over);
      ProvidedMonotone(cat, SetOf(Least(cat, target, over)), SetOf(available));
    } else if available != [] {
      ChosenArmIsCandidate(cat, target, available, SetOf(available));
    }
  }

  /** A condition worth running: realized exactly, or covered by everything available when overshooting is allowed. */
  ghost predicate Runnable(cat: Catalog, available: seq<string>, target: set<string>, allowOvershoot: bool) {
    || (exists chosen :: Realizes(cat, available, target, chosen))
    || (allowOvershoot && available != [] && target <= Provided(cat, SetOf(available)))
  }

  /** What the runners' two skip tests leave over is exactly what is runnable. */
  lemma NotSkippedIffRunnable(cat: Catalog, combo: ContextCombination, available: seq<string>, allowOvershoot: bool)
    ensures Runnable(cat, available, SetOf(combo.dimensions), allowOvershoot)
       <==> !(Resolve(cat, combo, available).status == Unrealizable
              || (Resolve(cat, combo, available).status == Overshoot && !allowOvershoot))
  {
    ExactIffRealized(cat, combo, available);
    UnrealizableIffUncovered(cat, combo, available);
  }

  /** What the returned arm provides, and that every other covering choice ranks strictly behind it. */
  lemma ResolvedArmIsOptimal(cat: Catalog, combo: ContextCombination, available: seq<string>, chosen: set<string>)
    requires Resolve(cat, combo, available).status != Unrealizable
    ensures var r, target := Resolve(cat, combo, available), SetOf(combo.dimensions);
            && r.architectures.Some?
            && Covers(cat, available, target, SetOf(r.architectures.value))
            && r.architectures.value == ArmOf(available, SetOf(r.architectures.value))
            && (r.status == Exact <==> Provided(cat, SetOf(r.architectures.value)) == target)
            && (Covers(cat, available, target, chosen)
                ==> SetOf(r.architectures.value) == chosen
                    || RankLt(cat, target, r.architectures.value, ArmOf(available, chosen)))
  {
    var target := SetOf(combo.dimensions);
    var exact := ExactArms(cat, target, Arms(available));
    var over := OvershootArms(cat, target, Arms(available));
    var candidates := if exact != [] then exact else over;
    BestIsCandidate(cat, target, available, candidates);
    if Covers(cat, available, target, chosen) {
      ChosenArmIsCandidate(cat, target, available, chosen);
      ChosenSetIsArm(available, chosen);
      var arm, best := ArmOf(available, chosen), Least(cat, target, candidates);
      if Provided(cat, chosen) == target || exact == [] {
        LeastIsLeast(cat, target, candidates, arm);
      } else {
        assert Extra(cat, target, best) == {};
        var d :| d in Provided(cat, chosen) && d !in target;
        assert d in Extra(cat, target, arm);
      }
    }
  }

  /** The reported dimension lists are those of the returned arm. */
  lemma ReportedDimensions(cat: Catalog, combo: ContextCombination, available: seq<string>)
    requires Resolve(cat, combo, available).status != Unrealizable
    ensures var r := Resolve(cat, combo, available);
            && r.architectures.Some?
            && SetOf(r.provided) == Provided(cat, SetOf(r.architectures.value))
            && SetOf(r.extra) == SetOf(r.provided) - SetOf(combo.dimensions)
            && (r.status == Overshoot ==> SetOf(combo.dimensions) < SetOf(r.provided))
  {
    var r, target := Resolve(cat, combo, available), SetOf(combo.dimensions);
    ResolvedArmIsOptimal(cat, combo, available, {});
    var arm := r.architectures.value;
    if r.status == Exact {
      assert SetOf<string>([]) == {};
    } else {
      RestrictSubset(cat.order, Provided(cat, SetOf(arm)));
      RestrictSubset(cat.order, Extra(cat, target, arm));
    }
  }

  // ---------------------------------------------------------------------
  // realizable_combinations

  /** The dimension sets some non-empty choice provides exactly, the empty one left out. */
  ghost predicate Realizable(cat: Catalog, available: seq<string>, dims: set<string>) {
    dims != {} && exists chosen :: Realizes(cat, available, dims, chosen)
  }

  predicate SmallerFirst(a: ContextCombination, b: ContextCombination) {
    a.cardinality < b.cardinality || (a.cardinality == b.cardinality && !StringLt(b.combinationId, a.combinationId))
  }

  lemma SmallerFirstIsPreorder()
    ensures Preorder(SmallerFirst)
  {
    StringOrder();
  }

  ghost predicate Recorded(cat: Catalog, seen: map<set<string>, ContextCombination>, found: seq<ContextCombination>,
                           arms: seq<seq<string>>) {
    && SetOf(found) == seen.Values && Distinct(found)
    && (forall dims :: dims in seen <==> dims != {} && exists arm :: arm in arms && Provided(cat, SetOf(arm)) == dims)
    && (forall dims :: dims in seen ==> SetOf(seen[dims].dimensions) == dims && Canonical(cat, seen[dims].dimensions)
                                        && seen[dims] == CombinationOf(seen[dims].dimensions))
  }

  /**
   `seen` is the dictionary; `found` its values in insertion order. The result lists
   every realizable dimension set once, in the order of (cardinality, id).
   */
  method RealizableCombinations(cat: Catalog, available: seq<string>) returns (combos: seq<ContextCombination>)
    requires Valid(cat)
    ensures forall dims :: Realizable(cat, available, dims) <==> exists c :: c in combos && SetOf(c.dimensions) == dims
    ensures forall c :: c in combos ==> Canonical(cat, c.dimensions) && c == CombinationOf(c.dimensions)
    ensures Distinct(combos) && SortedBy(SmallerFirst, combos)
  {
    var archs := SortedSet(available);
    var seen: map<set<string>, ContextCombination> := map[];
    var found: seq<ContextCombination> := [];
    assert SetOf(found) == seen.Values;
    var r := 1;
    while r <= |archs|
      invariant 1 <= r <= |archs| + 1
      invariant Recorded(cat, seen, found, Picks(archs, r - 1))
    {
      seen, found := RecordSubsets(cat, seen, found, Combinations(archs, r), Picks(archs, r - 1));
      r := r + 1;
    }
    RealizableIffSeen(cat, available, seen, found, Picks(archs, r - 1));
    FoundIsListed(cat, seen, found, Picks(archs, r - 1));
    combos := Sort(SmallerFirst, found);
  }

  lemma FoundIsListed(cat: Catalog, seen: map<set<string>, ContextCombination>, found: seq<ContextCombination>,
                      arms: seq<seq<string>>)
    requires Recorded(cat, seen, found, arms)
    ensures forall c :: c in Sort(SmallerFirst, found) <==> c in SetOf(found)
    ensures forall c :: c in Sort(SmallerFirst, found)
              ==> Canonical(cat, c.dimensions) && c == CombinationOf(c.dimensions)
    ensures Distinct(Sort(SmallerFirst, found)) && SortedBy(SmallerFirst, Sort(SmallerFirst, found))
  {
    SmallerFirstIsPreorder();
    SortProperties(SmallerFirst, found);
    SortMembers(SmallerFirst, found);
  }

  /** The inner loop: each subset's dimensions are recorded unless empty or seen. */
  method RecordSubsets(cat: Catalog, seen0: map<set<string>, ContextCombination>, found0: seq<ContextCombination>,
                       subsets: seq<seq<string>>, ghost before: seq<seq<string>>)
    returns (seen: map<set<string>, ContextCombination>, found: seq<ContextCombination>)
    requires Valid(cat) && Recorded(cat, seen0, found0, before)
    ensures Recorded(cat, seen, found, before + subsets)
  {
    seen, found := seen0, found0;
    assert before + subsets[..0] == before;
    for i := 0 to |subsets|
      invariant Recorded(cat, seen, found, before + subsets[..i])
    {
      seen, found := RecordSubset(cat, seen, found, subsets[i], before + subsets[..i]);
      TakeSnoc(before, subsets, i);
    }
    assert subsets[..|subsets|] == subsets;
  }

  method RecordSubset(cat: Catalog, seen0: map<set<string>, ContextCombination>, found0: seq<ContextCombination>,
                      subset: seq<string>, ghost arms: seq<seq<string>>)
    returns (seen: map<set<string>, ContextCombination>, found: seq<ContextCombination>)
    requires Valid(cat) && Recorded(cat, seen0, found0, arms)
    ensures Recorded(cat, seen, found, arms + [subset])
  {
    seen, found := seen0, found0;
    var provided := Provided(cat, SetOf(subset));
    if provided != {} && provided !in seen {
      var combo := CombinationForDimensions(cat, ProvidedDimensions(cat, subset));
      ProvidedCombination(cat, subset);
      RecordNew(cat, seen, found, arms, subset, combo.value);
      seen := seen[provided := combo.value];
      found := found + [combo.value];
    } else {
      RecordAgain(cat, seen, found, arms, subset);
    }
  }

  lemma ProvidedCombination(cat: Catalog, arm: seq<string>)
    requires Valid(cat) && Provided(cat, SetOf(arm)) != {}
    ensures var c := CombinationForDimensions(cat, ProvidedDimensions(cat, arm));
            c.Some? && SetOf(c.value.dimensions) == Provided(cat, SetOf(arm)) && Canonical(cat, c.value.dimensions)
            && c.value == CombinationOf(c.value.dimensions)
            && CombinationIdFor(cat, ProvidedDimensions(cat, arm)) == Some(c.value.combinationId)
  {
    var provided := Provided(cat, SetOf(arm));
    RestrictSubset(cat.order, provided);
    SetOfEmpty(ProvidedDimensions(cat, arm));
    IdRoundTrip(cat, ProvidedDimensions(cat, arm));
  }

  lemma {:induction false} RecordNew(cat: Catalog, seen: map<set<string>, ContextCombination>,
                                     found: seq<ContextCombination>, arms: seq<seq<string>>, arm: seq<string>,
                                     combo: ContextCombination)
    requires Recorded(cat, seen, found, arms)
    requires Provided(cat, SetOf(arm)) != {} && Provided(cat, SetOf(arm)) !in seen
    requires SetOf(combo.dimensions) == Provided(cat, SetOf(arm)) && Canonical(cat, combo.dimensions)
    requires combo == CombinationOf(combo.dimensions)
    ensures Recorded(cat, seen[Provided(cat, SetOf(arm)) := combo], found + [combo], arms + [arm])
  {
    var provided := Provided(cat, SetOf(arm));
    var after := seen[provided := combo];
    assert combo !in seen.Values;
    assert combo !in found by { assert forall c :: c in found ==> c in SetOf(found); }
    DistinctConcat(found, [combo]);
    assert SetOf(found + [combo]) == SetOf(found) + {combo};
    assert after.Values == seen.Values + {combo} by {
      assert after[provided] == combo;
      forall c | c in seen.Values ensures c in after.Values {
        var dims :| dims in seen && seen[dims] == c;
        assert after[dims] == c;
      }
    }
    forall dims
      ensures dims in after <==> dims != {} && exists a :: a in arms + [arm] && Provided(cat, SetOf(a)) == dims
    {
      if dims in seen {
        var a :| a in arms && Provided(cat, SetOf(a)) == dims;
        assert a in arms + [arm];
      }
      assert arm in arms + [arm];
    }
  }

  lemma RecordAgain(cat: Catalog, seen: map<set<string>, ContextCombination>, found: seq<ContextCombination>,
                    arms: seq<seq<string>>, arm: seq<string>)
    requires Recorded(cat, seen, found, arms)
    requires Provided(cat, SetOf(arm)) == {} || Provided(cat, SetOf(arm)) in seen
    ensures Recorded(cat, seen, found, arms + [arm])
  {
    forall dims
      ensures dims in seen <==> dims != {} && exists a :: a in arms + [arm] && Provided(cat, SetOf(a)) == dims
    {
      if dims in seen {
        var a :| a in arms && Provided(cat, SetOf(a)) == dims;
        assert a in arms + [arm];
      }
    }
  }

  lemma RealizableIffSeen(cat: Catalog, available: seq<string>, seen: map<set<string>, ContextCombination>,
                          found: seq<ContextCombination>, arms: seq<seq<string>>)
    requires arms == Arms(available) && Recorded(cat, seen, found, arms)
    ensures forall dims :: Realizable(cat, available, dims) <==> dims in seen
    ensures forall dims :: dims in seen <==> exists c :: c in SetOf(found) && SetOf(c.dimensions) == dims
    ensures forall c :: c in SetOf(found) ==> Canonical(cat, c.dimensions) && c == CombinationOf(c.dimensions)
  {
    forall dims ensures Realizable(cat, available, dims) <==> dims in seen {
      if dims in seen {
        var arm :| arm in arms && Provided(cat, SetOf(arm)) == dims;
        ArmIsChosenSet(available, arm);
        assert Realizes(cat, available, dims, SetOf(arm));
      }
      if Realizable(cat, available, dims) {
        var chosen :| Realizes(cat, available, dims, chosen);
        ChosenSetIsArm(available, chosen);
      }
    }
    forall dims ensures dims in seen <==> exists c :: c in SetOf(found) && SetOf(c.dimensions) == dims {
      if dims in seen {
        assert seen[dims] in seen.Values;
      }
    }
  }

  /** A requested combination resolves EXACT precisely when it is in the realizable list. */
  lemma ExactIffRealizable(cat: Catalog, combo: ContextCombination, available: seq<string>)
    requires combo.dimensions != []
    ensures Resolve(cat, combo, available).status == Exact <==> Realizable(cat, available, SetOf(combo.dimensions))
  {
    ExactIffRealized(cat, combo, available);
    SetOfEmpty(combo.dimensions);
  }

  // ---------------------------------------------------------------------
  // Two conditions, one arm

  /** With one architecture available every condition that resolves at all resolves to it. */
  lemma OnlyArm(cat: Catalog, combo: ContextCombination, only: string)
    requires Resolve(cat, combo, [only]).status != Unrealizable
    ensures Resolve(cat, combo, [only]).architectures == Some([only])
  {
    ResolvedArmIsOptimal(cat, combo, [only], {});
    var arm := Resolve(cat, combo, [only]).architectures.value;
    assert SetOf([only]) == {only};
    assert SetOf(arm) == {only};
    assert SortedSet([only]) == [only] by { assert [only][1..] == [] && SortedSet([]) == []; }
    assert ArmOf([only], {only}) == [only] by { assert [only][1..] == [] && Restrict([], {only}) == []; }
  }

  lemma SingletonChoice(only: string, chosen: set<string>)
    requires chosen != {} && chosen <= SetOf([only])
    ensures chosen == {only}
  {
    var x :| x in chosen;
    assert x in SetOf([only]) && only in chosen;
  }

  /**
   A condition that is exactly what the one architecture provides is exact, a smaller one overshoots, both
   through it.
   */
  lemma OneArmTwoStatuses(cat: Catalog, only: string, exact: ContextCombination, over: ContextCombination)
    requires SetOf(exact.dimensions) == Provided(cat, {only}) && SetOf(over.dimensions) < Provided(cat, {only})
    ensures Resolve(cat, exact, [only]).status == Exact && Resolve(cat, over, [only]).status == Overshoot
    ensures Resolve(cat, exact, [only]).architectures == Resolve(cat, over, [only]).architectures
  {
    assert SetOf([only]) == {only};
    ExactIffRealized(cat, exact, [only]);
    assert Realizes(cat, [only], SetOf(exact.dimensions), {only});
    ExactIffRealized(cat, over, [only]);
    UnrealizableIffUncovered(cat, over, [only]);
    forall chosen ensures !Realizes(cat, [only], SetOf(over.dimensions), chosen) {
      if chosen != {} && chosen <= SetOf([only]) {
        SingletonChoice(only, chosen);
      }
    }
    OnlyArm(cat, exact, only);
    OnlyArm(cat, over, only);
  }

  /**
   On the shipped table the knowledge graph alone realizes C2+C3+C6 exactly and C3 by overshoot, through the
   same arm.
   */
  lemma {:induction false} TwoConditionsOneArm(exact: ContextCombination, over: ContextCombination)
    requires exact == CombinationOf(["C2", "C3", "C6"]) && over == CombinationOf(["C3"])
    ensures Resolve(ICAB, exact, ["knowledge_graph"]).status == Exact
    ensures Resolve(ICAB, over, ["knowledge_graph"]).status == Overshoot
    ensures Resolve(ICAB, exact, ["knowledge_graph"]).architectures
         == Resolve(ICAB, over, ["knowledge_graph"]).architectures
  {
    KnowledgeGraphProvides();
    assert SetOf(exact.dimensions) == {"C2", "C3", "C6"};
    assert SetOf(over.dimensions) == {"C3"} && "C2" !in SetOf(over.dimensions);
    OneArmTwoStatuses(ICAB, "knowledge_graph", exact, over);
  }

  lemma KnowledgeGraphProvides()
    ensures Provided(ICAB, {"knowledge_graph"}) == {"C2", "C3", "C6"}
  {
    var kg := {"knowledge_graph"};
    forall d | d in ICAB.order
      ensures d in Provided(ICAB, kg) <==> d in {"C2", "C3", "C6"}
    {
      assert d in {"C1", "C2", "C3", "C4", "C5", "C6", "C7"};
      assert ICAB.supports[d] * kg != {} <==> "knowledge_graph" in ICAB.supports[d];
    }
    assert "C2" in ICAB.order && "C3" in ICAB.order && "C6" in ICAB.order by {
      assert ICAB.order[1] == "C2" && ICAB.order[2] == "C3" && ICAB.order[5] == "C6";
    }
  }
}
