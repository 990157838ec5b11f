/**
 The space of context combinations over any list of distinct dimensions, and
 what an architecture arm provides. ICAB's own seven dimensions are one instance.
 */
module ContextSpace {
  import opened Basics
  import opened Text

  /** Canonical dimension order, and which architectures support each dimension. */
  datatype Catalog = Catalog(order: seq<string>, supports: map<string, set<string>>)

  ghost predicate Valid(cat: Catalog) {
    && Distinct(cat.order)
    && cat.supports.Keys == SetOf(cat.order)
    && forall d :: d in cat.order ==> '+' !in d
  }

  datatype ContextCombination = ContextCombination(combinationId: string, dimensions: seq<string>, cardinality: nat)

  // ---------------------------------------------------------------------
  // itertools.combinations

  function Prepend(x: string, tails: seq<seq<string>>): (all: seq<seq<string>>)
    ensures |all| == |tails|
  {
    if tails == [] then [] else [[x] + tails[0]] + Prepend(x, tails[1..])
  }

  lemma {:induction false} PrependAt(x: string, tails: seq<seq<string>>, i: nat)
    requires i < |tails|
    ensures Prepend(x, tails)[i] == [x] + tails[i]
  {
    if i > 0 {
      PrependAt(x, tails[1..], i - 1);
    }
  }

  /** Every way to pick `r` elements of `xs`, in index order. */
  function Combinations(xs: seq<string>, r: nat): seq<seq<string>>
    decreases |xs|
  {
    if r == 0 then [[]]
    else if xs == [] then []
    else Prepend(xs[0], Combinations(xs[1..], r - 1)) + Combinations(xs[1..], r)
  }

  /** The picks of size 1, then 2, up to `upTo`. */
  function Picks(xs: seq<string>, upTo: nat): seq<seq<string>>
    decreases upTo
  {
    if upTo == 0 then [] else Picks(xs, upTo - 1) + Combinations(xs, upTo)
  }

  /** The elements of `xs` that lie in `keep`, in the order of `xs`. */
  function Restrict(xs: seq<string>, keep: set<string>): seq<string> {
    if xs == [] then []
    else if xs[0] in keep then [xs[0]] + Restrict(xs[1..], keep)
    else Restrict(xs[1..], keep)
  }

  lemma {:induction false} RestrictMembers(xs: seq<string>, keep: set<string>)
    ensures SetOf(Restrict(xs, keep)) == SetOf(xs) * keep
  {
    if xs != [] {
      RestrictMembers(xs[1..], keep);
      assert xs == [xs[0]] + xs[1..];
      assert SetOf(xs) == {xs[0]} + SetOf(xs[1..]);
      if xs[0] in keep {
        var tail := Restrict(xs[1..], keep);
        assert SetOf([xs[0]] + tail) == {xs[0]} + SetOf(tail);
      }
    }
  }

  lemma {:induction false} RestrictDistinct(xs: seq<string>, keep: set<string>)
    requires Distinct(xs)
    ensures Distinct(Restrict(xs, keep))
  {
    if xs != [] {
      DistinctTail(xs);
      RestrictDistinct(xs[1..], keep);
      RestrictMembers(xs[1..], keep);
      var tail := Restrict(xs[1..], keep);
      assert xs[0] !in SetOf(tail);
      DistinctCons(xs[0], tail);
    }
  }

  lemma RestrictFacts(xs: seq<string>, keep: set<string>)
    ensures SetOf(Restrict(xs, keep)) == SetOf(xs) * keep
    ensures Distinct(xs) ==> Distinct(Restrict(xs, keep)) && |Restrict(xs, keep)| == |SetOf(xs) * keep|
  {
    RestrictMembers(xs, keep);
    if Distinct(xs) {
      RestrictDistinct(xs, keep);
      SetOfSize(Restrict(xs, keep));
    }
  }

  lemma RestrictSubset(order: seq<string>, dims: set<string>)
    requires dims <= SetOf(order)
    ensures SetOf(Restrict(order, dims)) == dims
  {
    RestrictMembers(order, dims);
    assert SetOf(order) * dims == dims;
  }

  lemma {:induction false} RestrictAgree(xs: seq<string>, a: set<string>, b: set<string>)
    requires SetOf(xs) * a == SetOf(xs) * b
    ensures Restrict(xs, a) == Restrict(xs, b)
  {
    if xs != [] {
      assert forall x :: x in xs
               ==> x in SetOf(xs) && (x in a <==> x in SetOf(xs) * a) && (x in b <==> x in SetOf(xs) * b);
      assert SetOf(xs[1..]) * a == SetOf(xs[1..]) * b;
      RestrictAgree(xs[1..], a, b);
    }
  }

  lemma RestrictCons(xs: seq<string>, c: seq<string>)
    requires Distinct(xs) && xs != []
    ensures c != [] && c[0] == xs[0] ==>
              (c == Restrict(xs, SetOf(c)) <==> c[1..] == Restrict(xs[1..], SetOf(c[1..])))
    ensures xs[0] !in c ==> Restrict(xs, SetOf(c)) == Restrict(xs[1..], SetOf(c))
    ensures xs[0] in c && c[0] != xs[0] ==> c != Restrict(xs, SetOf(c))
  {
    var x, rest := xs[0], xs[1..];
    DistinctTail(xs);
    if c != [] && c[0] == x {
      assert c == [x] + c[1..];
      assert SetOf(c) == {x} + SetOf(c[1..]);
      assert SetOf(rest) * SetOf(c) == SetOf(rest) * SetOf(c[1..]);
      RestrictAgree(rest, SetOf(c), SetOf(c[1..]));
    }
  }

  lemma RestrictOmits(xs: seq<string>, c: seq<string>, x: string)
    requires x !in xs
    ensures c == Restrict(xs, SetOf(c)) ==> x !in c
  {
    RestrictFacts(xs, SetOf(c));
    assert x in c <==> x in SetOf(c);
  }

  /** A list is a pick of size `r` exactly when it is `r` elements of `xs` in their order. */
  lemma {:induction false} CombinationsMembers(xs: seq<string>, r: nat, c: seq<string>)
    requires Distinct(xs)
    ensures c in Combinations(xs, r) <==> |c| == r && c == Restrict(xs, SetOf(c))
    decreases |xs|
  {
    if r == 0 {
      RestrictFacts(xs, {});
      SetOfEmpty(Restrict(xs, {}));
      assert SetOf<string>([]) == {};
    } else if xs != [] {
      var x, rest := xs[0], xs[1..];
      DistinctTail(xs);
      var first := Prepend(x, Combinations(rest, r - 1));
      assert c in Combinations(xs, r) <==> c in first || c in Combinations(rest, r) by {
        assert Combinations(xs, r) == first + Combinations(rest, r);
      }
      assert c in first <==> c != [] && c[0] == x && c[1..] in Combinations(rest, r - 1) by {
        PrependMembers(x, Combinations(rest, r - 1), c);
      }
      assert c in Combinations(rest, r) <==> |c| == r && c == Restrict(rest, SetOf(c)) by {
        CombinationsMembers(rest, r, c);
      }
      RestrictOmits(rest, c, x);
      if c != [] && c[0] == x {
        assert c[1..] in Combinations(rest, r - 1) <==> |c| == r && c[1..] == Restrict(rest, SetOf(c[1..])) by {
          CombinationsMembers(rest, r - 1, c[1..]);
        }
        RestrictCons(xs, c);
      } else {
        RestrictCons(xs, c);
      }
    }
  }

  lemma {:induction false} PrependMembers(x: string, tails: seq<seq<string>>, c: seq<string>)
    ensures c in Prepend(x, tails) <==> c != [] && c[0] == x && c[1..] in tails
  {
    if tails != [] {
      PrependMembers(x, tails[1..], c);
      assert tails == [tails[0]] + tails[1..];
      if c != [] && c[0] == x { assert c == [x] + c[1..]; }
    }
  }

  lemma PrependDistinct(x: string, tails: seq<seq<string>>)
    requires Distinct(tails)
    ensures Distinct(Prepend(x, tails))
  {
    var all := Prepend(x, tails);
    forall i, j | 0 <= i < j < |all| ensures all[i] != all[j] {
      PrependAt(x, tails, i);
      PrependAt(x, tails, j);
      assert all[i][1..] == tails[i] && all[j][1..] == tails[j];
    }
  }

  lemma {:induction false} CombinationsDistinct(xs: seq<string>, r: nat)
    requires Distinct(xs)
    ensures Distinct(Combinations(xs, r))
    decreases |xs|
  {
    if r > 0 && xs != [] {
      var x, rest := xs[0], xs[1..];
      DistinctTail(xs);
      var a, b := Combinations(rest, r - 1), Combinations(rest, r);
      CombinationsDistinct(rest, r - 1);
      PrependDistinct(x, a);
      CombinationsDistinct(rest, r);
      forall c | c in Prepend(x, a) ensures c !in b {
        PrependMembers(x, a, c);
        CombinationsMembers(rest, r, c);
        RestrictOmits(rest, c, x);
      }
      DistinctConcat(Prepend(x, a), b);
    }
  }

  lemma {:induction false} PicksMembers(xs: seq<string>, upTo: nat, c: seq<string>)
    requires Distinct(xs)
    ensures c in Picks(xs, upTo) <==> 1 <= |c| <= upTo && c == Restrict(xs, SetOf(c))
  {
    if upTo > 0 {
      PicksMembers(xs, upTo - 1, c);
      CombinationsMembers(xs, upTo, c);
    }
  }

  /** Smaller picks come first, and none is repeated. */
  lemma {:induction false} PicksOrdered(xs: seq<string>, upTo: nat)
    requires Distinct(xs)
    ensures Distinct(Picks(xs, upTo))
    ensures forall i, j :: 0 <= i < j < |Picks(xs, upTo)| ==> |Picks(xs, upTo)[i]| <= |Picks(xs, upTo)[j]|
  {
    if upTo > 0 {
      PicksOrdered(xs, upTo - 1);
      CombinationsDistinct(xs, upTo);
      var a, b := Picks(xs, upTo - 1), Combinations(xs, upTo);
      forall i | 0 <= i < |a| ensures |a[i]| < upTo { PicksMembers(xs, upTo - 1, a[i]); }
      forall j | 0 <= j < |b| ensures |b[j]| == upTo { CombinationsMembers(xs, upTo, b[j]); }
      assert Picks(xs, upTo) == a + b;
    }
  }

  function Pow2(n: nat): nat {
    if n == 0 then 1 else 2 * Pow2(n - 1)
  }

  lemma CombinationsSize(xs: seq<string>, r: nat)
    requires xs != []
    ensures |Combinations(xs, r + 1)| == |Combinations(xs[1..], r)| + |Combinations(xs[1..], r + 1)|
  {
  }

  lemma PicksSize(xs: seq<string>, upTo: nat)
    ensures |Picks(xs, upTo + 1)| == |Picks(xs, upTo)| + |Combinations(xs, upTo + 1)|
  {
  }

  lemma {:induction false} PicksRecurrence(xs: seq<string>, upTo: nat)
    requires xs != []
    ensures |Picks(xs, upTo + 1)| == 1 + |Picks(xs[1..], upTo)| + |Picks(xs[1..], upTo + 1)|
  {
    PicksSize(xs, upTo);
    PicksSize(xs[1..], upTo);
    CombinationsSize(xs, upTo);
    if upTo > 0 {
      PicksRecurrence(xs, upTo - 1);
      PicksSize(xs[1..], upTo - 1);
    }
  }

  lemma {:induction false} PicksOfNothing(upTo: nat)
    ensures Picks([], upTo) == []
  {
    if upTo > 0 {
      PicksOfNothing(upTo - 1);
    }
  }

  lemma {:induction false} PicksCount(xs: seq<string>, upTo: nat)
    requires |xs| <= upTo
    ensures |Picks(xs, upTo)| + 1 == Pow2(|xs|)
    decreases |xs|
  {
    if xs == [] {
      PicksOfNothing(upTo);
    } else {
      var rest, n := xs[1..], upTo - 1;
      assert |Picks(xs, upTo)| == 1 + |Picks(rest, n)| + |Picks(rest, upTo)| by { PicksRecurrence(xs, n); }
      assert |Picks(rest, n)| + 1 == Pow2(|rest|) by { PicksCount(rest, n); }
      assert |Picks(rest, upTo)| + 1 == Pow2(|rest|) by { PicksCount(rest, upTo); }
      assert Pow2(|xs|) == 2 * Pow2(|rest|);
    }
  }

  // ---------------------------------------------------------------------
  // Combination ids

  function CombinationOf(dims: seq<string>): ContextCombination {
    ContextCombination(Join('+', dims), dims, |dims|)
  }

  function CombinationList(picks: seq<seq<string>>): (all: seq<ContextCombination>)
    ensures |all| == |picks|
  {
    if picks == [] then [] else CombinationList(picks[..|picks| - 1]) + [CombinationOf(picks[|picks| - 1])]
  }

  lemma {:induction false} CombinationListAt(picks: seq<seq<string>>, i: nat)
    requires i < |picks|
    ensures CombinationList(picks)[i] == CombinationOf(picks[i])
  {
    if i < |picks| - 1 {
      CombinationListAt(picks[..|picks| - 1], i);
    }
  }

  /** `ALL_CONTEXT_COMBINATIONS`. */
  function AllCombinations(cat: Catalog): seq<ContextCombination> {
    CombinationList(Picks(cat.order, |cat.order|))
  }

  lemma CombinationListSnoc(picks: seq<seq<string>>, last: seq<string>)
    ensures CombinationList(picks + [last]) == CombinationList(picks) + [CombinationOf(last)]
  {
    assert (picks + [last])[..|picks|] == picks;
  }

  /** The enumeration as written: cardinality by cardinality, appending as it goes. */
  method AllContextCombinations(cat: Catalog) returns (combos: seq<ContextCombination>)
    ensures combos == AllCombinations(cat)
  {
    combos := [];
    var r := 1;
    while r <= |cat.order|
      invariant 1 <= r <= |cat.order| + 1
      invariant combos == CombinationList(Picks(cat.order, r - 1))
    {
      combos := AppendCombinations(combos, Combinations(cat.order, r), Picks(cat.order, r - 1));
      r := r + 1;
    }
  }

  /** The inner loop, over one cardinality. */
  method AppendCombinations(combos0: seq<ContextCombination>, picks: seq<seq<string>>, ghost before: seq<seq<string>>)
    returns (combos: seq<ContextCombination>)
    requires combos0 == CombinationList(before)
    ensures combos == CombinationList(before + picks)
  {
    combos := combos0;
    assert before + picks[..0] == before;
    for i := 0 to |picks|
      invariant combos == CombinationList(before + picks[..i])
    {
      CombinationListSnoc(before + picks[..i], picks[i]);
      TakeSnoc(before, picks, i);
      combos := combos + [CombinationOf(picks[i])];
    }
    assert picks[..|picks|] == picks;
  }

  /** `_BY_ID`: later entries win. */
  function Index(combos: seq<ContextCombination>): map<string, ContextCombination> {
    if combos == [] then map[]
    else Index(combos[..|combos| - 1])[combos[|combos| - 1].combinationId := combos[|combos| - 1]]
  }

  function CombinationForId(cat: Catalog, id: string): Option<ContextCombination> {
    var byId := Index(AllCombinations(cat));
    if id in byId then Some(byId[id]) else None
  }

  /** `combination_id_for`; `None` is the rejected empty input. */
  function CombinationIdFor(cat: Catalog, dims: seq<string>): Option<string> {
    var ordered := Restrict(cat.order, SetOf(dims));
    if ordered == [] then None else Some(Join('+', ordered))
  }

  function CombinationForDimensions(cat: Catalog, dims: seq<string>): Option<ContextCombination> {
    match CombinationIdFor(cat, dims)
    case None => None
    case Some(id) => CombinationForId(cat, id)
  }

  lemma {:induction false} IndexFacts(combos: seq<ContextCombination>)
    ensures forall id :: id in Index(combos) ==> Index(combos)[id] in combos && Index(combos)[id].combinationId == id
    ensures forall c :: c in combos ==> c.combinationId in Index(combos)
  {
    if combos != [] {
      IndexFacts(combos[..|combos| - 1]);
      assert combos == combos[..|combos| - 1] + [combos[|combos| - 1]];
    }
  }

  ghost predicate Canonical(cat: Catalog, dims: seq<string>) {
    dims != [] && dims == Restrict(cat.order, SetOf(dims))
  }

  lemma {:induction false} CombinationListMembers(picks: seq<seq<string>>, c: ContextCombination)
    ensures c in CombinationList(picks) <==> c.dimensions in picks && c == CombinationOf(c.dimensions)
  {
    if picks != [] {
      CombinationListMembers(picks[..|picks| - 1], c);
      assert picks == picks[..|picks| - 1] + [picks[|picks| - 1]];
    }
  }

  lemma AllCombinationsMembers(cat: Catalog, c: ContextCombination)
    requires Valid(cat)
    ensures c in AllCombinations(cat) <==> Canonical(cat, c.dimensions) && c == CombinationOf(c.dimensions)
  {
    CombinationListMembers(Picks(cat.order, |cat.order|), c);
    PicksMembers(cat.order, |cat.order|, c.dimensions);
    RestrictFacts(cat.order, SetOf(c.dimensions));
    SetOfSize(cat.order);
    SubsetSize(SetOf(cat.order) * SetOf(c.dimensions), SetOf(cat.order));
  }

  /** Every non-empty subset of the dimensions appears once, smaller ones first: 2^n - 1 in all. */
  lemma EnumerationComplete(cat: Catalog)
    requires Valid(cat)
    ensures |AllCombinations(cat)| + 1 == Pow2(|cat.order|)
    ensures Distinct(AllCombinations(cat))
    ensures forall i, j :: 0 <= i < j < |AllCombinations(cat)|
              ==> AllCombinations(cat)[i].cardinality <= AllCombinations(cat)[j].cardinality
    ensures forall dims: set<string> :: dims != {} && dims <= SetOf(cat.order)
              ==> exists c :: c in AllCombinations(cat) && SetOf(c.dimensions) == dims && c.cardinality == |dims|
  {
    var picks := Picks(cat.order, |cat.order|);
    PicksCount(cat.order, |cat.order|);
    PicksOrdered(cat.order, |cat.order|);
    var all := AllCombinations(cat);
    forall i, j | 0 <= i < j < |all| ensures all[i] != all[j] && all[i].cardinality <= all[j].cardinality {
      CombinationListAt(picks, i);
      CombinationListAt(picks, j);
    }
    forall dims: set<string> | dims != {} && dims <= SetOf(cat.order)
      ensures exists c :: c in all && SetOf(c.dimensions) == dims && c.cardinality == |dims|
    {
      RestrictFacts(cat.order, dims);
      assert SetOf(cat.order) * dims == dims;
      var c := CombinationOf(Restrict(cat.order, dims));
      AllCombinationsMembers(cat, c);
      assert SetOf(c.dimensions) == dims;
      SetOfEmpty(c.dimensions);
      assert c in all;
    }
  }

  /** Looking an id up gives the combination it was made from, and nothing else has that id. */
  lemma LookupInvertsId(cat: Catalog, dims: seq<string>)
    requires Valid(cat) && Canonical(cat, dims)
    ensures CombinationForId(cat, Join('+', dims)) == Some(CombinationOf(dims))
  {
    var c := CombinationOf(dims);
    AllCombinationsMembers(cat, c);
    IndexFacts(AllCombinations(cat));
    var found := Index(AllCombinations(cat))[Join('+', dims)];
    AllCombinationsMembers(cat, found);
    assert forall d :: d in dims ==> d in SetOf(dims);
    assert forall d :: d in found.dimensions ==> d in SetOf(found.dimensions);
    RestrictFacts(cat.order, SetOf(dims));
    RestrictFacts(cat.order, SetOf(found.dimensions));
    JoinInjective('+', found.dimensions, dims);
  }

  /** Whatever the order and the repetitions of the input, its id names its set of dimensions. */
  lemma IdRoundTrip(cat: Catalog, dims: seq<string>)
    requires Valid(cat) && dims != [] && SetOf(dims) <= SetOf(cat.order)
    ensures CombinationIdFor(cat, dims).Some?
    ensures var c := CombinationForDimensions(cat, dims);
            c.Some? && SetOf(c.value.dimensions) == SetOf(dims) && Canonical(cat, c.value.dimensions)
            && c.value == CombinationOf(c.value.dimensions)
            && CombinationIdFor(cat, dims) == Some(c.value.combinationId)
  {
    var ordered := Restrict(cat.order, SetOf(dims));
    RestrictFacts(cat.order, SetOf(dims));
    assert dims[0] in SetOf(dims) && SetOf(cat.order) * SetOf(dims) == SetOf(dims);
    assert SetOf(ordered) == SetOf(dims);
    SetOfEmpty(ordered);
    LookupInvertsId(cat, ordered);
  }

  /** Two inputs get the same id exactly when they list the same dimensions. */
  lemma SameIdIffSameSet(cat: Catalog, a: seq<string>, b: seq<string>)
    requires Valid(cat) && a != [] && b != []
    requires SetOf(a) <= SetOf(cat.order) && SetOf(b) <= SetOf(cat.order)
    ensures CombinationIdFor(cat, a) == CombinationIdFor(cat, b) <==> SetOf(a) == SetOf(b)
  {
    IdRoundTrip(cat, a);
    IdRoundTrip(cat, b);
  }

  // ---------------------------------------------------------------------
  // What an arm provides

  function Provided(cat: Catalog, archs: set<string>): set<string> {
    set d | d in cat.order && d in cat.supports && cat.supports[d] * archs != {}
  }

  /** `provided_dimensions`: in canonical order. */
  function ProvidedDimensions(cat: Catalog, archs: seq<string>): seq<string> {
    Restrict(cat.order, Provided(cat, SetOf(archs)))
  }

  /** Using two arms together provides exactly what they provide separately. */
  lemma ProvidedUnion(cat: Catalog, a: set<string>, b: set<string>)
    ensures Provided(cat, a + b) == Provided(cat, a) + Provided(cat, b)
  {
    forall d | d in cat.order && d in cat.supports
      ensures cat.supports[d] * (a + b) != {} <==> cat.supports[d] * a != {} || cat.supports[d] * b != {}
    {
      assert cat.supports[d] * (a + b) == cat.supports[d] * a + cat.supports[d] * b;
    }
  }

  lemma NothingProvidesNothing(cat: Catalog)
    ensures Provided(cat, {}) == {}
  {
  }

  lemma ProvidedMonotone(cat: Catalog, a: set<string>, b: set<string>)
    requires a <= b
    ensures Provided(cat, a) <= Provided(cat, b)
  {
    ProvidedUnion(cat, a, b);
    assert a + b == b;
  }

  const ICAB := Catalog(
    ["C1", "C2", "C3", "C4", "C5", "C6", "C7"],
    map["C1" := {"uns", "i3x"},
        "C2" := {"uns", "opcua", "i3x", "knowledge_graph"},
        "C3" := {"knowledge_graph", "i3x"},
        "C4" := {"historian", "i3x"},
        "C5" := {"historian", "mqtt", "opcua", "i3x"},
        "C6" := {"knowledge_graph", "i3x"},
        "C7" := {"historian", "i3x"}])

  lemma IcabCatalogIsValid()
    ensures Valid(ICAB) && |ICAB.order| == 7
  {
    assert Distinct(ICAB.order);
    forall d | d in ICAB.order ensures '+' !in d {
      assert d in {"C1", "C2", "C3", "C4", "C5", "C6", "C7"};
    }
    assert SetOf(ICAB.order) == {"C1", "C2", "C3", "C4", "C5", "C6", "C7"};
  }

  /** ICAB's own seven dimensions span 127 combinations. */
  lemma SevenDimensionsGive127(cat: Catalog)
    requires Valid(cat) && |cat.order| == 7
    ensures |AllCombinations(cat)| == 127
  {
    EnumerationComplete(cat);
    assert Pow2(3) == 8 && Pow2(5) == 4 * Pow2(3) && Pow2(7) == 4 * Pow2(5);
  }
}
