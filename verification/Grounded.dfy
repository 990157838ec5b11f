/**
 `GroundedInvestigationEvaluator._evaluate`: the scores that depend on the recorded
 trace. Text matching and the numbers found in texts are given.
 */
module Grounded {
  import opened Basics

  /** A tool result. */
  datatype Json =
    | Null | Bool(flag: bool) | Num(number: real) | Str(text: string) | Obj(fields: Fields) | Arr(items: Items)

  datatype Fields = NoFields | Field(key: string, value: Json, rest: Fields)

  datatype Items = NoItems | Item(head: Json, tail: Items)

  datatype Event = Event(tool: string, result: Json)

  const VALUE_BEARING_TOOLS := {"get_current_value", "get_historical_values", "i3x_get_value", "i3x_get_history"}
  const RELATIONSHIP_TOOLS := {"get_entity_relationships"}

  function Find(fields: Fields, key: string): Json {
    match fields
    case NoFields => Null
    case Field(k, value, rest) => if k == key then value else Find(rest, key)
  }

  /** `value.get(key)`; a value that is no object has nothing. */
  function Get(value: Json, key: string): Json {
    if value.Obj? then Find(value.fields, key) else Null
  }

  function ItemsOf(value: Json): Items {
    if value.Arr? then value.items else NoItems
  }

  function TextOf(value: Json): string {
    if value.Str? then value.text else ""
  }

  // ---------------------------------------------------------------------
  // Retrieved values

  function NonEmpty(id: string): set<string> {
    if id == "" then {} else {id}
  }

  function ObservationIds(items: Items): set<string> {
    match items
    case NoItems => {}
    case Item(head, tail) => NonEmpty(TextOf(Get(head, "measurement_id"))) + ObservationIds(tail)
  }

  /** The identifiers one event retrieved a value for. */
  function RetrievedBy(e: Event): set<string> {
    if e.tool !in VALUE_BEARING_TOOLS then {}
    else
      NonEmpty(TextOf(Get(Get(e.result, "observation"), "measurement_id")))
      + ObservationIds(ItemsOf(Get(e.result, "observations")))
      + NonEmpty(TextOf(Get(e.result, "element_id")))
  }

  function RetrievedIds(trace: seq<Event>): set<string> {
    if trace == [] then {} else RetrievedIds(trace[..|trace| - 1]) + RetrievedBy(trace[|trace| - 1])
  }

  // ---------------------------------------------------------------------
  // Relationships

  datatype Triple = Triple(subject: string, predicate_: string, object_: string)

  /** Without a generation id every matching relationship confirms. */
  predicate Confirms(relationship: Json, t: Triple, generation: Option<string>) {
    && Get(relationship, "subject") == Str(t.subject)
    && Get(relationship, "predicate") == Str(t.predicate_)
    && Get(relationship, "object") == Str(t.object_)
    && (generation.None? || Get(relationship, "generation_id") == Str(generation.value))
  }

  predicate AnyConfirms(items: Items, t: Triple, generation: Option<string>) {
    match items
    case NoItems => false
    case Item(head, tail) => Confirms(head, t, generation) || AnyConfirms(tail, t, generation)
  }

  predicate ConfirmedBy(e: Event, t: Triple, generation: Option<string>) {
    e.tool in RELATIONSHIP_TOOLS && AnyConfirms(ItemsOf(Get(e.result, "relationships")), t, generation)
  }

  predicate Confirmed(trace: seq<Event>, t: Triple, generation: Option<string>) {
    trace != [] && (Confirmed(trace[..|trace| - 1], t, generation) || ConfirmedBy(trace[|trace| - 1], t, generation))
  }

  function ConfirmedCount(trace: seq<Event>, expected: seq<Triple>, generation: Option<string>): nat {
    if expected == [] then 0
    else
      ConfirmedCount(trace, expected[..|expected| - 1], generation)
      + (if Confirmed(trace, expected[|expected| - 1], generation) then 1 else 0)
  }

  // ---------------------------------------------------------------------
  // Observed numbers

  function Numbers(value: Json): seq<real> {
    match value
    case Num(number) => [number]
    case Obj(fields) => NumbersInFields(fields)
    case Arr(items) => NumbersInItems(items)
    case _ => []
  }

  function NumbersInFields(fields: Fields): seq<real> {
    match fields
    case NoFields => []
    case Field(_, value, rest) => Numbers(value) + NumbersInFields(rest)
  }

  function NumbersInItems(items: Items): seq<real> {
    match items
    case NoItems => []
    case Item(head, tail) => Numbers(head) + NumbersInItems(tail)
  }

  function ObservedNumbers(trace: seq<Event>): seq<real> {
    if trace == [] then [] else ObservedNumbers(trace[..|trace| - 1]) + Numbers(trace[|trace| - 1].result)
  }

  function Abs(x: real): real {
    if x < 0.0 then -x else x
  }

  function Tolerance(number: real): real {
    var scaled := Abs(number) * 0.02;
    if scaled > 1.0 then scaled else 1.0
  }

  predicate Supported(number: real, observed: seq<real>) {
    exists v :: v in observed && Abs(number - v) <= Tolerance(number)
  }

  function UnsupportedCount(numbers: seq<real>, observed: seq<real>): (n: nat)
    ensures n <= |numbers|
  {
    if numbers == [] then 0
    else UnsupportedCount(numbers[..|numbers| - 1], observed)
         + (if Supported(numbers[|numbers| - 1], observed) then 0 else 1)
  }

  // ---------------------------------------------------------------------
  // Scores

  /** An empty set of checks is vacuously satisfied. */
  function Ratio(hits: nat, checks: nat): real {
    if checks == 0 then 1.0 else hits as real / checks as real
  }

  lemma RatioBounds(hits: nat, checks: nat)
    requires hits <= checks
    ensures 0.0 <= Ratio(hits, checks) <= 1.0
  {
    if checks > 0 {
      DivideBounds(hits as real, checks as real, 0.0, 1.0);
    }
  }

  lemma RatioMonotone(fewer: nat, more: nat, checks: nat)
    requires fewer <= more
    ensures Ratio(fewer, checks) <= Ratio(more, checks)
  {
    if checks > 0 {
      var n, low := checks as real, fewer as real / checks as real;
      TimesQuotient(fewer as real, n);
      DivideBounds(more as real, n, low, (more as real / n));
    }
  }

  /** What an evaluation is given besides the trace. */
  datatype Case = Case(
    expectedEvidence: seq<string>,
    assertedIds: set<string>,
    mentioned: set<string>,
    expectedRelationships: seq<Triple>,
    objectiveNumbers: seq<real>,
    conclusionNumbers: seq<real>,
    terminatedProperly: bool)

  /** `mentioned` holds the expected items whose text occurs in the objective or the conclusion. */
  function Hits(c: Case, retrieved: set<string>): set<string> {
    set item | item in c.expectedEvidence && (item in retrieved || item in c.assertedIds || item in c.mentioned)
  }

  function EvidenceScore(c: Case, trace: seq<Event>): real {
    Ratio(|Hits(c, RetrievedIds(trace))|, |SetOf(c.expectedEvidence)|)
  }

  function RelationshipScore(c: Case, trace: seq<Event>, generation: Option<string>): real {
    Ratio(ConfirmedCount(trace, c.expectedRelationships, generation), |c.expectedRelationships|)
  }

  function GroundingScore(c: Case, trace: seq<Event>): real {
    if c.conclusionNumbers == [] then 1.0
    else 1.0 - UnsupportedCount(c.conclusionNumbers,
                                ObservedNumbers(trace) + c.objectiveNumbers) as real / |c.conclusionNumbers| as real
  }

  function CompletenessScore(c: Case, trace: seq<Event>, generation: Option<string>): real {
    (EvidenceScore(c, trace) + RelationshipScore(c, trace, generation)
     + (if c.terminatedProperly then 1.0 else 0.0)) / 3.0
  }

  /** Root cause and affected assets, each part only if there is something to check. */
  function ConclusionScore(rootCause: Option<bool>, assets: set<string>, mentionedAssets: set<string>): real {
    var part := if rootCause == Some(true) then 1.0 else 0.0;
    if rootCause.Some? && assets != {} then (part + Ratio(|assets * mentionedAssets|, |assets|)) / 2.0
    else if rootCause.Some? then part
    else Ratio(|assets * mentionedAssets|, |assets|)
  }

  datatype Scores = Scores(evidence: real, relationship: real, grounding: real, completeness: real)

  function ScoresOf(c: Case, trace: seq<Event>, generation: Option<string>): Scores {
    Scores(EvidenceScore(c, trace), RelationshipScore(c, trace, generation), GroundingScore(c, trace),
           CompletenessScore(c, trace, generation))
  }

  predicate InUnit(x: real) {
    0.0 <= x <= 1.0
  }

  lemma HitsAreExpected(c: Case, retrieved: set<string>)
    ensures |Hits(c, retrieved)| <= |SetOf(c.expectedEvidence)|
  {
    SubsetSize(Hits(c, retrieved), SetOf(c.expectedEvidence));
  }

  lemma {:induction false} ConfirmedCountBound(trace: seq<Event>, expected: seq<Triple>, generation: Option<string>)
    ensures ConfirmedCount(trace, expected, generation) <= |expected|
  {
    if expected != [] {
      ConfirmedCountBound(trace, expected[..|expected| - 1], generation);
    }
  }

  lemma ScoresInUnit(c: Case, trace: seq<Event>, generation: Option<string>)
    ensures var s := ScoresOf(c, trace, generation);
            InUnit(s.evidence) && InUnit(s.relationship) && InUnit(s.grounding) && InUnit(s.completeness)
  {
    HitsAreExpected(c, RetrievedIds(trace));
    RatioBounds(|Hits(c, RetrievedIds(trace))|, |SetOf(c.expectedEvidence)|);
    ConfirmedCountBound(trace, c.expectedRelationships, generation);
    RatioBounds(ConfirmedCount(trace, c.expectedRelationships, generation), |c.expectedRelationships|);
    RatioBounds(UnsupportedCount(c.conclusionNumbers, ObservedNumbers(trace) + c.objectiveNumbers),
                |c.conclusionNumbers|);
  }

  lemma ConclusionInUnit(rootCause: Option<bool>, assets: set<string>, mentionedAssets: set<string>)
    ensures InUnit(ConclusionScore(rootCause, assets, mentionedAssets))
  {
    SubsetSize(assets * mentionedAssets, assets);
    RatioBounds(|assets * mentionedAssets|, |assets|);
  }

  // ---------------------------------------------------------------------
  // More events never lower a score

  lemma {:induction false} RetrievedGrows(trace: seq<Event>, more: seq<Event>)
    ensures RetrievedIds(trace + more) == RetrievedIds(trace) + RetrievedIds(more)
  {
    if more == [] {
      assert trace + more == trace;
    } else {
      assert (trace + more)[..|trace + more| - 1] == trace + more[..|more| - 1];
      RetrievedGrows(trace, more[..|more| - 1]);
    }
  }

  lemma {:induction false} ConfirmedGrows(trace: seq<Event>, more: seq<Event>, t: Triple, generation: Option<string>)
    ensures Confirmed(trace + more, t, generation)
       <==> Confirmed(trace, t, generation) || Confirmed(more, t, generation)
  {
    if more == [] {
      assert trace + more == trace;
    } else {
      assert (trace + more)[..|trace + more| - 1] == trace + more[..|more| - 1];
      ConfirmedGrows(trace, more[..|more| - 1], t, generation);
    }
  }

  lemma {:induction false} NumbersGrow(trace: seq<Event>, more: seq<Event>)
    ensures ObservedNumbers(trace + more) == ObservedNumbers(trace) + ObservedNumbers(more)
  {
    if more == [] {
      assert trace + more == trace;
    } else {
      assert (trace + more)[..|trace + more| - 1] == trace + more[..|more| - 1];
      NumbersGrow(trace, more[..|more| - 1]);
    }
  }

  lemma {:induction false} CountGrows(a: seq<Event>, b: seq<Event>, expected: seq<Triple>, g: Option<string>,
                                      h: Option<string>)
    requires forall t :: Confirmed(a, t, g) ==> Confirmed(b, t, h)
    ensures ConfirmedCount(a, expected, g) <= ConfirmedCount(b, expected, h)
  {
    if expected != [] {
      CountGrows(a, b, expected[..|expected| - 1], g, h);
    }
  }

  lemma {:induction false} UnsupportedShrinks(numbers: seq<real>, fewer: seq<real>, more: seq<real>)
    requires forall v :: v in fewer ==> v in more
    ensures UnsupportedCount(numbers, more) <= UnsupportedCount(numbers, fewer)
  {
    if numbers != [] {
      UnsupportedShrinks(numbers[..|numbers| - 1], fewer, more);
    }
  }

  lemma EvidenceGrows(c: Case, trace: seq<Event>, more: seq<Event>)
    ensures EvidenceScore(c, trace) <= EvidenceScore(c, trace + more)
  {
    RetrievedGrows(trace, more);
    SubsetSize(Hits(c, RetrievedIds(trace)), Hits(c, RetrievedIds(trace + more)));
    RatioMonotone(|Hits(c, RetrievedIds(trace))|, |Hits(c, RetrievedIds(trace + more))|, |SetOf(c.expectedEvidence)|);
  }

  lemma RelationshipGrows(c: Case, trace: seq<Event>, more: seq<Event>, generation: Option<string>)
    ensures RelationshipScore(c, trace, generation) <= RelationshipScore(c, trace + more, generation)
  {
    forall t | Confirmed(trace, t, generation) ensures Confirmed(trace + more, t, generation) {
      ConfirmedGrows(trace, more, t, generation);
    }
    CountGrows(trace, trace + more, c.expectedRelationships, generation, generation);
    RatioMonotone(ConfirmedCount(trace, c.expectedRelationships, generation),
                  ConfirmedCount(trace + more, c.expectedRelationships, generation), |c.expectedRelationships|);
  }

  lemma GroundingGrows(c: Case, trace: seq<Event>, more: seq<Event>)
    ensures GroundingScore(c, trace) <= GroundingScore(c, trace + more)
  {
    NumbersGrow(trace, more);
    var fewer, all := ObservedNumbers(trace) + c.objectiveNumbers, ObservedNumbers(trace + more) + c.objectiveNumbers;
    UnsupportedShrinks(c.conclusionNumbers, fewer, all);
    RatioMonotone(UnsupportedCount(c.conclusionNumbers, all), UnsupportedCount(c.conclusionNumbers, fewer),
                  |c.conclusionNumbers|);
  }

  /** Anything the agent does later can only help. */
  lemma MoreEventsNeverLower(c: Case, trace: seq<Event>, more: seq<Event>, generation: Option<string>)
    ensures var before, after := ScoresOf(c, trace, generation), ScoresOf(c, trace + more, generation);
            && before.evidence <= after.evidence && before.relationship <= after.relationship
            && before.grounding <= after.grounding && before.completeness <= after.completeness
  {
    EvidenceGrows(c, trace, more);
    RelationshipGrows(c, trace, more, generation);
    GroundingGrows(c, trace, more);
  }

  // ---------------------------------------------------------------------
  // Each score looks only at its own events

  function ValueBearing(trace: seq<Event>): seq<Event> {
    if trace == [] then []
    else ValueBearing(trace[..|trace| - 1])
         + (if trace[|trace| - 1].tool in VALUE_BEARING_TOOLS then [trace[|trace| - 1]] else [])
  }

  lemma {:induction false} RetrievedFromValueBearing(trace: seq<Event>)
    ensures RetrievedIds(ValueBearing(trace)) == RetrievedIds(trace)
  {
    if trace != [] {
      var front, last := trace[..|trace| - 1], trace[|trace| - 1];
      RetrievedFromValueBearing(front);
      if last.tool in VALUE_BEARING_TOOLS {
        assert (ValueBearing(front) + [last])[..|ValueBearing(front)|] == ValueBearing(front);
      } else {
        assert ValueBearing(trace) == ValueBearing(front);
      }
    }
  }

  /** Browsing and relationship queries do not count as evidence: without them the score is the same. */
  lemma EvidenceIsLocal(c: Case, trace: seq<Event>)
    ensures EvidenceScore(c, ValueBearing(trace)) == EvidenceScore(c, trace)
  {
    RetrievedFromValueBearing(trace);
  }

  /** The relationships of one generation. */
  function OfGeneration(items: Items, generation: string): Items {
    match items
    case NoItems => NoItems
    case Item(head, tail) =>
      if Get(head, "generation_id") == Str(generation) then Item(head, OfGeneration(tail, generation))
      else OfGeneration(tail, generation)
  }

  function Replaced(fields: Fields, key: string, value: Json): Fields {
    match fields
    case NoFields => NoFields
    case Field(k, old_, rest) => if k == key then Field(k, value, rest) else Field(k, old_, Replaced(rest, key, value))
  }

  /** The event with every relationship of another generation dropped from its result. */
  function Pruned(e: Event, generation: string): Event {
    var relationships := Get(e.result, "relationships");
    if e.tool in RELATIONSHIP_TOOLS && relationships.Arr? then
      e.(result := Obj(Replaced(e.result.fields, "relationships", Arr(OfGeneration(relationships.items, generation)))))
    else e
  }

  function PrunedTrace(trace: seq<Event>, generation: string): seq<Event> {
    if trace == [] then [] else PrunedTrace(trace[..|trace| - 1], generation) + [Pruned(trace[|trace| - 1], generation)]
  }

  lemma {:induction false} FindReplaced(fields: Fields, key: string, value: Json)
    requires Find(fields, key) != Null
    ensures Find(Replaced(fields, key, value), key) == value
  {
    match fields
    case NoFields =>
    case Field(k, _, rest) =>
      if k != key {
        FindReplaced(rest, key, value);
      }
  }

  lemma {:induction false} OwnConfirm(items: Items, t: Triple, generation: string)
    ensures AnyConfirms(OfGeneration(items, generation), t, Some(generation))
       <==> AnyConfirms(items, t, Some(generation))
  {
    match items
    case NoItems =>
    case Item(_, tail) => OwnConfirm(tail, t, generation);
  }

  lemma {:induction false} PrunedConfirms(trace: seq<Event>, t: Triple, generation: string)
    ensures Confirmed(PrunedTrace(trace, generation), t, Some(generation)) <==> Confirmed(trace, t, Some(generation))
  {
    if trace != [] {
      var front, e := trace[..|trace| - 1], trace[|trace| - 1];
      PrunedConfirms(front, t, generation);
      var relationships := Get(e.result, "relationships");
      if e.tool in RELATIONSHIP_TOOLS && relationships.Arr? {
        FindReplaced(e.result.fields, "relationships", Arr(OfGeneration(relationships.items, generation)));
        OwnConfirm(relationships.items, t, generation);
      }
      var rest := PrunedTrace(front, generation);
      assert (rest + [Pruned(e, generation)])[..|rest|] == rest;
    }
  }

  lemma {:induction false} SameCount(a: seq<Event>, b: seq<Event>, expected: seq<Triple>, g: Option<string>)
    requires forall t :: Confirmed(a, t, g) <==> Confirmed(b, t, g)
    ensures ConfirmedCount(a, expected, g) == ConfirmedCount(b, expected, g)
  {
    if expected != [] {
      SameCount(a, b, expected[..|expected| - 1], g);
    }
  }

  /** Another run's relationships in the shared graph neither help nor hurt a gated score. */
  lemma GatedScoreIsOwn(c: Case, trace: seq<Event>, generation: string)
    ensures RelationshipScore(c, PrunedTrace(trace, generation), Some(generation))
         == RelationshipScore(c, trace, Some(generation))
  {
    forall t ensures Confirmed(PrunedTrace(trace, generation), t, Some(generation))
<==> Confirmed(trace, t, Some(generation)) {
      PrunedConfirms(trace, t, generation);
    }
    SameCount(PrunedTrace(trace, generation), trace, c.expectedRelationships, Some(generation));
  }

  lemma {:induction false} UngatedConfirms(items: Items, t: Triple, generation: string)
    ensures AnyConfirms(items, t, Some(generation)) ==> AnyConfirms(items, t, None)
  {
    match items
    case NoItems =>
    case Item(_, tail) => UngatedConfirms(tail, t, generation);
  }

  lemma {:induction false} UngatedConfirmed(trace: seq<Event>, t: Triple, generation: string)
    ensures Confirmed(trace, t, Some(generation)) ==> Confirmed(trace, t, None)
  {
    if trace != [] {
      UngatedConfirmed(trace[..|trace| - 1], t, generation);
      UngatedConfirms(ItemsOf(Get(trace[|trace| - 1].result, "relationships")), t, generation);
    }
  }

  /** Gating by generation never raises the score. */
  lemma GatingNeverRaises(c: Case, trace: seq<Event>, generation: string)
    ensures RelationshipScore(c, trace, Some(generation)) <= RelationshipScore(c, trace, None)
  {
    forall t | Confirmed(trace, t, Some(generation)) ensures Confirmed(trace, t, None) {
      UngatedConfirmed(trace, t, generation);
    }
    CountGrows(trace, trace, c.expectedRelationships, Some(generation), None);
    RatioMonotone(ConfirmedCount(trace, c.expectedRelationships, Some(generation)),
                  ConfirmedCount(trace, c.expectedRelationships, None), |c.expectedRelationships|);
  }

  // ---------------------------------------------------------------------
  // The loops

  method CollectObservations(ids0: set<string>, items: Items) returns (ids: set<string>)
    ensures ids == ids0 + ObservationIds(items)
  {
    ids := ids0;
    var rest := items;
    while rest.Item?
      invariant ids + ObservationIds(rest) == ids0 + ObservationIds(items)
      decreases rest
    {
      var id := TextOf(Get(rest.head, "measurement_id"));
      if id != "" {
        ids := ids + {id};
      }
      rest := rest.tail;
    }
  }

  method RetrievedValueIds(trace: seq<Event>) returns (ids: set<string>)
    ensures ids == RetrievedIds(trace)
  {
    ids := {};
    for i := 0 to |trace|
      invariant ids == RetrievedIds(trace[..i])
    {
      assert trace[..i + 1][..i] == trace[..i];
      var e := trace[i];
      if e.tool in VALUE_BEARING_TOOLS {
        var observed := TextOf(Get(Get(e.result, "observation"), "measurement_id"));
        if observed != "" {
          ids := ids + {observed};
        }
        ids := CollectObservations(ids, ItemsOf(Get(e.result, "observations")));
        var element := TextOf(Get(e.result, "element_id"));
        if element != "" {
          ids := ids + {element};
        }
      }
    }
    assert trace[..|trace|] == trace;
  }

  method RelationshipConfirmed(t: Triple, trace: seq<Event>, generation: Option<string>) returns (confirmed: bool)
    ensures confirmed == Confirmed(trace, t, generation)
  {
    for i := 0 to |trace|
      invariant !Confirmed(trace[..i], t, generation)
    {
      assert trace[..i + 1][..i] == trace[..i];
      if trace[i].tool in RELATIONSHIP_TOOLS {
        var rest := ItemsOf(Get(trace[i].result, "relationships"));
        while rest.Item?
          invariant AnyConfirms(rest, t, generation)
                 == AnyConfirms(ItemsOf(Get(trace[i].result, "relationships")), t, generation)
          decreases rest
        {
          if Confirms(rest.head, t, generation) {
            ConfirmedGrows(trace[..i + 1], trace[i + 1..], t, generation);
            assert trace[..i + 1] + trace[i + 1..] == trace;
            return true;
          }
          rest := rest.tail;
        }
      }
    }
    assert trace[..|trace|] == trace;
    confirmed := false;
  }

  method CollectNumbers(trace: seq<Event>) returns (numbers: seq<real>)
    ensures numbers == ObservedNumbers(trace)
  {
    numbers := [];
    for i := 0 to |trace|
      invariant numbers == ObservedNumbers(trace[..i])
    {
      assert trace[..i + 1][..i] == trace[..i];
      numbers := numbers + Numbers(trace[i].result);
    }
    assert trace[..|trace|] == trace;
  }

  method CountConfirmed(c: Case, trace: seq<Event>, generation: Option<string>) returns (count: nat)
    ensures count == ConfirmedCount(trace, c.expectedRelationships, generation)
  {
    count := 0;
    var expected := c.expectedRelationships;
    for i := 0 to |expected|
      invariant count == ConfirmedCount(trace, expected[..i], generation)
    {
      assert expected[..i + 1][..i] == expected[..i];
      var confirmed := RelationshipConfirmed(expected[i], trace, generation);
      if confirmed {
        count := count + 1;
      }
    }
    assert expected[..|expected|] == expected;
  }

  method Evaluate(c: Case, trace: seq<Event>, generation: Option<string>) returns (scores: Scores)
    ensures scores == ScoresOf(c, trace, generation)
  {
    var retrieved := RetrievedValueIds(trace);
    var evidence := Ratio(|Hits(c, retrieved)|, |SetOf(c.expectedEvidence)|);
    var confirmed := CountConfirmed(c, trace, generation);
    var relationship := Ratio(confirmed, |c.expectedRelationships|);
    var observed := CollectNumbers(trace);
    var unsupported := UnsupportedCount(c.conclusionNumbers, observed + c.objectiveNumbers);
    var grounding :=
      if c.conclusionNumbers == [] then 1.0
      else 1.0 - unsupported as real / |c.conclusionNumbers| as real;
    scores := Scores(evidence, relationship, grounding,
                     (evidence + relationship + (if c.terminatedProperly then 1.0 else 0.0)) / 3.0);
  }
}
