/**
 `InformationFlowAnalyzer.analyze`: a single scan of a trace that says which
 measurements were discovered, which values were acquired through which
 architecture, and which acquisitions could not be attributed.
 Sorted lists in the report are kept as sets; a missing text field is "".
 */
module InformationFlow {
  import opened Basics

  datatype Node = Node(nodeType: string, canonicalId: string, nodeId: string, displayName: string)

  /** The parts of a tool result that the analysis reads. */
  datatype Result = Result(
    error: bool,
    nodes: seq<Node>,
    relationshipObjects: seq<string>,
    objects: seq<string>,
    relatedObjects: seq<string>,
    observation: string,
    observations: seq<string>,
    message: string,
    nodeId: string,
    elementId: string)

  datatype Event = Event(tool: string, step: nat, result: Result)

  /** Published measurement name to canonical id. */
  type Names = map<string, string>

  const DISCOVERY_TOOLS :=
    {"browse_uns", "get_entity_relationships", "i3x_get_objects", "i3x_get_related_objects", "opcua_browse"}
  const ACQUISITION_TOOLS :=
    {"get_current_value", "get_historical_values", "read_mqtt", "opcua_read", "i3x_get_value", "i3x_get_history"}
  const I3X_TOOLS :=
    {"i3x_get_objects", "i3x_get_object", "i3x_get_related_objects", "i3x_get_value", "i3x_get_history"}
  const MEASUREMENT_PREFIX := "urn:icab:measurement:"

  function ArchitectureOf(tool: string): string {
    if tool == "get_current_value" || tool == "get_historical_values" then "historian"
    else if tool == "get_entity_relationships" then "knowledge_graph"
    else if tool == "browse_uns" then "uns"
    else if tool == "opcua_browse" || tool == "opcua_read" then "opcua"
    else if tool == "browse_mqtt" || tool == "read_mqtt" then "mqtt"
    else if tool in I3X_TOOLS then "i3x"
    else "unknown"
  }

  // ---------------------------------------------------------------------
  // Identity resolution

  /** `names.get(name)`, an empty id being as good as none. */
  function Resolve(names: Names, name: string): set<string> {
    if name in names && names[name] != "" then {names[name]} else {}
  }

  /** What follows the first `c`, if there is one. */
  function After(s: string, c: char): Option<string> {
    if s == "" then None else if s[0] == c then Some(s[1..]) else After(s[1..], c)
  }

  /** Element ids read `<connection>!<equipment>.<measurement name>`. */
  function ElementIds(names: Names, elementId: string): set<string> {
    match After(elementId, '!')
    case None => {}
    case Some(path) =>
      match After(path, '.')
      case None => {}
      case Some(name) => Resolve(names, name)
  }

  lemma {:induction false} AfterPrefix(prefix: string, c: char, rest: string)
    requires c !in prefix
    ensures After(prefix + [c] + rest, c) == Some(rest)
  {
    var s := prefix + [c] + rest;
    if prefix == "" {
      assert s[0] == c && s[1..] == rest;
    } else {
      AfterPrefix(prefix[1..], c, rest);
      assert s[0] == prefix[0] && s[1..] == prefix[1..] + [c] + rest;
    }
  }

  /** The format written by the wrapper is read back: only the first separators count. */
  lemma ElementIdRoundTrip(names: Names, connection: string, equipment: string, name: string)
    requires '!' !in connection && '.' !in equipment
    ensures ElementIds(names, connection + "!" + (equipment + "." + name)) == Resolve(names, name)
  {
    AfterPrefix(connection, '!', equipment + "." + name);
    AfterPrefix(equipment, '.', name);
    assert connection + "!" + (equipment + "." + name) == connection + ['!'] + (equipment + "." + name);
    assert equipment + "." + name == equipment + ['.'] + name;
  }

  // ---------------------------------------------------------------------
  // What one event says

  predicate Browses(e: Event) {
    !e.result.error && e.tool == "opcua_browse"
  }

  predicate Acquires(e: Event) {
    !e.result.error && e.tool in ACQUISITION_TOOLS
  }

  function MeasurementNodes(nodes: seq<Node>): set<string> {
    set n | n in nodes && n.nodeType == "measurement" && n.canonicalId != "" :: n.canonicalId
  }

  function NamedNodes(names: Names, nodes: seq<Node>): set<string> {
    set n, id | n in nodes && id in Resolve(names, n.displayName) :: id
  }

  function ObjectIds(names: Names, elementIds: seq<string>): set<string> {
    set e, id | e in elementIds && id in ElementIds(names, e) :: id
  }

  function DiscoveredIds(names: Names, e: Event): set<string> {
    if e.tool == "browse_uns" then MeasurementNodes(e.result.nodes)
    else if e.tool == "get_entity_relationships" then
      set o | o in e.result.relationshipObjects && MEASUREMENT_PREFIX <= o
    else if e.tool == "opcua_browse" then NamedNodes(names, e.result.nodes)
    else if e.tool == "i3x_get_objects" then ObjectIds(names, e.result.objects)
    else if e.tool == "i3x_get_related_objects" then ObjectIds(names, e.result.relatedObjects)
    else {}
  }

  /** Node id to display name, the dictionary the scan keeps. */
  type NodeNames = map<string, string>

  predicate Entry(n: Node) {
    n.nodeId != "" && n.displayName != ""
  }

  function Noted(nodeNames: NodeNames, nodes: seq<Node>): NodeNames {
    if nodes == [] then nodeNames
    else
      var front, last := Noted(nodeNames, nodes[..|nodes| - 1]), nodes[|nodes| - 1];
      if Entry(last) then front[last.nodeId := last.displayName] else front
  }

  function AcquiredIds(names: Names, e: Event, nodeNames: NodeNames): set<string> {
    if e.tool == "get_current_value" then (if e.result.observation != "" then {e.result.observation} else {})
    else if e.tool == "get_historical_values" then set o | o in e.result.observations && o != ""
    else if e.tool == "read_mqtt" then (if e.result.message != "" then {e.result.message} else {})
    else if e.tool == "opcua_read" then
      Resolve(names, if e.result.nodeId != "" && e.result.nodeId in nodeNames then nodeNames[e.result.nodeId] else "")
    else if e.tool == "i3x_get_value" || e.tool == "i3x_get_history" then ElementIds(names, e.result.elementId)
    else {}
  }

  // ---------------------------------------------------------------------
  // What the trace says, without a scan

  function NotedFrom(e: Event, nodeNames: NodeNames): NodeNames {
    if Browses(e) then Noted(nodeNames, e.result.nodes) else nodeNames
  }

  function AcquiredFrom(names: Names, e: Event, nodeNames: NodeNames): set<string> {
    if Acquires(e) then AcquiredIds(names, e, nodeNames) else {}
  }

  /** The dictionary after the first `i` events. */
  function NodeNamesAt(trace: seq<Event>, i: nat): NodeNames
    requires i <= |trace|
  {
    if i == 0 then map[] else NotedFrom(trace[i - 1], NodeNamesAt(trace, i - 1))
  }

  /** What event `i` acquires, given everything before it. */
  function AcquiredAt(names: Names, trace: seq<Event>, i: nat): set<string>
    requires i < |trace|
  {
    AcquiredFrom(names, trace[i], NodeNamesAt(trace, i))
  }

  function DiscoveredFrom(names: Names, e: Event): set<string> {
    if !e.result.error && e.tool in DISCOVERY_TOOLS then DiscoveredIds(names, e) else {}
  }

  function DiscoveredBy(names: Names, trace: seq<Event>): set<string> {
    if trace == [] then {}
    else DiscoveredBy(names, trace[..|trace| - 1]) + DiscoveredFrom(names, trace[|trace| - 1])
  }

  lemma {:induction false} DiscoveredIffSomeEvent(names: Names, trace: seq<Event>, id: string)
    ensures id in DiscoveredBy(names, trace) <==> exists e :: e in trace && id in DiscoveredFrom(names, e)
  {
    if trace != [] {
      DiscoveredIffSomeEvent(names, trace[..|trace| - 1], id);
      assert trace == trace[..|trace| - 1] + [trace[|trace| - 1]];
    }
  }

  /** Node `k` of event `j` is an entry for `nodeId`. */
  ghost predicate EntryAt(trace: seq<Event>, j: int, k: int, nodeId: string) {
    && 0 <= j < |trace| && Browses(trace[j]) && 0 <= k < |trace[j].result.nodes|
    && Entry(trace[j].result.nodes[k]) && trace[j].result.nodes[k].nodeId == nodeId
  }

  ghost predicate Later(j: int, k: int, j': int, k': int) {
    j < j' || (j == j' && k < k')
  }

  /** The last entry for `nodeId` before event `i`. */
  ghost predicate LatestEntry(trace: seq<Event>, i: nat, nodeId: string, j: int, k: int) {
    && j < i && EntryAt(trace, j, k, nodeId)
    && forall j', k' :: j' < i && EntryAt(trace, j', k', nodeId) ==> !Later(j, k, j', k')
  }

  lemma {:induction false} NotedNode(nodeNames: NodeNames, nodes: seq<Node>, nodeId: string) returns (k: int)
    ensures -1 <= k < |nodes|
    ensures k >= 0 ==> Entry(nodes[k]) && nodes[k].nodeId == nodeId && nodeId in Noted(nodeNames, nodes)
    ensures k >= 0 ==> Noted(nodeNames, nodes)[nodeId] == nodes[k].displayName
    ensures forall m :: k < m < |nodes| ==> !(Entry(nodes[m]) && nodes[m].nodeId == nodeId)
    ensures k < 0 ==> (nodeId in Noted(nodeNames, nodes) <==> nodeId in nodeNames)
    ensures k < 0 && nodeId in nodeNames ==> Noted(nodeNames, nodes)[nodeId] == nodeNames[nodeId]
  {
    if nodes == [] {
      k := -1;
    } else {
      var last := |nodes| - 1;
      if Entry(nodes[last]) && nodes[last].nodeId == nodeId {
        k := last;
      } else {
        k := NotedNode(nodeNames, nodes[..last], nodeId);
      }
    }
  }

  /** The dictionary holds a node exactly when the trace so far has an entry for it, with the latest entry's name. */
  lemma {:induction false} NodeNameIsLatest(trace: seq<Event>, i: nat, nodeId: string) returns (j: int, k: int)
    requires i <= |trace|
    ensures nodeId in NodeNamesAt(trace, i) ==> LatestEntry(trace, i, nodeId, j, k)
    ensures nodeId in NodeNamesAt(trace, i) ==> NodeNamesAt(trace, i)[nodeId] == trace[j].result.nodes[k].displayName
    ensures nodeId !in NodeNamesAt(trace, i) ==> forall j', k' :: j' < i ==> !EntryAt(trace, j', k', nodeId)
  {
    if i == 0 {
      j, k := -1, -1;
    } else {
      j, k := NodeNameIsLatest(trace, i - 1, nodeId);
      if Browses(trace[i - 1]) {
        var m := NotedNode(NodeNamesAt(trace, i - 1), trace[i - 1].result.nodes, nodeId);
        if m >= 0 {
          j, k := i - 1, m;
        }
      }
    }
  }

  lemma OneLatest(trace: seq<Event>, i: nat, nodeId: string, j: int, k: int, j': int, k': int)
    requires LatestEntry(trace, i, nodeId, j, k) && LatestEntry(trace, i, nodeId, j', k')
    ensures j == j' && k == k'
  {
    assert !Later(j, k, j', k') && !Later(j', k', j, k);
  }

  ghost predicate HasEntry(trace: seq<Event>, i: nat, nodeId: string) {
    exists j, k :: LatestEntry(trace, i, nodeId, j, k)
  }

  /**
   A read is attributed to `id` exactly when the latest earlier browse entry for its node carries a name known
   for `id`; a read without a node id, or of a node never browsed, is looked up under the empty name.
   */
  lemma ReadResolvesIff(names: Names, trace: seq<Event>, i: nat, id: string)
    requires i < |trace| && !trace[i].result.error && trace[i].tool == "opcua_read"
    ensures id in AcquiredAt(names, trace, i)
       <==> (exists j, k :: LatestEntry(trace, i, trace[i].result.nodeId, j, k)
                            && id in Resolve(names, trace[j].result.nodes[k].displayName))
            || (!HasEntry(trace, i, trace[i].result.nodeId) && id in Resolve(names, ""))
    ensures trace[i].result.nodeId == "" ==> !HasEntry(trace, i, trace[i].result.nodeId)
  {
    var nodeId := trace[i].result.nodeId;
    var j, k := NodeNameIsLatest(trace, i, nodeId);
    if nodeId in NodeNamesAt(trace, i) {
      forall j', k' | LatestEntry(trace, i, nodeId, j', k') ensures j' == j && k' == k {
        OneLatest(trace, i, nodeId, j, k, j', k');
      }
    }
  }

  // ---------------------------------------------------------------------
  // The report

  datatype Acquisition = Acquisition(canonicalId: string, architecture: string, tool: string, step: nat)

  datatype Report = Report(
    discovered: set<string>,
    acquisitions: seq<Acquisition>,
    architecturesUsed: map<string, set<string>>,
    redundantMeasurements: set<string>,
    redundantCount: nat,
    unresolved: nat,
    toolErrors: nat)

  /** An event's acquired ids in some order; which one a Python set comes in is not specified. */
  ghost predicate Enumerates(block: seq<string>, ids: set<string>) {
    Distinct(block) && SetOf(block) == ids
  }

  /** One block per event so far, each enumerating what its event acquires. */
  ghost predicate BlocksFit(names: Names, trace: seq<Event>, blocks: seq<seq<string>>)
    requires |blocks| <= |trace|
  {
    var n := |blocks| - 1;
    blocks == [] || (BlocksFit(names, trace, blocks[..n]) && Enumerates(blocks[n], AcquiredAt(names, trace, n)))
  }

  lemma {:induction false} BlockAt(names: Names, trace: seq<Event>, blocks: seq<seq<string>>, i: nat)
    requires i < |blocks| <= |trace| && BlocksFit(names, trace, blocks)
    ensures Enumerates(blocks[i], AcquiredAt(names, trace, i))
  {
    if i < |blocks| - 1 {
      BlockAt(names, trace, blocks[..|blocks| - 1], i);
    }
  }

  function BlockRecords(e: Event, block: seq<string>): seq<Acquisition> {
    if block == [] then []
    else BlockRecords(e, block[..|block| - 1])
         + [Acquisition(block[|block| - 1], ArchitectureOf(e.tool), e.tool, e.step)]
  }

  /** All acquisition records, event by event. */
  ghost function Records(trace: seq<Event>, blocks: seq<seq<string>>): seq<Acquisition>
    requires |blocks| <= |trace|
  {
    if blocks == [] then []
    else Records(trace, blocks[..|blocks| - 1]) + BlockRecords(trace[|blocks| - 1], blocks[|blocks| - 1])
  }

  predicate UnresolvedAt(names: Names, trace: seq<Event>, i: nat)
    requires i < |trace|
  {
    Acquires(trace[i]) && AcquiredAt(names, trace, i) == {}
  }

  function Unresolved(names: Names, trace: seq<Event>, n: nat): nat
    requires n <= |trace|
  {
    if n == 0 then 0 else Unresolved(names, trace, n - 1) + (if UnresolvedAt(names, trace, n - 1) then 1 else 0)
  }

  function ToolErrors(trace: seq<Event>): nat {
    if trace == [] then 0 else ToolErrors(trace[..|trace| - 1]) + (if trace[|trace| - 1].result.error then 1 else 0)
  }

  function Attempts(trace: seq<Event>): nat {
    if trace == [] then 0 else Attempts(trace[..|trace| - 1]) + (if Acquires(trace[|trace| - 1]) then 1 else 0)
  }

  function Resolved(names: Names, trace: seq<Event>, n: nat): nat
    requires n <= |trace|
  {
    if n == 0 then 0 else Resolved(names, trace, n - 1) + (if AcquiredAt(names, trace, n - 1) != {} then 1 else 0)
  }

  lemma {:induction false} BlockLength(e: Event, block: seq<string>)
    ensures |BlockRecords(e, block)| == |block|
  {
    if block != [] {
      BlockLength(e, block[..|block| - 1]);
    }
  }

  lemma AttemptsNext(trace: seq<Event>, i: nat)
    requires i < |trace|
    ensures Attempts(trace[..i + 1]) == Attempts(trace[..i]) + (if Acquires(trace[i]) then 1 else 0)
  {
    assert trace[..i + 1][..i] == trace[..i];
  }

  lemma {:induction false} AttemptsSplit(names: Names, trace: seq<Event>, n: nat)
    requires n <= |trace|
    ensures Unresolved(names, trace, n) + Resolved(names, trace, n) == Attempts(trace[..n])
  {
    if n > 0 {
      AttemptsSplit(names, trace, n - 1);
      AttemptsNext(trace, n - 1);
    }
  }

  lemma {:induction false} ResolvedYield(names: Names, trace: seq<Event>, blocks: seq<seq<string>>)
    requires |blocks| <= |trace| && BlocksFit(names, trace, blocks)
    ensures |Records(trace, blocks)| >= Resolved(names, trace, |blocks|)
    ensures Records(trace, blocks) == [] <==> Resolved(names, trace, |blocks|) == 0
  {
    if blocks != [] {
      var n := |blocks| - 1;
      ResolvedYield(names, trace, blocks[..n]);
      BlockLength(trace[n], blocks[n]);
      SetOfEmpty(blocks[n]);
    }
  }

  /** An attempt that did not fail is unresolved exactly when it adds no record; no other event is either. */
  ghost predicate Accounted(names: Names, trace: seq<Event>, blocks: seq<seq<string>>, i: nat)
    requires i < |blocks| <= |trace|
  {
    && (Acquires(trace[i]) ==> (UnresolvedAt(names, trace, i) <==> BlockRecords(trace[i], blocks[i]) == []))
    && (!Acquires(trace[i]) ==> !UnresolvedAt(names, trace, i) && BlockRecords(trace[i], blocks[i]) == [])
  }

  lemma EventAccounted(names: Names, trace: seq<Event>, blocks: seq<seq<string>>, i: nat)
    requires i < |blocks| <= |trace| && BlocksFit(names, trace, blocks)
    ensures Accounted(names, trace, blocks, i)
  {
    BlockAt(names, trace, blocks, i);
    BlockLength(trace[i], blocks[i]);
    SetOfEmpty(blocks[i]);
  }

  /** Each event is accounted for, and so are the totals of the report. */
  lemma AttemptsAccounted(names: Names, trace: seq<Event>, blocks: seq<seq<string>>)
    requires |blocks| == |trace| && BlocksFit(names, trace, blocks)
    ensures forall i :: 0 <= i < |trace| ==> Accounted(names, trace, blocks, i)
    ensures Unresolved(names, trace, |trace|) + Resolved(names, trace, |trace|) == Attempts(trace)
    ensures |Records(trace, blocks)| >= Resolved(names, trace, |trace|)
    ensures Records(trace, blocks) == [] <==> Resolved(names, trace, |trace|) == 0
  {
    forall i | 0 <= i < |trace| ensures Accounted(names, trace, blocks, i) {
      EventAccounted(names, trace, blocks, i);
    }
    AttemptsSplit(names, trace, |trace|);
    ResolvedYield(names, trace, blocks);
    assert trace[..|trace|] == trace;
  }

  // ---------------------------------------------------------------------
  // Redundancy

  function Group(acquisitions: seq<Acquisition>, id: string): seq<Acquisition> {
    if acquisitions == [] then []
    else
      var last := acquisitions[|acquisitions| - 1];
      Group(acquisitions[..|acquisitions| - 1], id) + (if last.canonicalId == id then [last] else [])
  }

  function FirstIds(acquisitions: seq<Acquisition>): seq<string> {
    if acquisitions == [] then []
    else
      var front, id := FirstIds(acquisitions[..|acquisitions| - 1]), acquisitions[|acquisitions| - 1].canonicalId;
      if id in front then front else front + [id]
  }

  function ArchitecturesOf(group: seq<Acquisition>): set<string> {
    set a | a in group :: a.architecture
  }

  function Excess(acquisitions: seq<Acquisition>, ids: seq<string>): nat {
    if ids == [] then 0
    else
      var n := |Group(acquisitions, ids[|ids| - 1])|;
      Excess(acquisitions, ids[..|ids| - 1]) + (if n > 1 then n - 1 else 0)
  }

  predicate Redundant(acquisitions: seq<Acquisition>, id: string) {
    |ArchitecturesOf(Group(acquisitions, id))| > 1
  }

  function RedundantIds(acquisitions: seq<Acquisition>, ids: seq<string>): seq<string> {
    if ids == [] then []
    else RedundantIds(acquisitions, ids[..|ids| - 1])
         + (if Redundant(acquisitions, ids[|ids| - 1]) then [ids[|ids| - 1]] else [])
  }

  lemma {:induction false} FirstIdsFacts(acquisitions: seq<Acquisition>)
    ensures Distinct(FirstIds(acquisitions))
    ensures forall a :: a in acquisitions ==> a.canonicalId in FirstIds(acquisitions)
    ensures forall id :: id !in FirstIds(acquisitions) ==> Group(acquisitions, id) == []
    ensures forall id :: id in FirstIds(acquisitions) ==> Group(acquisitions, id) != []
  {
    if acquisitions != [] {
      FirstIdsFacts(acquisitions[..|acquisitions| - 1]);
      assert acquisitions == acquisitions[..|acquisitions| - 1] + [acquisitions[|acquisitions| - 1]];
    }
  }

  function GroupSizes(acquisitions: seq<Acquisition>, ids: seq<string>): nat {
    if ids == [] then 0 else GroupSizes(acquisitions, ids[..|ids| - 1]) + |Group(acquisitions, ids[|ids| - 1])|
  }

  lemma {:induction false} OneMoreAcquisition(acquisitions: seq<Acquisition>, last: Acquisition, ids: seq<string>)
    requires Distinct(ids)
    ensures GroupSizes(acquisitions + [last], ids)
         == GroupSizes(acquisitions, ids) + (if last.canonicalId in ids then 1 else 0)
  {
    if ids != [] {
      var front, id := ids[..|ids| - 1], ids[|ids| - 1];
      assert ids == front + [id];
      OneMoreAcquisition(acquisitions, last, front);
      assert (acquisitions + [last])[..|acquisitions|] == acquisitions;
      if last.canonicalId == id {
        assert id !in front;
      }
    }
  }

  lemma {:induction false} SizesConserve(acquisitions: seq<Acquisition>, ids: seq<string>)
    requires Distinct(ids) && forall a :: a in acquisitions ==> a.canonicalId in ids
    ensures GroupSizes(acquisitions, ids) == |acquisitions|
    decreases |acquisitions|
  {
    if acquisitions == [] {
      NoSizes(ids);
    } else {
      var front, last := acquisitions[..|acquisitions| - 1], acquisitions[|acquisitions| - 1];
      assert acquisitions == front + [last];
      SizesConserve(front, ids);
      OneMoreAcquisition(front, last, ids);
    }
  }

  lemma {:induction false} NoSizes(ids: seq<string>)
    ensures GroupSizes([], ids) == 0
  {
    if ids != [] {
      NoSizes(ids[..|ids| - 1]);
    }
  }

  lemma {:induction false} ExcessIsRest(acquisitions: seq<Acquisition>, ids: seq<string>)
    requires forall id :: id in ids ==> Group(acquisitions, id) != []
    ensures Excess(acquisitions, ids) + |ids| == GroupSizes(acquisitions, ids)
    ensures |RedundantIds(acquisitions, ids)| <= Excess(acquisitions, ids)
  {
    if ids != [] {
      var front, id := ids[..|ids| - 1], ids[|ids| - 1];
      assert ids == front + [id];
      ExcessIsRest(acquisitions, front);
      FewArchitectures(Group(acquisitions, id));
    }
  }

  lemma {:induction false} FewArchitectures(group: seq<Acquisition>)
    ensures |ArchitecturesOf(group)| <= |group|
  {
    if group != [] {
      var front, last := group[..|group| - 1], group[|group| - 1];
      FewArchitectures(front);
      assert group == front + [last];
      assert ArchitecturesOf(group) == ArchitecturesOf(front) + {last.architecture};
    }
  }

  lemma {:induction false} RedundantIdsMembers(acquisitions: seq<Acquisition>, ids: seq<string>)
    ensures forall id :: id in RedundantIds(acquisitions, ids) <==> id in ids && Redundant(acquisitions, id)
  {
    if ids != [] {
      RedundantIdsMembers(acquisitions, ids[..|ids| - 1]);
      assert ids == ids[..|ids| - 1] + [ids[|ids| - 1]];
    }
  }

  /**
   The redundant count is the number of acquisitions beyond one per measurement, and at least the number of
   redundant measurements.
   */
  lemma RedundancyCounts(acquisitions: seq<Acquisition>)
    ensures var ids := FirstIds(acquisitions);
            && Excess(acquisitions, ids) + |ids| == |acquisitions|
            && |SetOf(RedundantIds(acquisitions, ids))| <= Excess(acquisitions, ids)
            && forall id :: id in RedundantIds(acquisitions, ids) <==> Redundant(acquisitions, id)
  {
    var ids := FirstIds(acquisitions);
    FirstIdsFacts(acquisitions);
    SizesConserve(acquisitions, ids);
    ExcessIsRest(acquisitions, ids);
    SetOfSize(RedundantIds(acquisitions, ids));
    RedundantIdsMembers(acquisitions, ids);
    forall id | Redundant(acquisitions, id) ensures id in ids {
      FewArchitectures(Group(acquisitions, id));
    }
  }

  // ---------------------------------------------------------------------
  // The scan

  method NoteNodes(nodeNames: NodeNames, nodes: seq<Node>) returns (noted: NodeNames)
    ensures noted == Noted(nodeNames, nodes)
  {
    noted := nodeNames;
    for i := 0 to |nodes|
      invariant noted == Noted(nodeNames, nodes[..i])
    {
      assert nodes[..i + 1][..i] == nodes[..i];
      if nodes[i].nodeId != "" && nodes[i].displayName != "" {
        noted := noted[nodes[i].nodeId := nodes[i].displayName];
      }
    }
    assert nodes[..|nodes|] == nodes;
  }

  lemma EnumeratesNext(block: seq<string>, ids: set<string>, rest: set<string>, id: string)
    requires Enumerates(block, ids - rest) && id in rest && rest <= ids
    ensures Enumerates(block + [id], ids - (rest - {id}))
  {
    assert id in block ==> id in SetOf(block);
    assert forall i :: 0 <= i < |block| ==> block[i] != id;
    assert SetOf(block + [id]) == SetOf(block) + {id};
    assert ids - (rest - {id}) == (ids - rest) + {id};
  }

  lemma BlockRecordsNext(e: Event, block: seq<string>, id: string)
    ensures BlockRecords(e, block + [id])
         == BlockRecords(e, block) + [Acquisition(id, ArchitectureOf(e.tool), e.tool, e.step)]
  {
    assert (block + [id])[..|block|] == block;
  }

  /** Append one record per id, in whatever order the set comes. */
  method AppendAcquisitions(acquisitions: seq<Acquisition>, e: Event, ids: set<string>)
    returns (extended: seq<Acquisition>, ghost block: seq<string>)
    ensures Enumerates(block, ids) && extended == acquisitions + BlockRecords(e, block)
    ensures |extended| == |acquisitions| + |ids|
  {
    extended, block := acquisitions, [];
    var rest := ids;
    while rest != {}
      invariant rest <= ids && Enumerates(block, ids - rest)
      invariant extended == acquisitions + BlockRecords(e, block)
      decreases rest
    {
      var id :| id in rest;
      EnumeratesNext(block, ids, rest, id);
      BlockRecordsNext(e, block, id);
      extended := extended + [Acquisition(id, ArchitectureOf(e.tool), e.tool, e.step)];
      block, rest := block + [id], rest - {id};
    }
    assert ids - rest == ids;
    BlockLength(e, block);
    SetOfSize(block);
  }

  lemma BlocksNext(names: Names, trace: seq<Event>, blocks: seq<seq<string>>, block: seq<string>)
    requires |blocks| < |trace| && BlocksFit(names, trace, blocks)
             && Enumerates(block, AcquiredAt(names, trace, |blocks|))
    ensures BlocksFit(names, trace, blocks + [block])
    ensures Records(trace, blocks + [block]) == Records(trace, blocks) + BlockRecords(trace[|blocks|], block)
  {
    assert (blocks + [block])[..|blocks|] == blocks;
  }

  /** One event of the trace. */
  method ScanEvent(names: Names, e: Event, discovered0: set<string>, acquisitions0: seq<Acquisition>, unresolved0: nat,
                   nodeNames0: NodeNames)
    returns (discovered: set<string>, acquisitions: seq<Acquisition>, unresolved: nat, nodeNames: NodeNames,
             ghost block: seq<string>)
    ensures discovered == discovered0 + DiscoveredFrom(names, e)
    ensures nodeNames == NotedFrom(e, nodeNames0)
    ensures Enumerates(block, AcquiredFrom(names, e, nodeNames0))
            && acquisitions == acquisitions0 + BlockRecords(e, block)
    ensures unresolved == unresolved0 + if Acquires(e) && AcquiredFrom(names, e, nodeNames0) == {} then 1 else 0
  {
    discovered, acquisitions, unresolved, nodeNames, block := discovered0, acquisitions0, unresolved0, nodeNames0, [];
    if e.result.error {
      return;
    }
    if e.tool in DISCOVERY_TOOLS {
      discovered := discovered + DiscoveredIds(names, e);
      if e.tool == "opcua_browse" {
        nodeNames := NoteNodes(nodeNames, e.result.nodes);
      }
    }
    if e.tool in ACQUISITION_TOOLS {
      var ids := AcquiredIds(names, e, nodeNames);
      if ids == {} {
        unresolved := unresolved + 1;
      } else {
        acquisitions, block := AppendAcquisitions(acquisitions, e, ids);
      }
    }
  }

  lemma PrefixNext(names: Names, trace: seq<Event>, i: nat)
    requires i < |trace|
    ensures DiscoveredBy(names, trace[..i + 1]) == DiscoveredBy(names, trace[..i]) + DiscoveredFrom(names, trace[i])
    ensures ToolErrors(trace[..i + 1]) == ToolErrors(trace[..i]) + (if trace[i].result.error then 1 else 0)
  {
    assert trace[..i + 1][..i] == trace[..i];
  }

  method Scan(names: Names, trace: seq<Event>)
    returns (discovered: set<string>, acquisitions: seq<Acquisition>, unresolved: nat, toolErrors: nat,
             ghost blocks: seq<seq<string>>)
    ensures |blocks| == |trace| && BlocksFit(names, trace, blocks) && acquisitions == Records(trace, blocks)
    ensures discovered == DiscoveredBy(names, trace)
    ensures unresolved == Unresolved(names, trace, |trace|) && toolErrors == ToolErrors(trace)
  {
    discovered, acquisitions, unresolved, toolErrors, blocks := {}, [], 0, 0, [];
    var nodeNames: NodeNames := map[];
    for i := 0 to |trace|
      invariant i == |blocks| && BlocksFit(names, trace, blocks) && acquisitions == Records(trace, blocks)
      invariant discovered == DiscoveredBy(names, trace[..i])
      invariant unresolved == Unresolved(names, trace, i) && toolErrors == ToolErrors(trace[..i])
      invariant nodeNames == NodeNamesAt(trace, i)
    {
      ghost var block;
      if trace[i].result.error {
        toolErrors := toolErrors + 1;
      }
      PrefixNext(names, trace, i);
      discovered, acquisitions, unresolved, nodeNames, block :=
        ScanEvent(names, trace[i], discovered, acquisitions, unresolved, nodeNames);
      BlocksNext(names, trace, blocks, block);
      blocks := blocks + [block];
    }
    assert trace[..|trace|] == trace;
  }

  method GroupByMeasurement(acquisitions: seq<Acquisition>)
    returns (groups: map<string, seq<Acquisition>>, order: seq<string>)
    ensures order == FirstIds(acquisitions)
    ensures forall id :: id in groups <==> id in order
    ensures forall id :: id in groups ==> groups[id] == Group(acquisitions, id)
  {
    groups, order := map[], [];
    for i := 0 to |acquisitions|
      invariant order == FirstIds(acquisitions[..i])
      invariant forall id :: id in groups <==> id in order
      invariant forall id :: id in groups ==> groups[id] == Group(acquisitions[..i], id)
    {
      assert acquisitions[..i + 1][..i] == acquisitions[..i];
      var id := acquisitions[i].canonicalId;
      if id !in groups {
        FirstIdsFacts(acquisitions[..i]);
        groups, order := groups[id := []], order + [id];
      }
      groups := groups[id := groups[id] + [acquisitions[i]]];
    }
    assert acquisitions[..|acquisitions|] == acquisitions;
  }

  method CountExcess(groups: map<string, seq<Acquisition>>, order: seq<string>, ghost acquisitions: seq<Acquisition>)
    returns (count: nat)
    requires forall id :: id in order ==> id in groups && groups[id] == Group(acquisitions, id)
    ensures count == Excess(acquisitions, order)
  {
    count := 0;
    for i := 0 to |order|
      invariant count == Excess(acquisitions, order[..i])
    {
      assert order[..i + 1][..i] == order[..i];
      assert order[i] in order;
      var n := |groups[order[i]]|;
      count := count + if n > 1 then n - 1 else 0;
    }
    assert order[..|order|] == order;
  }

  /** Architectures per measurement, the measurements with several, and the acquisitions beyond one each. */
  method Redundancy(acquisitions: seq<Acquisition>)
    returns (used: map<string, set<string>>, redundant: set<string>, count: nat)
    ensures used == map id | id in FirstIds(acquisitions) :: ArchitecturesOf(Group(acquisitions, id))
    ensures redundant == SetOf(RedundantIds(acquisitions, FirstIds(acquisitions)))
    ensures count == Excess(acquisitions, FirstIds(acquisitions))
  {
    var groups, order := GroupByMeasurement(acquisitions);
    used := map id | id in order :: ArchitecturesOf(groups[id]);
    redundant := set id | id in order && |used[id]| > 1;
    RedundantIdsMembers(acquisitions, order);
    count := CountExcess(groups, order, acquisitions);
  }

  method Analyze(names: Names, trace: seq<Event>) returns (report: Report, ghost blocks: seq<seq<string>>)
    ensures |blocks| == |trace| && BlocksFit(names, trace, blocks) && report.acquisitions == Records(trace, blocks)
    ensures report.discovered == DiscoveredBy(names, trace)
    ensures report.unresolved == Unresolved(names, trace, |trace|) && report.toolErrors == ToolErrors(trace)
    ensures report.architecturesUsed
         == map id | id in FirstIds(report.acquisitions) :: ArchitecturesOf(Group(report.acquisitions, id))
    ensures report.redundantMeasurements == SetOf(RedundantIds(report.acquisitions, FirstIds(report.acquisitions)))
    ensures report.redundantCount == Excess(report.acquisitions, FirstIds(report.acquisitions))
  {
    var discovered, acquisitions, unresolved, toolErrors;
    discovered, acquisitions, unresolved, toolErrors, blocks := Scan(names, trace);
    var used, redundant, count := Redundancy(acquisitions);
    report := Report(discovered, acquisitions, used, redundant, count, unresolved, toolErrors);
  }
}
