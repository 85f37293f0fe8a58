/**
 * The simulator builder of the simple simulator revision
 * (simulator/src/simple/simulation_builder.rs).
 *
 * The builder holds a list of node builders, an optional iteration limit,
 * a delay and a cache of built simulation nodes.  Nodes refer to each
 * other by their index in the list.  This file calls a node-builder API
 * (ids, `InOut` ends, crossing slots per direction) that the simple node
 * builders do not have; the model gives the nodes that API as values, with
 * the crossing slots behaving as `CrossingConnections::add` of
 * simulator/src/node_builder.rs: a taken slot is an error, and a street
 * already attached on the other side of the crossing is a panic.
 */
module SimpleSimulationBuilder {
  import opened Wrappers
  import NB = SimNodeBuilder

  type Direction = NB.Direction
  type U8 = NB.U8

  /** A node builder as this file uses it. */
  datatype BuilderNode =
    | BStreet(id: nat, lanes: U8, connIn: Option<nat>, connOut: Option<nat>)
    | BIONode(id: nat, links: seq<nat>)
    | BCrossing(id: nat, input: map<Direction, nat>, output: map<Direction, nat>)

  /** `set_id(id)`. */
  function WithId(n: BuilderNode, id: nat): (r: BuilderNode)
    ensures r.id == id && Targets(r) == Targets(n)
  {
    match n
      case BStreet(_, l, ci, co) => BStreet(id, l, ci, co)
      case BIONode(_, ls) => BIONode(id, ls)
      case BCrossing(_, i, o) => BCrossing(id, i, o)
  }

  /** The nodes a node is attached to: a street's end then its start, an IO
    * node's streets, a crossing's outgoing then incoming streets. */
  function Targets(n: BuilderNode): seq<nat>
  {
    match n
      case BStreet(_, _, ci, co) => (if co.Some? then [co.value] else []) + (if ci.Some? then [ci.value] else [])
      case BIONode(_, ls) => ls
      case BCrossing(_, i, o) => NB.ValuesInOrder(o) + NB.ValuesInOrder(i)
  }

  /** `is_connected(other)`. */
  function IsConnectedTo(n: BuilderNode, k: nat): bool
  {
    k in Targets(n)
  }

  /** The kind of a built simulation node. */
  datatype Kind = KStreet(lanes: U8) | KIONode | KCrossing

  function KindOf(n: BuilderNode): Kind
  {
    match n
      case BStreet(_, l, _, _) => KStreet(l)
      case BIONode(_, _) => KIONode
      case BCrossing(_, _, _) => KCrossing
  }

  /** A built simulation node: its kind and the indices it is wired to. */
  datatype SimNode = SimNode(kind: Kind, connections: seq<nat>)

  /** What `build` hands out. */
  datatype Simulator = Simulator(nodes: seq<SimNode>, maxIter: Option<nat>, delay: nat)

  /** The wiring of node `n`: the id of every target, or `None` if a target
    * or its id lies outside the node list (the source panics there). */
  function WiredTo(nodes: seq<BuilderNode>, ts: seq<nat>): (r: Option<seq<nat>>)
    ensures r.Some? ==> |r.value| == |ts|
  {
    if |ts| == 0 then Some([])
    else if ts[0] < |nodes| && nodes[ts[0]].id < |nodes| then
      match WiredTo(nodes, ts[1..])
        case None => None
        case Some(rest) => Some([nodes[ts[0]].id] + rest)
    else None
  }

  /** The wiring exists exactly when every target and its id lie in the
    * list. */
  lemma {:induction false} WiredToDefined(nodes: seq<BuilderNode>, ts: seq<nat>)
    ensures WiredTo(nodes, ts).Some? <==> forall k :: 0 <= k < |ts| ==> ts[k] < |nodes| && nodes[ts[k]].id < |nodes|
  {
    if |ts| > 0 {
      WiredToDefined(nodes, ts[1..]);
      assert forall k :: 1 <= k < |ts| ==> ts[k] == ts[1..][k - 1];
    }
  }

  /** The nodes a fresh `build` produces from `nodes[..k]`. */
  function BuiltPrefix(nodes: seq<BuilderNode>, k: nat): (r: Option<seq<SimNode>>)
    requires k <= |nodes|
    ensures r.Some? ==> |r.value| == k
    decreases k
  {
    if k == 0 then Some([])
    else
      match BuiltPrefix(nodes, k - 1)
        case None => None
        case Some(front) =>
          match WiredTo(nodes, Targets(nodes[k - 1]))
            case None => None
            case Some(w) => Some(front + [SimNode(KindOf(nodes[k - 1]), w)])
  }

  /** The nodes a fresh `build` produces: node i has node i's kind and the
    * ids of node i's targets, in order. */
  function BuiltNodes(nodes: seq<BuilderNode>): Option<seq<SimNode>>
  {
    BuiltPrefix(nodes, |nodes|)
  }

  /** The ids are the positions in the list. */
  predicate IdsAreIndices(nodes: seq<BuilderNode>)
  {
    forall i :: 0 <= i < |nodes| ==> nodes[i].id == i
  }

  /** Every node is attached only to nodes of the list. */
  predicate Linked(nodes: seq<BuilderNode>)
  {
    forall i, k :: 0 <= i < |nodes| && 0 <= k < |Targets(nodes[i])| ==> Targets(nodes[i])[k] < |nodes|
  }

  /** What a build wires when every target is a position of the list and
    * every id is its node's position: node i to node i's own targets. */
  function DirectBuild(ns: seq<BuilderNode>): (r: seq<SimNode>)
    ensures |r| == |ns|
  {
    if |ns| == 0 then []
    else DirectBuild(ns[..|ns| - 1]) + [SimNode(KindOf(ns[|ns| - 1]), Targets(ns[|ns| - 1]))]
  }

  lemma {:induction false} DirectBuildAt(ns: seq<BuilderNode>, i: nat)
    requires i < |ns|
    ensures DirectBuild(ns)[i] == SimNode(KindOf(ns[i]), Targets(ns[i]))
  {
    if i < |ns| - 1 {
      DirectBuildAt(ns[..|ns| - 1], i);
    }
  }

  /** A linked list of nodes whose ids are their positions always builds,
    * and node i is wired to exactly node i's targets. */
  lemma {:induction false} BuildSucceeds(nodes: seq<BuilderNode>, k: nat)
    requires k <= |nodes| && IdsAreIndices(nodes) && Linked(nodes)
    ensures BuiltPrefix(nodes, k) == Some(DirectBuild(nodes[..k]))
    decreases k
  {
    if k > 0 {
      BuildSucceeds(nodes, k - 1);
      assert nodes[..k][..k - 1] == nodes[..k - 1];
      WiredIdentity(nodes, Targets(nodes[k - 1]));
    }
  }

  /** The whole list: node i of the build is wired to node i's targets. */
  lemma BuiltNodesDirect(nodes: seq<BuilderNode>)
    requires IdsAreIndices(nodes) && Linked(nodes)
    ensures BuiltNodes(nodes).Some? && |BuiltNodes(nodes).value| == |nodes|
    ensures forall i :: 0 <= i < |nodes| ==> BuiltNodes(nodes).value[i] == SimNode(KindOf(nodes[i]), Targets(nodes[i]))
  {
    BuildSucceeds(nodes, |nodes|);
    assert nodes[..|nodes|] == nodes;
    forall i | 0 <= i < |nodes|
      ensures BuiltNodes(nodes).value[i] == SimNode(KindOf(nodes[i]), Targets(nodes[i]))
    {
      DirectBuildAt(nodes, i);
    }
  }

  lemma {:induction false} WiredIdentity(nodes: seq<BuilderNode>, ts: seq<nat>)
    requires IdsAreIndices(nodes)
    requires forall k :: 0 <= k < |ts| ==> ts[k] < |nodes|
    ensures WiredTo(nodes, ts) == Some(ts)
  {
    if |ts| > 0 {
      WiredIdentity(nodes, ts[1..]);
      assert [ts[0]] + ts[1..] == ts;
    }
  }

  /** The street end linked at `node1`: an IO node lists the street, a
    * crossing takes it as outgoing at `dir`. */
  function LinkOut(n: BuilderNode, dir: Direction, s: nat): BuilderNode
  {
    match n
      case BIONode(id, ls) => BIONode(id, ls + [s])
      case BCrossing(id, i, o) => BCrossing(id, i, o[dir := s])
      case BStreet(_, _, _, _) => n
  }

  /** A parsed record of the JSON input. */
  datatype JsonCrossing = JsonCrossing(trafficLights: bool, isIoNode: bool, connected: seq<(nat, U8)>)

  /** How `from_json` ends. */
  datatype JsonOutcome =
    | Loaded               // Ok(builder)
    | MissingNode          // JsonError: the connection points to no node
    | DuplicateConnection  // JsonError: the same connection twice
    | IndexPanic           // indexing the node list out of bounds
    | NotImplemented       // the `todo!` reached by any checked connection

  /** The nodes `from_json` creates: one per record, an IO node iff the
    * record says so, with the default id 0 and no connections. */
  function InitialNodes(recs: seq<JsonCrossing>): (r: seq<BuilderNode>)
    ensures |r| == |recs|
    ensures forall i :: 0 <= i < |recs| ==>
              r[i].id == 0 && Targets(r[i]) == [] &&
              (r[i].BIONode? <==> recs[i].isIoNode) && (r[i].BCrossing? <==> !recs[i].isIoNode)
  {
    if |recs| == 0 then []
    else [if recs[0].isIoNode then BIONode(0, []) else BCrossing(0, map[], map[])] + InitialNodes(recs[1..])
  }

  /** The first connection entry of the records, with its record's index. */
  function FirstEntry(recs: seq<JsonCrossing>, from: nat): (r: Option<(nat, (nat, U8))>)
    requires from <= |recs|
    ensures r.None? <==> forall k :: from <= k < |recs| ==> recs[k].connected == []
    ensures r.Some? ==>
              from <= r.value.0 < |recs| && recs[r.value.0].connected != [] &&
              r.value.1 == recs[r.value.0].connected[0] &&
              forall k :: from <= k < r.value.0 ==> recs[k].connected == []
    decreases |recs| - from
  {
    if from == |recs| then None
    else if recs[from].connected != [] then Some((from, recs[from].connected[0]))
    else FirstEntry(recs, from + 1)
  }

  /** The outcome of `from_json`: decided by the first connection entry.
    * `strict` chooses the index check: `>=` when set, the source's `>`
    * otherwise. */
  function JsonVerdict(recs: seq<JsonCrossing>, strict: bool): JsonOutcome
  {
    match FirstEntry(recs, 0)
      case None => Loaded
      case Some((i, (idx, _))) =>
        if (if strict then idx >= |recs| else idx > |recs|) then MissingNode
        else if idx >= |recs| then IndexPanic
        else if IsConnectedTo(InitialNodes(recs)[i], idx) then DuplicateConnection
        else NotImplemented
  }

  /** `from_json` succeeds exactly when no record lists a connection; every
    * listed connection that passes the index check reaches the `todo!`, so
    * the duplicate check can never fire. */
  lemma JsonVerdictCases(recs: seq<JsonCrossing>, strict: bool)
    ensures JsonVerdict(recs, strict) == Loaded <==> forall k :: 0 <= k < |recs| ==> recs[k].connected == []
    ensures JsonVerdict(recs, strict) != DuplicateConnection
    ensures FirstEntry(recs, 0).Some? && FirstEntry(recs, 0).value.1.0 < |recs| ==>
      JsonVerdict(recs, strict) == NotImplemented
  {
    match FirstEntry(recs, 0)
      case None =>
      case Some((i, (idx, _))) =>
        assert Targets(InitialNodes(recs)[i]) == [];
  }

  /** As written, an index equal to the number of records passes the check
    * and then indexes past the end of the node list. */
  lemma AsWrittenIndexPanics()
    ensures JsonVerdict([JsonCrossing(false, false, [(1, 1)])], false) == IndexPanic
  {
    var recs := [JsonCrossing(false, false, [(1, 1)])];
    assert FirstEntry(recs, 0) == Some((0, (1, 1)));
  }

  /** With the intended `>=` check no record can cause an index panic, and
    * an index equal to the number of records is reported as missing. */
  lemma CheckedNeverIndexPanics(recs: seq<JsonCrossing>)
    ensures JsonVerdict(recs, true) != IndexPanic
    ensures FirstEntry(recs, 0).Some? && FirstEntry(recs, 0).value.1.0 == |recs| ==>
      JsonVerdict(recs, true) == MissingNode
  {
  }

  /** The example of the documentation comment and of the
    * `simulation_builder_from_json` test: its first connection is in range,
    * so `from_json` reaches the `todo!` and the test's `unwrap` never runs. */
  lemma DocExampleNotImplemented()
    ensures JsonVerdict(DOC_EXAMPLE, false) == NotImplemented
  {
    assert FirstEntry(DOC_EXAMPLE, 0) == Some((0, (1, 1)));
    JsonVerdictCases(DOC_EXAMPLE, false);
  }

  const DOC_EXAMPLE: seq<JsonCrossing> := [
    JsonCrossing(false, false, [(1, 1)]),
    JsonCrossing(false, false, [(0, 1), (2, 1), (3, 1), (4, 1)]),
    JsonCrossing(false, false, [(1, 1), (3, 1), (4, 1), (5, 1)]),
    JsonCrossing(false, false, [(2, 1), (1, 1)]),
    JsonCrossing(false, false, [(1, 1), (2, 1)]),
    JsonCrossing(false, true, [(2, 1)])
  ]

  /** How `connect_with_street` ends. */
  datatype ConnectOutcome =
    | Connected
    | IndexError
    | ConnectionError(start: nat, end: nat, failedAtOut: bool)
    | Panicked

  class SimulatorBuilder {
    var nodes: seq<BuilderNode>
    var maxIter: Option<nat>
    var cache: Option<seq<SimNode>>
    var delay: nat

    /** `SimulatorBuilder::new()`: no nodes, no limit, no delay, no cache. */
    constructor ()
      ensures nodes == [] && maxIter == None && cache == None && delay == 0
    {
      nodes := [];
      maxIter := None;
      cache := None;
      delay := 0;
    }

    /** The cache, if there is one, is what a fresh build would produce. */
    predicate CacheCurrent()
      reads this
    {
      cache.Some? ==> BuiltNodes(nodes) == cache
    }

    /** `drop_cache()`. */
    method DropCache()
      modifies this
      ensures cache == None && CacheCurrent()
      ensures nodes == old(nodes) && maxIter == old(maxIter) && delay == old(delay)
    {
      cache := None;
    }

    /** `add_node(node)`: drops the cache, gives the node the id `len` and
      * appends it. */
    method AddNode(node: BuilderNode)
      modifies this
      ensures nodes == old(nodes) + [WithId(node, |old(nodes)|)]
      ensures cache == None && CacheCurrent()
      ensures maxIter == old(maxIter) && delay == old(delay)
      ensures IdsAreIndices(old(nodes)) ==> IdsAreIndices(nodes)
      ensures Linked(old(nodes)) && (forall k :: 0 <= k < |Targets(node)| ==> Targets(node)[k] <= |old(nodes)|) ==> Linked(nodes)
    {
      DropCache();
      nodes := nodes + [WithId(node, |nodes|)];
    }

    /** `delay(value)`. */
    method Delay(value: nat)
      modifies this
      ensures delay == value && nodes == old(nodes) && maxIter == old(maxIter) && cache == old(cache)
    {
      delay := value;
    }

    /** `max_iter(value)`. */
    method MaxIter(value: Option<nat>)
      modifies this
      ensures maxIter == value && nodes == old(nodes) && delay == old(delay) && cache == old(cache)
    {
      maxIter := value;
    }

    /** `get_node(i)`: a node of the list, None for the panic that indexing
      * past the end raises; when ids are positions, the node found has id
      * `i`. */
    function GetNode(i: nat): (r: Option<BuilderNode>)
      reads this
      ensures r.Some? <==> i < |nodes|
      ensures r.Some? ==> r.value in nodes
      ensures r.Some? && IdsAreIndices(nodes) ==> r.value.id == i
    {
      if i < |nodes| then Some(nodes[i]) else None
    }

    /** `connect_with_street((inode1, dir1), (inode2, dir2), lanes)`: a new
      * street of `lanes` lanes from node `inode1` to node `inode2` with id
      * `len`.  An IO node at the start lists the street, one at the end
      * gets no link; a crossing takes the street in the given slot.  A
      * taken slot is a `ConnectionError`, and a start already linked is not
      * rolled back when the end fails.  The cache is not dropped. */
    method ConnectWithStreet(nodeInfo1: (nat, Direction), nodeInfo2: (nat, Direction), lanes: U8)
      returns (r: ConnectOutcome)
      modifies this
      ensures maxIter == old(maxIter) && delay == old(delay) && cache == old(cache)
      ensures var (i1, d1, i2, d2) := (nodeInfo1.0, nodeInfo1.1, nodeInfo2.0, nodeInfo2.1);
        (i1 >= |old(nodes)| || i2 >= |old(nodes)| ==> r == IndexError && nodes == old(nodes)) &&
        (i1 < |old(nodes)| && i2 < |old(nodes)| ==>
          var s := |old(nodes)|;
          var n1 := old(nodes)[i1];
          var mid := old(nodes)[i1 := LinkOut(n1, d1, s)];
          var n2 := mid[i2];
          (n1.BStreet? ==> r == Panicked) &&
          (n1.BCrossing? && d1 in n1.output ==> r == ConnectionError(i1, i2, true) && nodes == old(nodes)) &&
          (!n1.BStreet? && !(n1.BCrossing? && d1 in n1.output) ==>
            (n2.BStreet? ==> r == Panicked) &&
            (n2.BCrossing? && s in n2.output.Values ==> r == Panicked) &&
            (n2.BCrossing? && s !in n2.output.Values && d2 in n2.input ==>
              r == ConnectionError(i1, i2, false) && nodes == mid) &&
            (n2.BIONode? ==> r == Connected && nodes == mid + [BStreet(s, lanes, Some(i1), Some(i2))]) &&
            (n2.BCrossing? && s !in n2.output.Values && d2 !in n2.input ==>
              r == Connected &&
              nodes == mid[i2 := BCrossing(n2.id, n2.input[d2 := s], n2.output)] + [BStreet(s, lanes, Some(i1), Some(i2))])))
    {
      var (inode1, dir1) := nodeInfo1;
      var (inode2, dir2) := nodeInfo2;
      if inode1 >= |nodes| || inode2 >= |nodes| {
        return IndexError;
      }
      var streetId := |nodes|;
      var street := BStreet(streetId, lanes, Some(inode1), Some(inode2));
      match nodes[inode1] {
        case BIONode(id, ls) =>
          nodes := nodes[inode1 := BIONode(id, ls + [streetId])];
        case BCrossing(id, i, o) =>
          if dir1 in o {
            return ConnectionError(inode1, inode2, true);
          }
          nodes := nodes[inode1 := BCrossing(id, i, o[dir1 := streetId])];
        case BStreet(_, _, _, _) =>
          return Panicked;
      }
      match nodes[inode2] {
        case BIONode(_, _) =>
        case BCrossing(id, i, o) =>
          if streetId in o.Values {
            return Panicked;
          }
          if dir2 in i {
            return ConnectionError(inode1, inode2, false);
          }
          nodes := nodes[inode2 := BCrossing(id, i[dir2 := streetId], o)];
        case BStreet(_, _, _, _) =>
          return Panicked;
      }
      nodes := nodes + [street];
      r := Connected;
    }

    /** `build()`: the cached nodes if there are any, otherwise freshly built
      * nodes, which are then cached; `None` where the source panics on a
      * dangling connection. */
    method Build() returns (r: Option<Simulator>)
      modifies this
      ensures nodes == old(nodes) && maxIter == old(maxIter) && delay == old(delay)
      ensures old(cache).Some? ==> r == Some(Simulator(old(cache).value, maxIter, delay)) && cache == old(cache)
      ensures old(cache).None? && BuiltNodes(nodes).Some? ==>
        r == Some(Simulator(BuiltNodes(nodes).value, maxIter, delay)) && cache == BuiltNodes(nodes)
      ensures old(cache).None? && BuiltNodes(nodes).None? ==> r == None
      ensures old(CacheCurrent()) ==> CacheCurrent()
    {
      if cache.Some? {
        return Some(Simulator(cache.value, maxIter, delay));
      }
      var built := BuildNodes(nodes);
      if built.None? {
        return None;
      }
      cache := built;
      r := Some(Simulator(built.value, maxIter, delay));
    }
  }

  /** The two loops of a fresh `build`: build every node unconnected, then
    * connect node i to the node with the id of each of its targets. */
  method BuildNodes(nodes: seq<BuilderNode>) returns (r: Option<seq<SimNode>>)
    ensures r == BuiltNodes(nodes)
  {
    var simNodes := BlankNodes(nodes);
    var i := 0;
    while i < |nodes|
      invariant 0 <= i <= |nodes| && |simNodes| == |nodes|
      invariant BuiltPrefix(nodes, i) == Some(simNodes[..i])
      invariant forall k :: i <= k < |nodes| ==> simNodes[k] == SimNode(KindOf(nodes[k]), [])
    {
      var next := ConnectAt(nodes, i, simNodes);
      if next.None? {
        return None;
      }
      simNodes := next.value;
      i := i + 1;
    }
    assert simNodes[..i] == simNodes;
    r := Some(simNodes);
  }

  /** One round of the second loop: node i connected to its targets' ids,
    * or `None` when one of them lies outside the list. */
  method ConnectAt(nodes: seq<BuilderNode>, i: nat, simNodes: seq<SimNode>) returns (r: Option<seq<SimNode>>)
    requires i < |nodes| == |simNodes| && BuiltPrefix(nodes, i) == Some(simNodes[..i])
    requires forall k :: i <= k < |nodes| ==> simNodes[k] == SimNode(KindOf(nodes[k]), [])
    ensures r.None? ==> BuiltNodes(nodes).None?
    ensures r.Some? ==> |r.value| == |nodes| && BuiltPrefix(nodes, i + 1) == Some(r.value[..i + 1])
    ensures r.Some? ==> forall k :: i + 1 <= k < |nodes| ==> r.value[k] == SimNode(KindOf(nodes[k]), [])
  {
    var w := WireNode(nodes, Targets(nodes[i]));
    if w.None? {
      NoneStaysNone(nodes, i + 1);
      return None;
    }
    var next := simNodes[i := SimNode(simNodes[i].kind, w.value)];
    assert next[..i + 1] == simNodes[..i] + [SimNode(KindOf(nodes[i]), w.value)];
    BuiltPrefixStep(nodes, i, simNodes[..i], w.value);
    r := Some(next);
  }

  lemma BuiltPrefixStep(nodes: seq<BuilderNode>, i: nat, front: seq<SimNode>, w: seq<nat>)
    requires i < |nodes| && BuiltPrefix(nodes, i) == Some(front)
    requires WiredTo(nodes, Targets(nodes[i])) == Some(w)
    ensures BuiltPrefix(nodes, i + 1) == Some(front + [SimNode(KindOf(nodes[i]), w)])
  {
  }

  /** The first loop of `build`: every node built, none connected yet. */
  method BlankNodes(nodes: seq<BuilderNode>) returns (simNodes: seq<SimNode>)
    ensures |simNodes| == |nodes|
    ensures forall k :: 0 <= k < |nodes| ==> simNodes[k] == SimNode(KindOf(nodes[k]), [])
  {
    simNodes := [];
    var i := 0;
    while i < |nodes|
      invariant 0 <= i <= |nodes| && |simNodes| == i
      invariant forall k :: 0 <= k < i ==> simNodes[k] == SimNode(KindOf(nodes[k]), [])
    {
      simNodes := simNodes + [SimNode(KindOf(nodes[i]), [])];
      i := i + 1;
    }
  }

  /** The inner loop: the id of every target, `None` at the first target
    * outside the list. */
  method WireNode(nodes: seq<BuilderNode>, ts: seq<nat>) returns (r: Option<seq<nat>>)
    ensures r == WiredTo(nodes, ts)
  {
    var ids: seq<nat> := [];
    var k := 0;
    while k < |ts|
      invariant 0 <= k <= |ts|
      invariant WiredTo(nodes, ts[..k]) == Some(ids)
    {
      if ts[k] >= |nodes| || nodes[ts[k]].id >= |nodes| {
        WiredExtend(nodes, ts[..k], ts[k]);
        assert ts[..k + 1] == ts[..k] + [ts[k]];
        WiredPrefixNone(nodes, ts, k + 1);
        return None;
      }
      WiredExtend(nodes, ts[..k], ts[k]);
      assert ts[..k + 1] == ts[..k] + [ts[k]];
      ids := ids + [nodes[ts[k]].id];
      k := k + 1;
    }
    assert ts[..k] == ts;
    r := Some(ids);
  }

  lemma {:induction false} WiredExtend(nodes: seq<BuilderNode>, ts: seq<nat>, t: nat)
    ensures WiredTo(nodes, ts + [t]) ==
      if t < |nodes| && nodes[t].id < |nodes| then
        (match WiredTo(nodes, ts) case None => None case Some(w) => Some(w + [nodes[t].id]))
      else None
  {
    if |ts| > 0 {
      assert (ts + [t])[0] == ts[0];
      assert (ts + [t])[1..] == ts[1..] + [t];
      WiredExtend(nodes, ts[1..], t);
      if ts[0] < |nodes| && nodes[ts[0]].id < |nodes| && t < |nodes| && nodes[t].id < |nodes| {
        match WiredTo(nodes, ts[1..])
          case None =>
          case Some(w) =>
            assert [nodes[ts[0]].id] + (w + [nodes[t].id]) == ([nodes[ts[0]].id] + w) + [nodes[t].id];
      }
    } else {
      assert ts == [] && ts + [t] == [t];
      assert [t][1..] == [];
      assert WiredTo(nodes, ts) == Some([]);
      if t < |nodes| && nodes[t].id < |nodes| {
        assert WiredTo(nodes, [t]) == Some([nodes[t].id] + []);
        assert [] + [nodes[t].id] == [nodes[t].id] + [];
      }
    }
  }

  lemma WiredPrefixNone(nodes: seq<BuilderNode>, ts: seq<nat>, k: nat)
    requires k <= |ts| && WiredTo(nodes, ts[..k]).None?
    ensures WiredTo(nodes, ts).None?
  {
    WiredToDefined(nodes, ts[..k]);
    WiredToDefined(nodes, ts);
    var j :| 0 <= j < k && !(ts[..k][j] < |nodes| && nodes[ts[..k][j]].id < |nodes|);
    assert ts[j] == ts[..k][j];
  }

  lemma {:induction false} NoneStaysNone(nodes: seq<BuilderNode>, k: nat)
    requires 0 < k <= |nodes|
    requires BuiltPrefix(nodes, k).None? || WiredTo(nodes, Targets(nodes[k - 1])).None?
    ensures BuiltNodes(nodes).None?
    decreases |nodes| - k
  {
    if k < |nodes| {
      NoneStaysNone(nodes, k + 1);
    }
  }

  /** The `connect_with_streets` test: an IO node and a crossing joined by a
    * two-lane street, then a street from the crossing to node 2, which is
    * that street; the second call reaches the "street with street" panic. */
  method ConnectWithStreetsScenario() returns (r1: ConnectOutcome, r2: ConnectOutcome)
    ensures r1 == Connected && r2 == Panicked
  {
    var b := new SimulatorBuilder();
    b.AddNode(BIONode(0, []));
    b.AddNode(BCrossing(0, map[], map[]));
    r1 := b.ConnectWithStreet((0, NB.E), (1, NB.W), 2);
    r2 := b.ConnectWithStreet((1, NB.S), (2, NB.N), 3);
  }

  /** The validation loops of `from_json` over the freshly created nodes;
    * `strict` chooses the index check.  Every entry that passes the checks
    * returns at the `todo!`, as does the source. */
  method ValidateRecords(recs: seq<JsonCrossing>, strict: bool) returns (r: JsonOutcome)
    ensures r == JsonVerdict(recs, strict)
  {
    var initalNodes := |recs|;
    var i := 0;
    while i < |recs|
      invariant 0 <= i <= |recs|
      invariant FirstEntry(recs, 0) == FirstEntry(recs, i)
    {
      // the body of the loop over `connected` returns in every case, so
      // only the first entry of a record is ever examined
      if recs[i].connected != [] {
        var connectionIndex := recs[i].connected[0].0;
        r := CheckEntry(recs, i, connectionIndex, strict);
        return;
      }
      i := i + 1;
    }
    r := Loaded;
  }

  /** The checks of one connection entry of record `i`. */
  method CheckEntry(recs: seq<JsonCrossing>, i: nat, connectionIndex: nat, strict: bool) returns (r: JsonOutcome)
    requires i < |recs| && recs[i].connected != [] && connectionIndex == recs[i].connected[0].0
    requires FirstEntry(recs, 0) == FirstEntry(recs, i)
    ensures r == JsonVerdict(recs, strict)
  {
    var initalNodes := |recs|;
    if (if strict then connectionIndex >= initalNodes else connectionIndex > initalNodes) {
      return MissingNode;
    }
    if connectionIndex >= initalNodes {
      return IndexPanic;
    }
    if IsConnectedTo(InitialNodes(recs)[i], connectionIndex) {
      return DuplicateConnection;
    }
    return NotImplemented;
  }

  lemma {:induction false} FirstEntrySkips(recs: seq<JsonCrossing>, from: nat, to: nat)
    requires from <= to <= |recs|
    requires forall k :: from <= k < to ==> recs[k].connected == []
    ensures FirstEntry(recs, from) == FirstEntry(recs, to)
    decreases |recs| - from
  {
    if from < to {
      FirstEntrySkips(recs, from + 1, to);
    }
  }

  /** `from_json` as written: one node per record and the `>` index check. */
  method FromJson(recs: seq<JsonCrossing>) returns (r: JsonOutcome, b: SimulatorBuilder)
    ensures fresh(b) && b.nodes == InitialNodes(recs)
    ensures b.cache == None && b.maxIter == None && b.delay == 0
    ensures r == JsonVerdict(recs, false)
  {
    b := new SimulatorBuilder();
    b.nodes := InitialNodes(recs);
    r := ValidateRecords(recs, false);
  }

  /** `from_json` with the evidently intended `>=` index check. */
  method FromJsonChecked(recs: seq<JsonCrossing>) returns (r: JsonOutcome, b: SimulatorBuilder)
    ensures fresh(b) && b.nodes == InitialNodes(recs)
    ensures b.cache == None && b.maxIter == None && b.delay == 0
    ensures r == JsonVerdict(recs, true) && r != IndexPanic
  {
    b := new SimulatorBuilder();
    b.nodes := InitialNodes(recs);
    r := ValidateRecords(recs, true);
    CheckedNeverIndexPanics(recs);
  }
}
