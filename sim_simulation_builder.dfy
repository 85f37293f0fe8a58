/**
 * The simulator builder (simulator/src/simulation_builder.rs): a list of
 * shared node builders, the id counter that numbers them, the street
 * connection of two nodes, the cascading removal of a node, and the
 * translation between builders and their id-based JSON records.
 */
module SimSimulationBuilder {
  import opened Wrappers
  import opened SimNodeBuilder
  import opened SimCascade

  /** Every object of every builder of a list. */
  function ObjectsOfAll(ns: seq<NodeBuilder>): set<object>
  {
    if ns == [] then {} else ObjectsOf(ns[0]) + ObjectsOfAll(ns[1..])
  }

  /** No two entries of the list share an object: each builder is its own
    * shared cell, as the reference-counted cells guarantee. */
  predicate Disjoint(ns: seq<NodeBuilder>)
  {
    ns == [] || (ObjectsOf(ns[0]) !! ObjectsOfAll(ns[1..]) && Disjoint(ns[1..]))
  }

  /** The ids of a list of builders, in order. */
  function IdsOf(ns: seq<NodeBuilder>): (r: seq<nat>)
    reads ObjectsOfAll(ns)
    ensures |r| == |ns|
  {
    if ns == [] then [] else [IdOf(ns[0])] + IdsOf(ns[1..])
  }

  lemma {:induction false} IdsOfAt(ns: seq<NodeBuilder>, k: nat)
    requires k < |ns|
    ensures IdsOf(ns)[k] == IdOf(ns[k])
  {
    if k > 0 {
      IdsOfAt(ns[1..], k - 1);
    }
  }

  /** The ids strictly increase and are all below `bound`. */
  predicate IncreasingBelow(ids: seq<nat>, bound: nat)
  {
    (forall i, j :: 0 <= i < j < |ids| ==> ids[i] < ids[j]) &&
    (forall i :: 0 <= i < |ids| ==> ids[i] < bound)
  }

  /** Appending the current counter and then advancing it keeps the ids increasing. */
  lemma IncreasingAppend(ids: seq<nat>, bound: nat)
    requires IncreasingBelow(ids, bound)
    ensures IncreasingBelow(ids + [bound], bound + 1)
  {
  }

  /** Distinct positions of increasing ids hold distinct ids. */
  lemma IncreasingUnique(ids: seq<nat>, bound: nat, i: nat, j: nat)
    requires IncreasingBelow(ids, bound) && i < |ids| && j < |ids| && i != j
    ensures ids[i] != ids[j]
  {
  }

  /** The connections of a list of builders, in order. */
  function ViewsOf(ns: seq<NodeBuilder>): (r: seq<ConnView>)
    reads ObjectsOfAll(ns)
    ensures |r| == |ns|
  {
    if ns == [] then [] else [View(ns[0])] + ViewsOf(ns[1..])
  }

  /** A change that keeps the id of every entry keeps the list of ids. */
  twostate lemma {:induction false} IdsKept(ns: seq<NodeBuilder>)
    requires forall k :: 0 <= k < |ns| ==> IdOf(ns[k]) == old(IdOf(ns[k]))
    ensures IdsOf(ns) == old(IdsOf(ns))
  {
    if ns != [] {
      assert forall k :: 0 <= k < |ns[1..]| ==> ns[1..][k] == ns[k + 1];
      IdsKept(ns[1..]);
    }
  }

  /** A change that keeps the connections of every entry keeps the list of them. */
  twostate lemma {:induction false} ViewsKept(ns: seq<NodeBuilder>)
    requires forall k :: 0 <= k < |ns| ==> View(ns[k]) == old(View(ns[k]))
    ensures ViewsOf(ns) == old(ViewsOf(ns))
  {
    if ns != [] {
      assert forall k :: 0 <= k < |ns[1..]| ==> ns[1..][k] == ns[k + 1];
      ViewsKept(ns[1..]);
    }
  }

  lemma {:induction false} ViewsOfAt(ns: seq<NodeBuilder>, k: nat)
    requires k < |ns|
    ensures ViewsOf(ns)[k] == View(ns[k])
  {
    if k > 0 {
      ViewsOfAt(ns[1..], k - 1);
    }
  }

  /** The first index holding `id`, or None. */
  function FindId(ids: seq<nat>, id: nat): (r: Option<nat>)
    ensures r.Some? ==> r.value < |ids| && ids[r.value] == id
    ensures r.Some? ==> forall k :: 0 <= k < r.value ==> ids[k] != id
    ensures r.None? <==> id !in ids
  {
    if ids == [] then None
    else if ids[0] == id then Some(0)
    else match FindId(ids[1..], id)
      case None => None
      case Some(k) => Some(k + 1)
  }

  /** The search of `connect_with_street` from index `i` on, with what has
    * been found so far: a match of `id1` is recorded, otherwise a match of
    * `id2`; the search stops once both are known. */
  function LocateFrom(ids: seq<nat>, id1: nat, id2: nat, i: nat, a1: Option<nat>, a2: Option<nat>): (Option<nat>, Option<nat>)
    requires i <= |ids|
    decreases |ids| - i
  {
    if i == |ids| then (a1, a2)
    else
      var b1 := if ids[i] == id1 then Some(i) else a1;
      var b2 := if ids[i] != id1 && ids[i] == id2 then Some(i) else a2;
      if b1.Some? && b2.Some? then (b1, b2) else LocateFrom(ids, id1, id2, i + 1, b1, b2)
  }

  function LocateEnds(ids: seq<nat>, id1: nat, id2: nat): (Option<nat>, Option<nat>)
  {
    LocateFrom(ids, id1, id2, 0, None, None)
  }

  lemma {:induction false} LocateFromSpec(ids: seq<nat>, id1: nat, id2: nat, i: nat, a1: Option<nat>, a2: Option<nat>)
    requires i <= |ids|
    requires a1.Some? ==> a1.value < i && ids[a1.value] == id1
    requires a2.Some? ==> a2.value < i && ids[a2.value] == id2 && id2 != id1
    requires a1.None? <==> id1 !in ids[..i]
    requires a2.None? <==> id2 !in ids[..i] || id1 == id2
    ensures var r := LocateFrom(ids, id1, id2, i, a1, a2);
      (r.0.Some? ==> r.0.value < |ids| && ids[r.0.value] == id1) &&
      (r.1.Some? ==> r.1.value < |ids| && ids[r.1.value] == id2 && id2 != id1) &&
      (r.0.None? <==> id1 !in ids) &&
      (r.1.None? <==> id2 !in ids || id1 == id2)
    decreases |ids| - i
  {
    if i == |ids| {
      assert ids[..i] == ids;
    } else {
      assert ids[..i + 1] == ids[..i] + [ids[i]];
      var b1 := if ids[i] == id1 then Some(i) else a1;
      var b2 := if ids[i] != id1 && ids[i] == id2 then Some(i) else a2;
      if !(b1.Some? && b2.Some?) {
        LocateFromSpec(ids, id1, id2, i + 1, b1, b2);
      }
    }
  }

  /** The ends found by `connect_with_street` name nodes with the requested
    * ids; an end is missing exactly when its id is absent, and the second
    * is also missing when both ids are equal, because the search records a
    * node as the second end only when it is not a match for the first. */
  lemma LocateEndsSpec(ids: seq<nat>, id1: nat, id2: nat)
    ensures var r := LocateEnds(ids, id1, id2);
      (r.0.Some? ==> r.0.value < |ids| && ids[r.0.value] == id1) &&
      (r.1.Some? ==> r.1.value < |ids| && ids[r.1.value] == id2) &&
      (r.0.None? <==> id1 !in ids) &&
      (r.1.None? <==> id2 !in ids || id1 == id2)
  {
    LocateFromSpec(ids, id1, id2, 0, None, None);
  }

  /** Connecting a node to itself is refused as if it did not exist. */
  lemma SelfConnectionNotFound(ids: seq<nat>, id: nat)
    ensures LocateEnds(ids, id, id).1.None?
  {
    LocateEndsSpec(ids, id, id);
  }

  datatype BuildError =
    | IndexError
    | ConnectionError(start: nat, end: nat, failedAt: InOut)
    | StreetToStreetPanic

  /** The result of a removal: the removed builders, or the error. */
  datatype Removal = Removed(builders: seq<NodeBuilder>) | RemoveFailed(message: string)

  datatype ConnectResult = Connected(street: NodeBuilder) | Failed(error: BuildError)

  /** How far `connect_with_street` gets once both ends are found, from the
    * connections of the start and of the end. */
  datatype Stage = PanicAtStart | SlotTakenAtStart | PanicAtEnd | SlotTakenAtEnd | BothLinked

  function StageOf(v1: ConnView, dir1: Direction, v2: ConnView, dir2: Direction): Stage
  {
    if v1.StreetView? then PanicAtStart
    else if v1.CrossingView? && dir1 in v1.output then SlotTakenAtStart
    else if v2.StreetView? then PanicAtEnd
    else if v2.CrossingView? && dir2 in v2.input then SlotTakenAtEnd
    else BothLinked
  }

  function ErrorOf(st: Stage, start: nat, end: nat): BuildError
  {
    match st
      case PanicAtStart => StreetToStreetPanic
      case PanicAtEnd => StreetToStreetPanic
      case SlotTakenAtStart => ConnectionError(start, end, OUT)
      case SlotTakenAtEnd => ConnectionError(start, end, IN)
      case BothLinked => IndexError
  }

  /** The start of a new street: an IONode lists it as outgoing, a crossing
    * puts it in the outgoing slot `dir`. */
  function LinkedAtStart(v: ConnView, dir: Direction, s: NodeBuilder): ConnView
  {
    match v
      case IOView(outs, ins) => IOView(outs + [s], ins)
      case CrossingView(i, o) => CrossingView(i, o[dir := s])
      case StreetView(_, _) => v
  }

  /** The end of a new street: a crossing puts it in the incoming slot
    * `dir`; an IONode lists it as OUTGOING as well, as the source does. */
  function LinkedAtEnd(v: ConnView, dir: Direction, s: NodeBuilder): ConnView
  {
    match v
      case IOView(outs, ins) => IOView(outs + [s], ins)
      case CrossingView(i, o) => CrossingView(i[dir := s], o)
      case StreetView(_, _) => v
  }

  class SimulatorBuilder {
    var nodes: seq<NodeBuilder>
    var maxIter: Option<nat>
    /** Whether a built node list is cached; its contents are not modelled. */
    var hasCache: bool
    var delay: nat
    var nextId: nat
    var dt: real
    var speedToCo2: real

    /** The objects of all listed builders. */
    function Repr(): set<object>
      reads this
    {
      ObjectsOfAll(nodes)
    }

    /** Each listed builder is its own set of objects. */
    predicate Owned()
      reads this
    {
      Disjoint(nodes)
    }

    /** Ids strictly increase along the list and are all below `nextId`. */
    predicate IdsIncreasing()
      reads this, Repr()
    {
      IncreasingBelow(IdsOf(nodes), nextId)
    }

    /** `SimulatorBuilder::new()`. */
    constructor ()
      ensures nodes == [] && maxIter == None && !hasCache
      ensures delay == 0 && nextId == 0 && dt == 0.1 && speedToCo2 == 0.5
      ensures Owned() && IdsIncreasing() && WellFormed(ViewsOf(nodes), nodes)
    {
      nodes := [];
      maxIter := None;
      hasCache := false;
      delay := 0;
      nextId := 0;
      dt := 0.1;
      speedToCo2 := 0.5;
    }

    /** `add_node(node)`: drops the cache, gives the node the next id and
      * appends it. The node is moved in, so it shares no object with the
      * listed builders. */
    method AddNode(node: NodeBuilder) returns (r: NodeBuilder)
      requires ObjectsOf(node) !! Repr()
      requires Owned()
      modifies this, ObjectsOf(node)
      ensures r == node && nodes == old(nodes) + [node]
      ensures IdOf(node) == old(nextId) && nextId == old(nextId) + 1
      ensures View(node) == old(View(node)) && !hasCache
      ensures forall k :: 0 <= k < |old(nodes)| ==> IdOf(nodes[k]) == old(IdOf(nodes[k]))
      ensures forall k :: 0 <= k < |old(nodes)| ==> View(nodes[k]) == old(View(nodes[k]))
      ensures Owned()
      ensures old(IdsIncreasing()) ==> IdsIncreasing()
      ensures old(WellFormed(ViewsOf(nodes), nodes)) && ViewTargets(View(node)) == [] ==>
        WellFormed(old(ViewsOf(nodes)) + [View(node)], nodes)
      ensures maxIter == old(maxIter) && delay == old(delay) && dt == old(dt) && speedToCo2 == old(speedToCo2)
    {
      BuilderApart(nodes, this);
      var ns := AppendWithId(nodes, node, nextId, ObjectsOf(node), ViewsOf(nodes));
      BuilderApart(ns, this);
      hasCache := false;
      nextId := nextId + 1;
      nodes := ns;
      r := node;
    }

    /** `with_delay(value)`. */
    method WithDelay(value: nat) returns (r: SimulatorBuilder)
      modifies this
      ensures r == this && delay == value
      ensures nodes == old(nodes) && nextId == old(nextId) && maxIter == old(maxIter) && dt == old(dt)
    {
      delay := value;
      r := this;
    }

    /** `with_dt(value)`. */
    method WithDt(value: real) returns (r: SimulatorBuilder)
      modifies this
      ensures r == this && dt == value
      ensures nodes == old(nodes) && nextId == old(nextId) && maxIter == old(maxIter) && delay == old(delay)
    {
      dt := value;
      r := this;
    }

    /** `with_max_iter(value)`. */
    method WithMaxIter(value: Option<nat>) returns (r: SimulatorBuilder)
      modifies this
      ensures r == this && maxIter == value
      ensures nodes == old(nodes) && nextId == old(nextId) && delay == old(delay) && dt == old(dt)
    {
      maxIter := value;
      r := this;
    }

    /** `drop_cache()`. */
    method DropCache()
      modifies this
      ensures !hasCache
      ensures nodes == old(nodes) && nextId == old(nextId) && maxIter == old(maxIter)
      ensures delay == old(delay) && dt == old(dt)
    {
      hasCache := false;
    }

    /** `get_node(i)`: the first listed builder whose id is `id`, or None. */
    method GetNode(id: nat) returns (r: Option<NodeBuilder>)
      ensures r == match FindId(IdsOf(nodes), id)
                     case None => None
                     case Some(k) => Some(nodes[k])
    {
      var ids := IdsOf(nodes);
      var k := 0;
      while k < |nodes|
        invariant 0 <= k <= |nodes|
        invariant forall m :: 0 <= m < k ==> ids[m] != id
      {
        if ids[k] == id {
          FindIdFirst(ids, id, k);
          return Some(nodes[k]);
        }
        k := k + 1;
      }
      return None;
    }

    /** `connect_with_street((id1, dir1), (id2, dir2), lanes, length)`:
      * finds both ends, creates a street from the first to the second with
      * the next id, links it into the start and into the end, and appends
      * it. A missing end is an IndexError with no effect. Once both ends are
      * found the id is spent; a taken crossing slot is a ConnectionError
      * that leaves what was linked before it in place; a street as an end
      * makes the source panic. */
    method ConnectWithStreet(nodeInfo1: (nat, Direction), nodeInfo2: (nat, Direction), lanes: U8, streetLength: real)
      returns (r: ConnectResult)
      requires Owned()
      modifies this, Repr()
      ensures Owned()
      ensures maxIter == old(maxIter) && delay == old(delay) && dt == old(dt) && hasCache == old(hasCache)
      ensures IdsOf(old(nodes)) == old(IdsOf(nodes))
      ensures var ends := LocateEnds(old(IdsOf(nodes)), nodeInfo1.0, nodeInfo2.0);
        (ends.0.None? || ends.1.None?) ==>
          r == Failed(IndexError) && nodes == old(nodes) && nextId == old(nextId) &&
          ViewsOf(nodes) == old(ViewsOf(nodes))
      ensures var ends := LocateEnds(old(IdsOf(nodes)), nodeInfo1.0, nodeInfo2.0);
        StreetsKept(old(nodes), if ends.0.Some? && ends.1.Some? then {ends.0.value, ends.1.value} else {})
      ensures var ends := LocateEnds(old(IdsOf(nodes)), nodeInfo1.0, nodeInfo2.0);
        (ends.0.Some? && ends.1.Some?) ==>
          var k1, k2 := ends.0.value, ends.1.value;
          k1 < |old(nodes)| && k2 < |old(nodes)| && k1 != k2 &&
          var n1, n2 := old(nodes)[k1], old(nodes)[k2];
          var st := StageOf(old(View(n1)), nodeInfo1.1, old(View(n2)), nodeInfo2.1);
          nextId == old(nextId) + 1 &&
          (forall k :: 0 <= k < |old(nodes)| && k != k1 && k != k2 ==> View(old(nodes)[k]) == old(View(nodes[k]))) &&
          (st != BothLinked ==> r == Failed(ErrorOf(st, k1, k2)) && nodes == old(nodes) && View(n2) == old(View(n2))) &&
          (st == PanicAtStart || st == SlotTakenAtStart ==> View(n1) == old(View(n1))) &&
          (st == PanicAtEnd || st == SlotTakenAtEnd ==>
            exists s: StreetBuilder :: fresh(s) && View(n1) == LinkedAtStart(old(View(n1)), nodeInfo1.1, Street(s))) &&
          (st == BothLinked ==>
            r.Connected? && r.street.Street? && fresh(r.street.street) &&
            nodes == old(nodes) + [r.street] &&
            r.street.street.connIn == Some(n1) && r.street.street.connOut == Some(n2) &&
            r.street.street.lanes == lanes && r.street.street.laneLength == streetLength &&
            r.street.street.id == old(nextId) &&
            View(n1) == LinkedAtStart(old(View(n1)), nodeInfo1.1, r.street) &&
            View(n2) == LinkedAtEnd(old(View(n2)), nodeInfo2.1, r.street))
      ensures old(IdsIncreasing()) ==> IdsIncreasing()
      ensures var ends := LocateEnds(old(IdsOf(nodes)), nodeInfo1.0, nodeInfo2.0);
        old(WellFormed(ViewsOf(nodes), nodes)) && r.Connected? ==>
          ends.0.Some? && ends.1.Some? && ends.0.value < |old(nodes)| && ends.1.value < |old(nodes)| &&
          WellFormed(LinkedViews(old(ViewsOf(nodes)), old(nodes), ends.0.value, nodeInfo1.1, ends.1.value, nodeInfo2.1, r.street), nodes)
    {
      var (idnode1, dir1) := nodeInfo1;
      var (idnode2, dir2) := nodeInfo2;
      // make sure both nodes exist and get their indices
      ghost var ids := IdsOf(nodes);
      ghost var views := ViewsOf(nodes);
      assert ids == old(IdsOf(nodes)) && views == old(ViewsOf(nodes));
      var inode1, inode2 := FindEnds(idnode1, idnode2);
      IdsKept(nodes);
      ViewsKept(nodes);
      ghost var ends := LocateEnds(ids, idnode1, idnode2);
      assert inode1 == ends.0 && inode2 == ends.1;
      LocateEndsSpec(ids, idnode1, idnode2);
      if inode1.None? || inode2.None? {
        return Failed(IndexError);
      }
      var k1 := inode1.value;
      var k2 := inode2.value;
      InObjectsOfAll(nodes, k1);
      InObjectsOfAll(nodes, k2);
      OtherStreetsApart(nodes, k1, k2);
      r := ConnectFound(k1, dir1, k2, dir2, lanes, streetLength);
    }

    /** `connect_with_street` once both ends are found at `k1` and `k2`. */
    method ConnectFound(k1: nat, dir1: Direction, k2: nat, dir2: Direction, lanes: U8, streetLength: real)
      returns (r: ConnectResult)
      requires Owned() && k1 < |nodes| && k2 < |nodes| && k1 != k2
      modifies this, ObjectsOf(nodes[k1]), ObjectsOf(nodes[k2])
      ensures Owned()
      ensures maxIter == old(maxIter) && delay == old(delay) && dt == old(dt) && hasCache == old(hasCache)
      ensures IdsOf(old(nodes)) == old(IdsOf(nodes))
      ensures nextId == old(nextId) + 1
      ensures forall k :: 0 <= k < |old(nodes)| && k != k1 && k != k2 ==> View(old(nodes)[k]) == old(View(nodes[k]))
      ensures ConnectOutcome(old(nodes), k1, dir1, k2, dir2, lanes, streetLength, old(nextId), r, nodes)
      ensures var st := StageOf(old(View(nodes[k1])), dir1, old(View(nodes[k2])), dir2);
        st == PanicAtEnd || st == SlotTakenAtEnd ==>
          exists s: StreetBuilder :: fresh(s) && View(old(nodes)[k1]) == LinkedAtStart(old(View(nodes[k1])), dir1, Street(s))
      ensures old(IdsIncreasing()) ==> IdsIncreasing()
      ensures old(WellFormed(ViewsOf(nodes), nodes)) && r.Connected? ==>
        WellFormed(LinkedViews(old(ViewsOf(nodes)), old(nodes), k1, dir1, k2, dir2, r.street), nodes)
    {
      var id := nextId;
      var ns;
      BuilderApart(nodes, this);
      r, ns := ConnectInto(nodes, k1, dir1, k2, dir2, lanes, streetLength, id, ObjectsOf(nodes[k1]) + ObjectsOf(nodes[k2]), ViewsOf(nodes));
      BuilderApart(ns, this);
      nodes, nextId := ns, id + 1;
    }

    /** The search loop of `connect_with_street`: the index of a node with
      * `id1` and of another node with `id2`. */
    method FindEnds(id1: nat, id2: nat) returns (inode1: Option<nat>, inode2: Option<nat>)
      ensures (inode1, inode2) == LocateEnds(IdsOf(nodes), id1, id2)
    {
      var ids := IdsOf(nodes);
      inode1 := None;
      inode2 := None;
      var i := 0;
      while i < |nodes|
        invariant 0 <= i <= |nodes|
        invariant LocateFrom(ids, id1, id2, i, inode1, inode2) == LocateEnds(ids, id1, id2)
      {
        if ids[i] == id1 {
          inode1 := Some(i);
        } else if ids[i] == id2 {
          inode2 := Some(i);
        }
        if inode1.Some? && inode2.Some? {
          break;
        }
        i := i + 1;
      }
    }

    /** What `remove_node(i, cascade)` leaves behind, from the state before
      * it: entry `i` is taken out; unless `cascade` is off or it is a
      * street, so are the remaining builders it was connected to, each
      * after it was scrubbed from the builders it links to; the removed
      * builders are returned, `ns[i]` first and the others from the
      * rightmost. */
    twostate predicate RemovesAt(i: nat, cascade: bool, new r: Removal)
      reads this, Repr()
    {
      i < |old(nodes)| &&
      var node := old(nodes)[i];
      var rest := old(nodes)[..i] + old(nodes)[i + 1..];
      var rv := old(ViewsOf(nodes))[..i] + old(ViewsOf(nodes))[i + 1..];
      var conns := ViewTargets(old(View(node)));
      if !cascade || node.Street? then
        r == Removed([node]) && nodes == rest && ViewsOf(nodes) == rv
      else
        r == Removed([node] + Reversed(Chosen(rest, conns))) && nodes == Unpicked(rest, conns) &&
        ViewsOf(nodes) == Kept(CascadeFrom(rv, rest, conns, node, 0), rest, conns)
    }

    /** `remove_node(node_index, remove_connections)`. The upgrade of a
      * connection that is not listed makes the source panic; the model
      * asks for a closed list whenever the cascade runs. */
    method RemoveNode(nodeIndex: nat, removeConnections: bool) returns (r: Removal)
      requires Owned()
      requires nodeIndex < |nodes| && removeConnections && !nodes[nodeIndex].Street? ==> Closed(ViewsOf(nodes), nodes)
      modifies this, Repr()
      ensures nodeIndex >= |old(nodes)| ==>
        r == RemoveFailed("Node index out of bounds") && nodes == old(nodes) && ViewsOf(nodes) == old(ViewsOf(nodes))
      ensures nodeIndex < |old(nodes)| ==> RemovesAt(nodeIndex, removeConnections, r)
      ensures (old(WellFormed(ViewsOf(nodes), nodes)) && nodeIndex < |old(nodes)| && removeConnections &&
               !old(nodes)[nodeIndex].Street?) ==> WellFormed(ViewsOf(nodes), nodes)
      ensures Owned() && (old(IdsIncreasing()) ==> IdsIncreasing())
      ensures nextId == old(nextId) && hasCache == old(hasCache) && maxIter == old(maxIter)
      ensures delay == old(delay) && dt == old(dt) && speedToCo2 == old(speedToCo2)
    {
      if nodeIndex >= |nodes| {
        return RemoveFailed("Node index out of bounds");
      }
      if !removeConnections || nodes[nodeIndex].Street? {
        r := RemoveAlone(nodeIndex);
      } else {
        ghost var views, all := ViewsOf(nodes), nodes;
        ViewsOfAt(all, nodeIndex);
        r := RemoveCascading(nodeIndex);
        if WellFormed(views, all) {
          CascadeWellFormed(views, all, nodeIndex, ViewsOf(nodes), nodes);
        }
      }
    }

    /** `remove_node` without a cascade: only entry `i` is taken out. */
    method RemoveAlone(i: nat) returns (r: Removal)
      requires Owned() && i < |nodes|
      modifies this
      ensures r == Removed([old(nodes)[i]]) && nodes == old(nodes)[..i] + old(nodes)[i + 1..]
      ensures ViewsOf(nodes) == old(ViewsOf(nodes))[..i] + old(ViewsOf(nodes))[i + 1..]
      ensures Owned() && (old(IdsIncreasing()) ==> IdsIncreasing())
      ensures nextId == old(nextId) && hasCache == old(hasCache) && maxIter == old(maxIter)
      ensures delay == old(delay) && dt == old(dt) && speedToCo2 == old(speedToCo2)
    {
      var all := nodes;
      var rest := all[..i] + all[i + 1..];
      ViewsOfRemoved(all, i);
      IdsOfRemoved(all, i);
      DisjointRemoved(all, i);
      NotInObjectsOfAll(rest, this);
      if IdsIncreasing() {
        IncreasingRemoved(IdsOf(all), nextId, i);
      }
      nodes := rest;
      r := Removed([all[i]]);
    }

    /** `remove_node` with the cascade, of a node or crossing `nodes[i]`. */
    method RemoveCascading(i: nat) returns (r: Removal)
      requires Owned() && i < |nodes| && Closed(ViewsOf(nodes), nodes)
      modifies this, Repr()
      ensures var node, rest := old(nodes)[i], old(nodes)[..i] + old(nodes)[i + 1..];
        var conns := ViewTargets(old(View(node)));
        r == Removed([node] + Reversed(Chosen(rest, conns))) && nodes == Unpicked(rest, conns) &&
        ViewsOf(nodes) == Kept(CascadeFrom(old(ViewsOf(nodes))[..i] + old(ViewsOf(nodes))[i + 1..], rest, conns, node, 0), rest, conns)
      ensures Owned() && (old(IdsIncreasing()) ==> IdsIncreasing())
      ensures nextId == old(nextId) && hasCache == old(hasCache) && maxIter == old(maxIter)
      ensures delay == old(delay) && dt == old(dt) && speedToCo2 == old(speedToCo2)
    {
      ghost var views, ids := ViewsOf(nodes), IdsOf(nodes);
      ghost var all, node := nodes, nodes[i];
      ghost var rest := all[..i] + all[i + 1..];
      ViewsOfAt(all, i);
      ghost var conns := ViewTargets(View(node));
      if IdsIncreasing() {
        IncreasingRemoved(ids, nextId, i);
        KeptIncreasing(ids[..i] + ids[i + 1..], rest, conns, nextId);
      }
      NotInObjectsOfAll(all, this);
      var ns, removed := RemoveWithCascade(nodes, i);
      NotInObjectsOfAll(ns, this);
      ghost var kept, keptIds := ViewsOf(ns), IdsOf(ns);
      nodes := ns;
      assert ViewsOf(ns) == kept;
      assert IdsOf(ns) == keptIds;
      r := Removed(removed);
    }

    /** `remove_node_and_connected_by_id(id)`: `remove_node` with the cascade
      * at the first builder with that id. */
    method RemoveNodeAndConnectedById(id: nat) returns (r: Removal)
      requires Owned()
      requires FindId(IdsOf(nodes), id).Some? && !nodes[FindId(IdsOf(nodes), id).value].Street? ==>
        Closed(ViewsOf(nodes), nodes)
      modifies this, Repr()
      ensures FindId(old(IdsOf(nodes)), id).None? ==>
        r == RemoveFailed("Specified node does not exist") && nodes == old(nodes) && ViewsOf(nodes) == old(ViewsOf(nodes))
      ensures FindId(old(IdsOf(nodes)), id).Some? ==> RemovesAt(FindId(old(IdsOf(nodes)), id).value, true, r)
      ensures (old(WellFormed(ViewsOf(nodes), nodes)) && FindId(old(IdsOf(nodes)), id).Some? &&
               !old(nodes)[FindId(old(IdsOf(nodes)), id).value].Street?) ==> WellFormed(ViewsOf(nodes), nodes)
      ensures Owned() && (old(IdsIncreasing()) ==> IdsIncreasing())
      ensures nextId == old(nextId) && hasCache == old(hasCache) && maxIter == old(maxIter)
      ensures delay == old(delay) && dt == old(dt) && speedToCo2 == old(speedToCo2)
    {
      var ids := IdsOf(nodes);
      var k := 0;
      while k < |nodes|
        invariant 0 <= k <= |nodes|
        invariant forall m :: 0 <= m < k ==> ids[m] != id
      {
        if ids[k] == id {
          FindIdFirst(ids, id, k);
          r := RemoveNode(k, true);
          return;
        }
        k := k + 1;
      }
      return RemoveFailed("Specified node does not exist");
    }
  }

  /** The street `connect_with_street` creates: from `n1` to `n2`, with the
    * given lanes, length and id. */
  method NewStreet(n1: NodeBuilder, n2: NodeBuilder, lanes: U8, length: real, id: nat) returns (s: StreetBuilder)
    ensures fresh(s)
    ensures s.connIn == Some(n1) && s.connOut == Some(n2)
    ensures s.lanes == lanes && s.laneLength == length && s.id == id
  {
    s := new StreetBuilder();
    var _ := s.WithLanes(lanes);
    s.laneLength := length;
    s.Connect(IN, n1);
    s.Connect(OUT, n2);
    s.id := id;
  }

  /** The street `connect_with_street` makes between the builders at `k1`
    * and `k2` of `ns`, linked into the start and then into the end; at the
    * first failure it stops, leaving what it linked before in place. */
  method LinkNewStreet(ns: seq<NodeBuilder>, k1: nat, dir1: Direction, k2: nat, dir2: Direction,
                       lanes: U8, streetLength: real, id: nat)
    returns (r: ConnectResult)
    requires Disjoint(ns) && k1 < |ns| && k2 < |ns| && k1 != k2
    modifies ObjectsOf(ns[k1]), ObjectsOf(ns[k2])
    ensures forall k :: 0 <= k < |ns| ==> IdOf(ns[k]) == old(IdOf(ns[k]))
    ensures forall k :: 0 <= k < |ns| && k != k1 && k != k2 ==> View(ns[k]) == old(View(ns[k]))
    ensures var n1, n2 := ns[k1], ns[k2];
      var st := StageOf(old(View(n1)), dir1, old(View(n2)), dir2);
      (st != BothLinked ==> r == Failed(ErrorOf(st, k1, k2)) && View(n2) == old(View(n2))) &&
      (st == PanicAtStart || st == SlotTakenAtStart ==> View(n1) == old(View(n1))) &&
      (st == PanicAtEnd || st == SlotTakenAtEnd ==>
        exists s: StreetBuilder :: fresh(s) && View(n1) == LinkedAtStart(old(View(n1)), dir1, Street(s))) &&
      (st == BothLinked ==>
        r.Connected? && r.street.Street? && fresh(r.street.street) &&
        r.street.street.connIn == Some(n1) && r.street.street.connOut == Some(n2) &&
        r.street.street.lanes == lanes && r.street.street.laneLength == streetLength &&
        r.street.street.id == id &&
        View(n1) == LinkedAtStart(old(View(n1)), dir1, r.street) &&
        View(n2) == LinkedAtEnd(old(View(n2)), dir2, r.street))
    ensures r.Connected? ==> ObjectsOf(r.street) !! ObjectsOfAll(ns)
  {
    var s := NewStreet(ns[k1], ns[k2], lanes, streetLength, id);
    var street := Street(s);
    forall k | 0 <= k < |ns|
      ensures View(ns[k]) == old(View(ns[k])) && IdOf(ns[k]) == old(IdOf(ns[k]))
    {
      SameBuilder(ns[k]);
    }
    var linkedStart, linkedEnd := LinkEnds(ns, k1, dir1, k2, dir2, street);
    if !linkedStart {
      r := Failed(if ns[k1].Street? then StreetToStreetPanic else ConnectionError(k1, k2, OUT));
    } else if !linkedEnd {
      r := Failed(if ns[k2].Street? then StreetToStreetPanic else ConnectionError(k1, k2, IN));
    } else {
      r := Connected(street);
      forall k | 0 <= k < |ns|
        ensures ObjectsOf(street) !! ObjectsOf(ns[k])
      {
      }
      ApartFromAll(ns, street);
    }
  }

  /** What `connect_with_street` leaves behind once it has found its ends
    * `ns[k1]` and `ns[k2]` and tried to link a new street with id `id`,
    * by the stage at which the linking stopped: an error and the end left
    * as it was (the start too when the linking stopped there), or the new
    * street linked at both ends and appended (`ns2` is the new list).
    * What a failure at the end leaves at the start, and what becomes of
    * the other builders, is stated beside it. */
  twostate predicate ConnectOutcome(ns: seq<NodeBuilder>, k1: nat, dir1: Direction, k2: nat, dir2: Direction,
                                    lanes: U8, streetLength: real, id: nat, new r: ConnectResult, new ns2: seq<NodeBuilder>)
    requires k1 < |ns| && k2 < |ns|
    reads ObjectsOf(ns[k1]), ObjectsOf(ns[k2]), if r.Connected? then ObjectsOf(r.street) else {}
  {
    var n1, n2 := ns[k1], ns[k2];
    var st := StageOf(old(View(n1)), dir1, old(View(n2)), dir2);
    (st != BothLinked ==> r == Failed(ErrorOf(st, k1, k2)) && ns2 == ns && View(n2) == old(View(n2))) &&
    (st == PanicAtStart || st == SlotTakenAtStart ==> View(n1) == old(View(n1))) &&
    (st == BothLinked ==>
      r.Connected? && r.street.Street? && fresh(r.street.street) &&
      ns2 == ns + [r.street] &&
      r.street.street.connIn == Some(n1) && r.street.street.connOut == Some(n2) &&
      r.street.street.lanes == lanes && r.street.street.laneLength == streetLength &&
      r.street.street.id == id &&
      View(n1) == LinkedAtStart(old(View(n1)), dir1, r.street) &&
      View(n2) == LinkedAtEnd(old(View(n2)), dir2, r.street))
  }

  /** The street builders of a list. */
  function StreetObjects(ns: seq<NodeBuilder>): set<StreetBuilder>
  {
    set k | 0 <= k < |ns| && ns[k].Street? :: ns[k].street
  }

  /** Every street builder of `ns` outside the positions `except` still has
    * the lane count and lane length it had. */
  twostate predicate StreetsKept(ns: seq<NodeBuilder>, except: set<nat>)
    reads StreetObjects(ns)
  {
    forall k :: 0 <= k < |ns| && k !in except && ns[k].Street? ==>
      ns[k].street.lanes == old(ns[k].street.lanes) && ns[k].street.laneLength == old(ns[k].street.laneLength)
  }

  /** No street builder of the list but those at `k1` and `k2` is an object
    * of the builders at `k1` and `k2`. */
  lemma OtherStreetsApart(ns: seq<NodeBuilder>, k1: nat, k2: nat)
    requires Disjoint(ns) && k1 < |ns| && k2 < |ns|
    ensures forall k :: 0 <= k < |ns| && k != k1 && k != k2 && ns[k].Street? ==>
      ns[k].street !in ObjectsOf(ns[k1]) + ObjectsOf(ns[k2])
  {
    OwnedObjectsApart(ns, k1);
    OwnedObjectsApart(ns, k2);
    forall k | 0 <= k < |ns| && k != k1 && k != k2 && ns[k].Street?
      ensures ns[k].street !in ObjectsOf(ns[k1]) + ObjectsOf(ns[k2])
    {
      assert ns[k].street in ObjectsOf(ns[k]);
    }
  }

  /** The list after `connect_with_street` has linked a new street with
    * id `id` between `ns[k1]` and `ns[k2]`: on success the street is
    * appended, otherwise the list stays as it is. */
  method ConnectInto(ns: seq<NodeBuilder>, k1: nat, dir1: Direction, k2: nat, dir2: Direction,
                     lanes: U8, streetLength: real, id: nat, ghost ends: set<object>, ghost views: seq<ConnView>)
    returns (r: ConnectResult, ns2: seq<NodeBuilder>)
    requires Disjoint(ns) && k1 < |ns| && k2 < |ns| && k1 != k2
    requires ends == ObjectsOf(ns[k1]) + ObjectsOf(ns[k2])
    requires views == ViewsOf(ns)
    modifies ends
    ensures Disjoint(ns2)
    ensures IdsOf(ns) == old(IdsOf(ns))
    ensures forall k :: 0 <= k < |ns| && k != k1 && k != k2 ==> View(ns[k]) == old(View(ns[k]))
    ensures ConnectOutcome(ns, k1, dir1, k2, dir2, lanes, streetLength, id, r, ns2)
    ensures var st := StageOf(old(View(ns[k1])), dir1, old(View(ns[k2])), dir2);
      st == PanicAtEnd || st == SlotTakenAtEnd ==>
        exists s: StreetBuilder :: fresh(s) && View(ns[k1]) == LinkedAtStart(old(View(ns[k1])), dir1, Street(s))
    ensures IncreasingBelow(old(IdsOf(ns)), id) ==> IncreasingBelow(IdsOf(ns2), id + 1)
    ensures WellFormed(views, ns) && r.Connected? ==>
      WellFormed(LinkedViews(views, ns, k1, dir1, k2, dir2, r.street), ns2)
  {
    ViewsOfAt(ns, k1);
    ViewsOfAt(ns, k2);
    r := LinkNewStreet(ns, k1, dir1, k2, dir2, lanes, streetLength, id);
    IdsKept(ns);
    ns2 := ns;
    if r.Connected? {
      ns2 := ns + [r.street];
      AppendDisjoint(ns, r.street);
      IdsOfAppend(ns, r.street);
      if IncreasingBelow(IdsOf(ns), id) {
        IncreasingAppend(IdsOf(ns), id);
      }
      if WellFormed(views, ns) {
        AppendedApart(ns, r.street, ns2);
        LinkedKeepsWellFormed(views, ns, k1, dir1, k2, dir2, r.street);
      }
    }
  }

  /** Links the new street `s` into the start `ns[k1]` and, when that
    * succeeds, into the end `ns[k2]`; every other builder is untouched. */
  method LinkEnds(ns: seq<NodeBuilder>, k1: nat, dir1: Direction, k2: nat, dir2: Direction, s: NodeBuilder)
    returns (linkedStart: bool, linkedEnd: bool)
    requires Disjoint(ns) && k1 < |ns| && k2 < |ns| && k1 != k2
    requires ns[k1].Crossing? ==> s !in ns[k1].crossing.connections.input.Values
    requires ns[k2].Crossing? ==> s !in ns[k2].crossing.connections.output.Values
    modifies ObjectsOf(ns[k1]), ObjectsOf(ns[k2])
    ensures var st := StageOf(old(View(ns[k1])), dir1, old(View(ns[k2])), dir2);
      linkedStart == (st != PanicAtStart && st != SlotTakenAtStart) &&
      linkedEnd == (st == BothLinked)
    ensures View(ns[k1]) == if linkedStart then LinkedAtStart(old(View(ns[k1])), dir1, s) else old(View(ns[k1]))
    ensures View(ns[k2]) == if linkedEnd then LinkedAtEnd(old(View(ns[k2])), dir2, s) else old(View(ns[k2]))
    ensures forall k :: 0 <= k < |ns| ==> IdOf(ns[k]) == old(IdOf(ns[k]))
    ensures forall k :: 0 <= k < |ns| && k != k1 && k != k2 ==> View(ns[k]) == old(View(ns[k]))
  {
    linkedStart := LinkStartAt(ns, k1, dir1, s);
    linkedEnd := false;
    if linkedStart {
      linkedEnd := LinkEndAt(ns, k2, dir2, s);
    }
  }

  /** LinkStart on the listed builder `ns[k]`; the others are untouched. */
  method LinkStartAt(ns: seq<NodeBuilder>, k: nat, dir: Direction, s: NodeBuilder) returns (linked: bool)
    requires Disjoint(ns) && k < |ns|
    requires ns[k].Crossing? ==> s !in ns[k].crossing.connections.input.Values
    modifies ObjectsOf(ns[k])
    ensures linked == (StageOf(old(View(ns[k])), dir, IOView([], []), dir) != PanicAtStart &&
                       StageOf(old(View(ns[k])), dir, IOView([], []), dir) != SlotTakenAtStart)
    ensures View(ns[k]) == if linked then LinkedAtStart(old(View(ns[k])), dir, s) else old(View(ns[k]))
    ensures forall m :: 0 <= m < |ns| ==> IdOf(ns[m]) == old(IdOf(ns[m]))
    ensures forall m :: 0 <= m < |ns| && m != k ==> View(ns[m]) == old(View(ns[m]))
  {
    OwnedObjectsApart(ns, k);
    linked := LinkStart(ns[k], dir, s);
    forall m | 0 <= m < |ns| && m != k
      ensures View(ns[m]) == old(View(ns[m])) && IdOf(ns[m]) == old(IdOf(ns[m]))
    {
      SameBuilder(ns[m]);
    }
  }

  /** LinkEnd on the listed builder `ns[k]`; the others are untouched. */
  method LinkEndAt(ns: seq<NodeBuilder>, k: nat, dir: Direction, s: NodeBuilder) returns (linked: bool)
    requires Disjoint(ns) && k < |ns|
    requires ns[k].Crossing? ==> s !in ns[k].crossing.connections.output.Values
    modifies ObjectsOf(ns[k])
    ensures linked == (StageOf(IOView([], []), dir, old(View(ns[k])), dir) == BothLinked)
    ensures View(ns[k]) == if linked then LinkedAtEnd(old(View(ns[k])), dir, s) else old(View(ns[k]))
    ensures forall m :: 0 <= m < |ns| ==> IdOf(ns[m]) == old(IdOf(ns[m]))
    ensures forall m :: 0 <= m < |ns| && m != k ==> View(ns[m]) == old(View(ns[m]))
  {
    OwnedObjectsApart(ns, k);
    linked := LinkEnd(ns[k], dir, s);
    forall m | 0 <= m < |ns| && m != k
      ensures View(ns[m]) == old(View(ns[m])) && IdOf(ns[m]) == old(IdOf(ns[m]))
    {
      SameBuilder(ns[m]);
    }
  }

  /** A builder none of whose objects changed shows the same view and id. */
  twostate lemma SameBuilder(n: NodeBuilder)
    requires unchanged(ObjectsOf(n))
    ensures View(n) == old(View(n)) && IdOf(n) == old(IdOf(n))
  {
  }

  /** Links a new street into its start: IONodes list it as outgoing,
    * crossings take it in the outgoing slot `dir` unless that is taken;
    * a street cannot be a start. */
  method LinkStart(n: NodeBuilder, dir: Direction, s: NodeBuilder) returns (linked: bool)
    requires n.Crossing? ==> s !in n.crossing.connections.input.Values
    modifies ObjectsOf(n)
    ensures linked == (StageOf(old(View(n)), dir, IOView([], []), dir) != PanicAtStart &&
                       StageOf(old(View(n)), dir, IOView([], []), dir) != SlotTakenAtStart)
    ensures View(n) == if linked then LinkedAtStart(old(View(n)), dir, s) else old(View(n))
    ensures IdOf(n) == old(IdOf(n))
  {
    match n {
      case IONode(b) =>
        b.Connect(OUT, s);
        return true;
      case Crossing(c) =>
        var added := c.Connect(dir, OUT, s);
        return added == Added;
      case Street(_) =>
        return false;
    }
  }

  /** Links a new street into its end: crossings take it in the incoming
    * slot `dir` unless that is taken, IONodes list it as outgoing; a street
    * cannot be an end. */
  method LinkEnd(n: NodeBuilder, dir: Direction, s: NodeBuilder) returns (linked: bool)
    requires n.Crossing? ==> s !in n.crossing.connections.output.Values
    modifies ObjectsOf(n)
    ensures linked == (StageOf(IOView([], []), dir, old(View(n)), dir) == BothLinked)
    ensures View(n) == if linked then LinkedAtEnd(old(View(n)), dir, s) else old(View(n))
    ensures IdOf(n) == old(IdOf(n))
  {
    match n {
      case IONode(b) =>
        b.Connect(OUT, s);
        return true;
      case Crossing(c) =>
        var added := c.Connect(dir, IN, s);
        return added == Added;
      case Street(_) =>
        return false;
    }
  }

  lemma {:induction false} IdsOfAppend(ns: seq<NodeBuilder>, n: NodeBuilder)
    ensures IdsOf(ns + [n]) == IdsOf(ns) + [IdOf(n)]
  {
    if ns != [] {
      assert (ns + [n])[1..] == ns[1..] + [n];
      IdsOfAppend(ns[1..], n);
    }
  }

  lemma {:induction false} ObjectsOfAllAppend(ns: seq<NodeBuilder>, n: NodeBuilder)
    ensures ObjectsOfAll(ns + [n]) == ObjectsOfAll(ns) + ObjectsOf(n)
  {
    if ns != [] {
      assert (ns + [n])[1..] == ns[1..] + [n];
      ObjectsOfAllAppend(ns[1..], n);
    }
  }

  /** The objects of each entry are among those of the list. */
  lemma {:induction false} InObjectsOfAll(ns: seq<NodeBuilder>, k: nat)
    requires k < |ns|
    ensures ObjectsOf(ns[k]) <= ObjectsOfAll(ns)
  {
    if k > 0 {
      InObjectsOfAll(ns[1..], k - 1);
    }
  }

  /** The list after `add_node` has given `node` the id `id` and appended
    * it; `node` shares no object with the listed builders. */
  method AppendWithId(ns: seq<NodeBuilder>, node: NodeBuilder, id: nat, ghost own: set<object>, ghost views: seq<ConnView>)
    returns (ns2: seq<NodeBuilder>)
    requires Disjoint(ns) && ObjectsOf(node) !! ObjectsOfAll(ns)
    requires own == ObjectsOf(node)
    modifies own
    ensures ns2 == ns + [node] && Disjoint(ns2)
    ensures IdOf(node) == id && View(node) == old(View(node))
    ensures forall k :: 0 <= k < |ns| ==> IdOf(ns[k]) == old(IdOf(ns[k])) && View(ns[k]) == old(View(ns[k]))
    ensures IncreasingBelow(old(IdsOf(ns)), id) ==> IncreasingBelow(IdsOf(ns2), id + 1)
    ensures WellFormed(views, ns) && ViewTargets(View(node)) == [] ==> WellFormed(views + [View(node)], ns2)
  {
    EachInObjectsOfAll(ns);
    SetId(node, id);
    ns2 := ns + [node];
    forall k | 0 <= k < |ns|
      ensures IdOf(ns[k]) == old(IdOf(ns[k])) && View(ns[k]) == old(View(ns[k]))
    {
      assert ObjectsOf(ns[k]) !! ObjectsOf(node);
      SameBuilder(ns[k]);
    }
    IdsKept(ns);
    IdsOfAppend(ns, node);
    AppendDisjoint(ns, node);
    if IncreasingBelow(old(IdsOf(ns)), id) {
      IncreasingAppend(old(IdsOf(ns)), id);
    }
    if WellFormed(views, ns) && ViewTargets(View(node)) == [] {
      AppendedApart(ns, node, ns2);
      AddKeepsWellFormed(views, ns, View(node), node);
    }
  }

  /** The simulator builder is none of the objects of its node builders. */
  lemma {:induction false} BuilderApart(ns: seq<NodeBuilder>, b: SimulatorBuilder)
    ensures b !in ObjectsOfAll(ns)
    ensures forall k :: 0 <= k < |ns| ==> b !in ObjectsOf(ns[k])
  {
    if ns != [] {
      BuilderApart(ns[1..], b);
    }
  }

  lemma EachInObjectsOfAll(ns: seq<NodeBuilder>)
    ensures forall k :: 0 <= k < |ns| ==> ObjectsOf(ns[k]) <= ObjectsOfAll(ns)
  {
    forall k | 0 <= k < |ns|
      ensures ObjectsOf(ns[k]) <= ObjectsOfAll(ns)
    {
      InObjectsOfAll(ns, k);
    }
  }

  /** Appending a builder that shares nothing with the list keeps it disjoint. */
  lemma {:induction false} ApartFromAll(ns: seq<NodeBuilder>, n: NodeBuilder)
    requires forall k :: 0 <= k < |ns| ==> ObjectsOf(n) !! ObjectsOf(ns[k])
    ensures ObjectsOf(n) !! ObjectsOfAll(ns)
  {
    if ns != [] {
      assert forall k :: 0 <= k < |ns[1..]| ==> ns[1..][k] == ns[k + 1];
      ApartFromAll(ns[1..], n);
    }
  }

  lemma {:induction false} AppendDisjoint(ns: seq<NodeBuilder>, n: NodeBuilder)
    requires Disjoint(ns) && ObjectsOf(n) !! ObjectsOfAll(ns)
    ensures Disjoint(ns + [n])
  {
    if ns == [] {
      assert ([n])[1..] == [];
    } else {
      assert (ns + [n])[1..] == ns[1..] + [n];
      ObjectsOfAllAppend(ns[1..], n);
      AppendDisjoint(ns[1..], n);
    }
  }

  /** In a disjoint list two different positions share no object. */
  lemma {:induction false} DisjointApart(ns: seq<NodeBuilder>, i: nat, j: nat)
    requires Disjoint(ns) && i < |ns| && j < |ns| && i != j
    ensures ObjectsOf(ns[i]) !! ObjectsOf(ns[j])
  {
    if i == 0 {
      InObjectsOfAll(ns[1..], j - 1);
    } else if j == 0 {
      InObjectsOfAll(ns[1..], i - 1);
    } else {
      DisjointApart(ns[1..], i - 1, j - 1);
    }
  }

  /** Where `FindId` stops: at the first match. */
  lemma FindIdFirst(ids: seq<nat>, id: nat, k: nat)
    requires k < |ids| && ids[k] == id
    requires forall m :: 0 <= m < k ==> ids[m] != id
    ensures FindId(ids, id) == Some(k)
  {
    var r := FindId(ids, id);
    assert r.Some?;
    if r.value < k {
    } else if r.value > k {
    }
  }

  /** The objects of one entry of a disjoint list are apart from those of
    * every other entry. */
  lemma OwnedObjectsApart(ns: seq<NodeBuilder>, k: nat)
    requires Disjoint(ns) && k < |ns|
    ensures forall m :: 0 <= m < |ns| && m != k ==> ObjectsOf(ns[m]) !! ObjectsOf(ns[k])
  {
    forall m | 0 <= m < |ns| && m != k
      ensures ObjectsOf(ns[m]) !! ObjectsOf(ns[k])
    {
      DisjointApart(ns, m, k);
    }
  }

  // ---- remove_node -------------------------------------------------------

  /** `remove_connection(conn)` on the listed builder `c` (at position `k`). */
  method RemoveConnectionAt(ns: seq<NodeBuilder>, ghost k: nat, c: NodeBuilder, conn: NodeBuilder)
    requires Disjoint(ns) && k < |ns| && ns[k] == c
    modifies ObjectsOf(c)
    ensures ViewsOf(ns) == old(ViewsOf(ns))[k := ViewWithout(old(View(c)), conn)]
    ensures IdsOf(ns) == old(IdsOf(ns))
  {
    ghost var before := ViewsOf(ns);
    forall j | 0 <= j < |ns|
      ensures before[j] == View(ns[j])
    {
      ViewsOfAt(ns, j);
    }
    RemoveConnectionFrom(c, conn);
    forall j | 0 <= j < |ns|
      ensures ViewsOf(ns)[j] == before[k := View(c)][j] && IdOf(ns[j]) == old(IdOf(ns[j]))
    {
      ViewsOfAt(ns, j);
      if j != k {
        DisjointApart(ns, j, k);
      }
    }
    IdsKept(ns);
  }

  /** The inner loop of the cascade: every connection `c` of the street `r`
    * other than the removed `node` forgets `r`. */
  method ScrubLinks(ns: seq<NodeBuilder>, r: NodeBuilder, conns: seq<NodeBuilder>, node: NodeBuilder)
    requires Disjoint(ns)
    requires forall j :: 0 <= j < |conns| ==> conns[j] in ns || conns[j] == node
    modifies ObjectsOfAll(ns)
    ensures ViewsOf(ns) == Scrub(old(ViewsOf(ns)), ns, r, conns, node)
    ensures IdsOf(ns) == old(IdsOf(ns))
  {
    DisjointDistinct(ns);
    var j := 0;
    assert conns[j..] == conns;
    while j < |conns|
      invariant j <= |conns|
      invariant Scrub(ViewsOf(ns), ns, r, conns[j..], node) == Scrub(old(ViewsOf(ns)), ns, r, conns, node)
      invariant IdsOf(ns) == old(IdsOf(ns))
    {
      assert conns[j..][1..] == conns[j + 1..];
      ScrubStep(ns, r, conns[j], node);
      j := j + 1;
    }
  }

  /** One connection `c` of the street `r` forgets `r`, unless it is the
    * removed `node`. */
  method ScrubStep(ns: seq<NodeBuilder>, r: NodeBuilder, c: NodeBuilder, node: NodeBuilder)
    requires Disjoint(ns) && (c in ns || c == node)
    modifies ObjectsOfAll(ns)
    ensures ViewsOf(ns) == ScrubOne(old(ViewsOf(ns)), ns, r, c, node)
    ensures IdsOf(ns) == old(IdsOf(ns))
  {
    DisjointDistinct(ns);
    if c != node {
      var found := IndexOf(ns, c);
      ghost var k := found.value;
      ViewsOfAt(ns, k);
      InObjectsOfAll(ns, k);
      RemoveConnectionAt(ns, k, c, r);
    }
  }

  /** `remove_node(i, true)` of `all[i]` on the list itself: the rest is
    * walked with the cascade, then the collected builders are removed. */
  method RemoveWithCascade(all: seq<NodeBuilder>, i: nat) returns (ns: seq<NodeBuilder>, removed: seq<NodeBuilder>)
    requires Disjoint(all) && i < |all| && Closed(ViewsOf(all), all)
    modifies ObjectsOfAll(all)
    ensures var node, rest := all[i], all[..i] + all[i + 1..];
      var conns := ViewTargets(old(View(node)));
      ns == Unpicked(rest, conns) && removed == [node] + Reversed(Chosen(rest, conns)) &&
      ViewsOf(ns) == Kept(CascadeFrom(old(ViewsOf(all))[..i] + old(ViewsOf(all))[i + 1..], rest, conns, node, 0), rest, conns) &&
      IdsOf(ns) == Kept(old(IdsOf(all))[..i] + old(IdsOf(all))[i + 1..], rest, conns)
    ensures Disjoint(ns)
  {
    var node := all[i];
    var rest := all[..i] + all[i + 1..];
    ghost var views := ViewsOf(all);
    ViewsOfAt(all, i);
    ViewsOfRemoved(all, i);
    IdsOfRemoved(all, i);
    ObjectsOfAllRemoved(all, i);
    DisjointRemoved(all, i);
    RestClosedAround(views, all, i);
    var conns := AllConnections(node);
    ghost var rv, restIds := ViewsOf(rest), IdsOf(rest);
    var toRemove := CascadeRemoval(rest, conns, node);
    ViewsOfUnpicked(rest, conns);
    ghost var kept := Kept(ViewsOf(rest), rest, conns);
    ghost var keptIds := Kept(IdsOf(rest), rest, conns);
    assert kept == Kept(CascadeFrom(rv, rest, conns, node, 0), rest, conns);
    assert keptIds == Kept(restIds, rest, conns);
    assert ViewsOf(Unpicked(rest, conns)) == kept && IdsOf(Unpicked(rest, conns)) == keptIds;
    AllocatedObjects(Unpicked(rest, conns));
    ns, removed := RemovePicked(rest, conns, toRemove, node);
    DisjointUnpicked(rest, conns);
    assert ViewsOf(ns) == kept;
    assert IdsOf(ns) == keptIds;
  }

  /** The filter of `remove_node`: walking the remaining builders in order,
    * each one listed in `conns` is scrubbed from its own connections and
    * its index collected. */
  method CascadeRemoval(ns: seq<NodeBuilder>, conns: seq<NodeBuilder>, node: NodeBuilder) returns (toRemove: seq<nat>)
    requires Disjoint(ns) && ClosedAround(ViewsOf(ns), ns, node)
    modifies ObjectsOfAll(ns)
    ensures toRemove == PickedFrom(ns, conns, 0)
    ensures ViewsOf(ns) == CascadeFrom(old(ViewsOf(ns)), ns, conns, node, 0)
    ensures IdsOf(ns) == old(IdsOf(ns))
  {
    ghost var target := CascadeFrom(ViewsOf(ns), ns, conns, node, 0);
    ghost var ids0 := IdsOf(ns);
    toRemove := [];
    var i := 0;
    while i < |ns|
      invariant i <= |ns|
      invariant toRemove + PickedFrom(ns, conns, i) == PickedFrom(ns, conns, 0)
      invariant CascadeFrom(ViewsOf(ns), ns, conns, node, i) == target
      invariant ClosedAround(ViewsOf(ns), ns, node)
      invariant IdsOf(ns) == ids0
    {
      toRemove := CascadeRound(ns, conns, node, i, toRemove, target);
      i := i + 1;
    }
  }

  /** One round of the filter with its bookkeeping: the index is collected
    * when the builder is picked, and what is left of the cascade shrinks by
    * one builder. */
  method CascadeRound(ns: seq<NodeBuilder>, conns: seq<NodeBuilder>, node: NodeBuilder, i: nat,
                      toRemove: seq<nat>, ghost target: seq<ConnView>)
    returns (toRemove2: seq<nat>)
    requires Disjoint(ns) && i < |ns| && ClosedAround(ViewsOf(ns), ns, node)
    requires toRemove + PickedFrom(ns, conns, i) == PickedFrom(ns, conns, 0)
    requires CascadeFrom(ViewsOf(ns), ns, conns, node, i) == target
    modifies ObjectsOfAll(ns)
    ensures toRemove2 + PickedFrom(ns, conns, i + 1) == PickedFrom(ns, conns, 0)
    ensures CascadeFrom(ViewsOf(ns), ns, conns, node, i + 1) == target
    ensures ClosedAround(ViewsOf(ns), ns, node)
    ensures IdsOf(ns) == old(IdsOf(ns))
  {
    ghost var views := ViewsOf(ns);
    CascadeFromStep(views, ns, conns, node, i);
    var picked := CascadeStep(ns, conns, node, i);
    PickStep(ns, conns, i, toRemove);
    toRemove2 := if picked then toRemove + [i] else toRemove;
  }

  /** The cascade from `i` on is one round followed by the cascade from `i + 1`. */
  lemma CascadeFromStep(views: seq<ConnView>, ns: seq<NodeBuilder>, conns: seq<NodeBuilder>, node: NodeBuilder, i: nat)
    requires |views| == |ns| && i < |ns|
    ensures ns[i] in conns ==>
      CascadeFrom(views, ns, conns, node, i) == CascadeFrom(Scrub(views, ns, ns[i], ViewTargets(views[i]), node), ns, conns, node, i + 1)
    ensures ns[i] !in conns ==> CascadeFrom(views, ns, conns, node, i) == CascadeFrom(views, ns, conns, node, i + 1)
  {
  }

  /** The bookkeeping of one round: a picked index is appended. */
  lemma PickStep(ns: seq<NodeBuilder>, conns: seq<NodeBuilder>, i: nat, toRemove: seq<nat>)
    requires i < |ns|
    requires toRemove + PickedFrom(ns, conns, i) == PickedFrom(ns, conns, 0)
    ensures (if ns[i] in conns then toRemove + [i] else toRemove) + PickedFrom(ns, conns, i + 1) == PickedFrom(ns, conns, 0)
  {
    var later := PickedFrom(ns, conns, i + 1);
    assert PickedFrom(ns, conns, i) == (if ns[i] in conns then [i] else []) + later;
    if ns[i] in conns {
      assert toRemove + [i] + later == toRemove + ([i] + later);
    } else {
      assert toRemove + later == toRemove + ([] + later);
    }
  }

  /** One round of the filter: whether `ns[i]` is a connection of the removed
    * node, and if so its scrubbing from the builders it links to. */
  method CascadeStep(ns: seq<NodeBuilder>, conns: seq<NodeBuilder>, node: NodeBuilder, i: nat) returns (picked: bool)
    requires Disjoint(ns) && i < |ns| && ClosedAround(ViewsOf(ns), ns, node)
    modifies ObjectsOfAll(ns)
    ensures picked == (ns[i] in conns)
    ensures ViewsOf(ns) == if picked then Scrub(old(ViewsOf(ns)), ns, ns[i], ViewTargets(old(ViewsOf(ns))[i]), node) else old(ViewsOf(ns))
    ensures ClosedAround(ViewsOf(ns), ns, node)
    ensures IdsOf(ns) == old(IdsOf(ns))
  {
    picked := ns[i] in conns;
    if picked {
      var rnode := ns[i];
      var links := AllConnections(rnode);
      ViewsOfAt(ns, i);
      ghost var views := ViewsOf(ns);
      ScrubLinks(ns, rnode, links, node);
      ScrubKeepsAround(views, ns, rnode, links, node);
    }
  }

  /** The last loop of `remove_node`: the collected indices, ascending, are
    * removed from the right, each removed builder pushed after `node`. */
  method RemovePicked(rest: seq<NodeBuilder>, conns: seq<NodeBuilder>, toRemove: seq<nat>, node: NodeBuilder)
    returns (ns: seq<NodeBuilder>, removed: seq<NodeBuilder>)
    requires toRemove == PickedFrom(rest, conns, 0)
    ensures ns == Unpicked(rest, conns)
    ensures removed == [node] + Reversed(Chosen(rest, conns))
  {
    DropEnds(rest, conns);
    ns, removed := rest, [node];
    var t: nat := |toRemove|;
    assert rest[..|rest|] == rest && rest[|rest|..] == [];
    while t > 0
      invariant t <= |toRemove|
      invariant ns == rest[..Low(toRemove, t, |rest|)] + Unpicked(rest[Low(toRemove, t, |rest|)..], conns)
      invariant removed == [node] + Reversed(Chosen(rest[Low(toRemove, t, |rest|)..], conns))
    {
      var q := toRemove[t - 1];
      RemovePickedStep(rest, conns, node, t, ns, removed);
      removed := removed + [ns[q]];
      ns := ns[..q] + ns[q + 1..];
      t := t - 1;
    }
  }

  /** One turn of the loop of `RemovePicked`: removing position `idx[t - 1]`
    * extends the removal to `idx[t - 1..]`. */
  lemma RemovePickedStep(rest: seq<NodeBuilder>, conns: seq<NodeBuilder>, node: NodeBuilder, t: nat,
                         ns: seq<NodeBuilder>, removed: seq<NodeBuilder>)
    requires 0 < t <= |PickedFrom(rest, conns, 0)|
    requires var l := Low(PickedFrom(rest, conns, 0), t, |rest|);
      ns == rest[..l] + Unpicked(rest[l..], conns) && removed == [node] + Reversed(Chosen(rest[l..], conns))
    ensures var idx := PickedFrom(rest, conns, 0);
      var q, l := idx[t - 1], Low(idx, t - 1, |rest|);
      q < |ns| && ns[..q] + ns[q + 1..] == rest[..l] + Unpicked(rest[l..], conns) &&
      removed + [ns[q]] == [node] + Reversed(Chosen(rest[l..], conns))
  {
    var idx := PickedFrom(rest, conns, 0);
    var q, l := idx[t - 1], Low(idx, t, |rest|);
    DropStep(rest, conns, t);
    assert Low(idx, t - 1, |rest|) == q;
    ReversedCons(rest[q], Chosen(rest[l..], conns));
  }

  /** `RemovalKeepsWellFormed` for the list and connections the cascade leaves. */
  lemma CascadeWellFormed(views: seq<ConnView>, all: seq<NodeBuilder>, i: nat, kept: seq<ConnView>, ns: seq<NodeBuilder>)
    requires WellFormed(views, all) && i < |all| && !all[i].Street?
    requires var rest, conns := all[..i] + all[i + 1..], ViewTargets(views[i]);
      ns == Unpicked(rest, conns) && kept == Kept(CascadeFrom(views[..i] + views[i + 1..], rest, conns, all[i], 0), rest, conns)
    ensures WellFormed(kept, ns)
  {
    RemovalKeepsWellFormed(views, all, i);
  }

  /** A disjoint list holds no builder twice. */
  lemma DisjointDistinct(ns: seq<NodeBuilder>)
    requires Disjoint(ns)
    ensures Distinct(ns)
  {
    forall a, b | 0 <= a < |ns| && 0 <= b < |ns| && a != b
      ensures ns[a] != ns[b]
    {
      DisjointApart(ns, a, b);
      NonEmptyObjects(ns[a]);
    }
  }

  lemma NonEmptyObjects(n: NodeBuilder)
    ensures ObjectsOf(n) != {}
  {
    match n
      case IONode(b) => assert b in ObjectsOf(n);
      case Crossing(c) => assert c in ObjectsOf(n);
      case Street(s) => assert s in ObjectsOf(n);
  }

  /** A list whose entries are pairwise apart is disjoint. */
  lemma {:induction false} ApartDisjoint(ns: seq<NodeBuilder>)
    requires forall a, b :: 0 <= a < |ns| && 0 <= b < |ns| && a != b ==> ObjectsOf(ns[a]) !! ObjectsOf(ns[b])
    ensures Disjoint(ns)
  {
    if ns != [] {
      var tail := ns[1..];
      assert forall k :: 0 <= k < |tail| ==> tail[k] == ns[k + 1];
      ApartFromAll(tail, ns[0]);
      ApartDisjoint(tail);
    }
  }

  lemma DisjointRemoved(ns: seq<NodeBuilder>, i: nat)
    requires Disjoint(ns) && i < |ns|
    ensures Disjoint(ns[..i] + ns[i + 1..])
  {
    var rest := ns[..i] + ns[i + 1..];
    forall a, b | 0 <= a < |rest| && 0 <= b < |rest| && a != b
      ensures ObjectsOf(rest[a]) !! ObjectsOf(rest[b])
    {
      RestAt(ns, i, a);
      RestAt(ns, i, b);
      DisjointApart(ns, Up(a, i), Up(b, i));
    }
    ApartDisjoint(rest);
  }

  lemma DisjointUnpicked(ns: seq<NodeBuilder>, conns: seq<NodeBuilder>)
    requires Disjoint(ns)
    ensures Disjoint(Unpicked(ns, conns))
  {
    var kept := Unpicked(ns, conns);
    DisjointDistinct(ns);
    UnpickedDistinct(ns, conns);
    forall a, b | 0 <= a < |kept| && 0 <= b < |kept| && a != b
      ensures ObjectsOf(kept[a]) !! ObjectsOf(kept[b])
    {
      var ka := UnpickedAt(ns, ns, conns, a);
      var kb := UnpickedAt(ns, ns, conns, b);
      DisjointApart(ns, ka, kb);
    }
    ApartDisjoint(kept);
  }

  lemma {:induction false} ObjectsOfAllConcat(a: seq<NodeBuilder>, b: seq<NodeBuilder>)
    ensures ObjectsOfAll(a + b) == ObjectsOfAll(a) + ObjectsOfAll(b)
  {
    if a == [] {
      assert a + b == b;
    } else {
      assert (a + b)[0] == a[0] && (a + b)[1..] == a[1..] + b;
      ObjectsOfAllConcat(a[1..], b);
    }
  }

  lemma {:induction false} ObjectsOfAllRemoved(ns: seq<NodeBuilder>, i: nat)
    requires i < |ns|
    ensures ObjectsOfAll(ns[..i] + ns[i + 1..]) <= ObjectsOfAll(ns)
  {
    var a, x, b := ns[..i], [ns[i]], ns[i + 1..];
    assert ns == (a + x) + b;
    ObjectsOfAllConcat(a + x, b);
    ObjectsOfAllConcat(a, x);
    ObjectsOfAllConcat(a, b);
    assert ObjectsOfAll(ns) == ObjectsOfAll(a) + ObjectsOfAll(x) + ObjectsOfAll(b);
  }

  lemma {:induction false} AllocatedObjects(ns: seq<NodeBuilder>)
    ensures forall o :: o in ObjectsOfAll(ns) ==> allocated(o)
  {
    if ns != [] {
      AllocatedObjects(ns[1..]);
    }
  }

  /** The simulator builder owns none of the builders' objects. */
  lemma {:induction false} NotInObjectsOfAll(ns: seq<NodeBuilder>, b: SimulatorBuilder)
    ensures b !in ObjectsOfAll(ns)
  {
    if ns != [] {
      NotInObjectsOfAll(ns[1..], b);
    }
  }

  lemma {:induction false} ViewsOfConcat(a: seq<NodeBuilder>, b: seq<NodeBuilder>)
    ensures ViewsOf(a + b) == ViewsOf(a) + ViewsOf(b)
  {
    if a == [] {
      assert a + b == b;
    } else {
      assert (a + b)[0] == a[0] && (a + b)[1..] == a[1..] + b;
      ViewsOfConcat(a[1..], b);
    }
  }

  lemma {:induction false} IdsOfConcat(a: seq<NodeBuilder>, b: seq<NodeBuilder>)
    ensures IdsOf(a + b) == IdsOf(a) + IdsOf(b)
  {
    if a == [] {
      assert a + b == b;
    } else {
      assert (a + b)[0] == a[0] && (a + b)[1..] == a[1..] + b;
      IdsOfConcat(a[1..], b);
    }
  }

  /** The connections and the ids of the list without entry `i`. */
  lemma ViewsOfRemoved(ns: seq<NodeBuilder>, i: nat)
    requires i < |ns|
    ensures ViewsOf(ns[..i] + ns[i + 1..]) == ViewsOf(ns)[..i] + ViewsOf(ns)[i + 1..]
  {
    var rest := ns[..i] + ns[i + 1..];
    var views := ViewsOf(ns);
    forall k | 0 <= k < |rest|
      ensures ViewsOf(rest)[k] == (views[..i] + views[i + 1..])[k]
    {
      ViewsOfAt(rest, k);
      RestAt(ns, i, k);
      ViewsOfAt(ns, Up(k, i));
      RestAt(views, i, k);
    }
    assert |ViewsOf(rest)| == |views[..i] + views[i + 1..]|;
  }

  lemma IdsOfRemoved(ns: seq<NodeBuilder>, i: nat)
    requires i < |ns|
    ensures IdsOf(ns[..i] + ns[i + 1..]) == IdsOf(ns)[..i] + IdsOf(ns)[i + 1..]
  {
    var rest := ns[..i] + ns[i + 1..];
    var ids := IdsOf(ns);
    forall k | 0 <= k < |rest|
      ensures IdsOf(rest)[k] == (ids[..i] + ids[i + 1..])[k]
    {
      IdsOfAt(rest, k);
      RestAt(ns, i, k);
      IdsOfAt(ns, Up(k, i));
      RestAt(ids, i, k);
    }
    assert |IdsOf(rest)| == |ids[..i] + ids[i + 1..]|;
  }


  /** The connections of the builders the cascade keeps. */
  lemma {:induction false} ViewsOfUnpicked(ns: seq<NodeBuilder>, conns: seq<NodeBuilder>)
    ensures ViewsOf(Unpicked(ns, conns)) == Kept(ViewsOf(ns), ns, conns)
    ensures IdsOf(Unpicked(ns, conns)) == Kept(IdsOf(ns), ns, conns)
  {
    if ns != [] {
      ViewsOfUnpicked(ns[1..], conns);
      var head := if ns[0] in conns then [] else [ns[0]];
      ViewsOfConcat(head, Unpicked(ns[1..], conns));
      IdsOfConcat(head, Unpicked(ns[1..], conns));
    }
  }

  lemma IncreasingRemoved(ids: seq<nat>, bound: nat, i: nat)
    requires IncreasingBelow(ids, bound) && i < |ids|
    ensures IncreasingBelow(ids[..i] + ids[i + 1..], bound)
  {
    var rest := ids[..i] + ids[i + 1..];
    forall a, b | 0 <= a < b < |rest|
      ensures rest[a] < rest[b]
    {
      RestAt(ids, i, a);
      RestAt(ids, i, b);
    }
    forall a | 0 <= a < |rest|
      ensures rest[a] < bound
    {
      RestAt(ids, i, a);
    }
  }

  /** Dropping entries keeps ids increasing. */
  lemma {:induction false} KeptIncreasing(ids: seq<nat>, ns: seq<NodeBuilder>, conns: seq<NodeBuilder>, bound: nat)
    requires |ids| == |ns| && IncreasingBelow(ids, bound)
    ensures IncreasingBelow(Kept(ids, ns, conns), bound)
  {
    if ns != [] {
      var tail := ids[1..];
      assert IncreasingBelow(tail, bound);
      KeptIncreasing(tail, ns[1..], conns, bound);
      var kept := Kept(tail, ns[1..], conns);
      KeptLength(tail, ns[1..], conns);
      if ns[0] in conns {
        assert Kept(ids, ns, conns) == kept;
      } else {
        forall m | 0 <= m < |kept|
          ensures ids[0] < kept[m]
        {
          var k := UnpickedAt(tail, ns[1..], conns, m);
          assert kept[m] == ids[k + 1];
        }
        assert Kept(ids, ns, conns) == [ids[0]] + kept;
        IncreasingCons(ids[0], kept, bound);
      }
    }
  }

  lemma IncreasingCons(x: nat, l: seq<nat>, bound: nat)
    requires IncreasingBelow(l, bound) && x < bound
    requires forall m :: 0 <= m < |l| ==> x < l[m]
    ensures IncreasingBelow([x] + l, bound)
  {
    var r := [x] + l;
    forall a, b | 0 <= a < b < |r|
      ensures r[a] < r[b]
    {
      assert r[b] == l[b - 1];
      if a > 0 {
        assert r[a] == l[a - 1];
      }
    }
  }

  // ---------------------------------------------------------------------
  // The shape `add_node` and `connect_with_street` keep
  // ---------------------------------------------------------------------

  /** A builder is in a direction map's listing exactly when it is an entry. */
  lemma ValuesListed(m: map<Direction, NodeBuilder>, t: NodeBuilder)
    ensures t in ValuesInOrder(m) <==> t in m.Values
  {
    if t in m.Values {
      var d :| d in m && m[d] == t;
      ValuesInOrderCovers(m, d);
    }
  }

  /** Putting `s` into a free slot of a map adds exactly `s` to its entries. */
  lemma FreeSlotValues(m: map<Direction, NodeBuilder>, dir: Direction, s: NodeBuilder, t: NodeBuilder)
    requires dir !in m
    ensures t in ValuesInOrder(m[dir := s]) <==> t in ValuesInOrder(m) || t == s
  {
    ValuesListed(m, t);
    ValuesListed(m[dir := s], t);
    if t in m.Values {
      var d :| d in m && m[d] == t;
      assert d != dir && m[dir := s][d] == t;
    }
    assert m[dir := s][dir] == s;
  }

  /** Linking a new street into a builder that takes it (no street, a free
    * crossing slot) adds exactly the street to the builder's targets. */
  lemma LinkedTargets(v: ConnView, dir: Direction, s: NodeBuilder, atStart: bool, t: NodeBuilder)
    requires !v.StreetView?
    requires v.CrossingView? ==> if atStart then dir !in v.output else dir !in v.input
    ensures var w := if atStart then LinkedAtStart(v, dir, s) else LinkedAtEnd(v, dir, s);
      !w.StreetView? && (t in ViewTargets(w) <==> t in ViewTargets(v) || t == s)
  {
    if v.CrossingView? {
      if atStart {
        FreeSlotValues(v.output, dir, s, t);
      } else {
        FreeSlotValues(v.input, dir, s, t);
      }
    }
  }

  /** `add_node` of a builder with no connections keeps a well-formed list
    * well-formed. */
  lemma AddKeepsWellFormed(views: seq<ConnView>, ns: seq<NodeBuilder>, v: ConnView, n: NodeBuilder)
    requires WellFormed(views, ns) && n !in ns
    requires ViewTargets(v) == [] && (v.StreetView? <==> n.Street?)
    ensures WellFormed(views + [v], ns + [n])
  {
    var vs, ms := views + [v], ns + [n];
    forall k | 0 <= k < |ms|
      ensures vs[k].StreetView? <==> ms[k].Street?
    {
      if k < |ns| {
        assert vs[k] == views[k] && ms[k] == ns[k];
      }
    }
    GrownDistinct(ns, n);
    AddedClosed(views, ns, v, n);
    AddedLinks(views, ns, v, n);
  }

  /** Appending a builder with no connections keeps the list closed. */
  lemma AddedClosed(views: seq<ConnView>, ns: seq<NodeBuilder>, v: ConnView, n: NodeBuilder)
    requires |views| == |ns| && Closed(views, ns) && ViewTargets(v) == []
    ensures Closed(views + [v], ns + [n])
  {
    var vs, ms := views + [v], ns + [n];
    forall k, j | 0 <= k < |ms| && 0 <= j < |ViewTargets(vs[k])|
      ensures ViewTargets(vs[k])[j] in ms
    {
      assert k < |ns| && vs[k] == views[k];
      var i := ClosedIndex(views, ns, k, ViewTargets(views[k])[j]);
      assert ms[i] == ns[i];
    }
  }

  /** Appending a builder with no connections, and named by none, keeps the
    * links symmetric and alternating. */
  lemma AddedLinks(views: seq<ConnView>, ns: seq<NodeBuilder>, v: ConnView, n: NodeBuilder)
    requires WellFormed(views, ns) && n !in ns && ViewTargets(v) == []
    ensures Symmetric(views + [v], ns + [n]) && Alternating(views + [v], ns + [n])
  {
    var vs, ms := views + [v], ns + [n];
    forall a, b | 0 <= a < |ms| && 0 <= b < |ms| && ms[b] in ViewTargets(vs[a])
      ensures ms[a] in ViewTargets(vs[b]) && ms[a].Street? != ms[b].Street?
    {
      assert a < |ns| && vs[a] == views[a] && ms[a] == ns[a];
      if b == |ns| {
        assert false;
      }
      assert vs[b] == views[b] && ms[b] == ns[b];
    }
  }

  /** `views2` holds the targets of `views` and the new street `s` at `k1`
    * and `k2`, and the street itself with the ends `ns[k1]`, `ns[k2]` last. */
  predicate GrowsBy(views: seq<ConnView>, views2: seq<ConnView>, ns: seq<NodeBuilder>, k1: nat, k2: nat, s: NodeBuilder)
  {
    |views| == |ns| && |views2| == |ns| + 1 && k1 < |ns| && k2 < |ns| &&
    ViewTargets(views2[|ns|]) == [ns[k2], ns[k1]] &&
    s in ViewTargets(views2[k1]) && s in ViewTargets(views2[k2]) &&
    (forall k, j :: 0 <= k < |ns| && 0 <= j < |ViewTargets(views[k])| ==>
      ViewTargets(views[k])[j] in ViewTargets(views2[k])) &&
    (forall k, j :: 0 <= k < |ns| && 0 <= j < |ViewTargets(views2[k])| ==>
      ViewTargets(views2[k])[j] in ViewTargets(views[k]) || (ViewTargets(views2[k])[j] == s && (k == k1 || k == k2)))
  }

  /** A successful `connect_with_street` keeps a well-formed list
    * well-formed: `views2` are the connections afterwards, the two ends
    * linked to the new street `s`, the street appended with its two ends,
    * every other builder as it was. */
  lemma ConnectKeepsWellFormed(views: seq<ConnView>, ns: seq<NodeBuilder>, k1: nat, dir1: Direction,
                               k2: nat, dir2: Direction, s: NodeBuilder, views2: seq<ConnView>)
    requires WellFormed(views, ns) && k1 < |ns| && k2 < |ns| && k1 != k2
    requires StageOf(views[k1], dir1, views[k2], dir2) == BothLinked
    requires s.Street? && s !in ns
    requires |views2| == |ns| + 1
    requires forall k :: 0 <= k < |ns| && k != k1 && k != k2 ==> views2[k] == views[k]
    requires views2[k1] == LinkedAtStart(views[k1], dir1, s)
    requires views2[k2] == LinkedAtEnd(views[k2], dir2, s)
    requires views2[|ns|] == StreetView(Some(ns[k1]), Some(ns[k2]))
    ensures WellFormed(views2, ns + [s])
  {
    ConnectGrows(views, ns, k1, dir1, k2, dir2, s, views2);
    GrownKinds(views, ns, k1, dir1, k2, dir2, s, views2);
    GrownDistinct(ns, s);
    GrownClosed(views, views2, ns, k1, k2, s);
    GrownLinks(views, views2, ns, k1, k2, s);
  }

  /** The connections after `connect_with_street` has linked the new street
    * `s` from `ns[k1]` (side `dir1`) to `ns[k2]` (side `dir2`): the two
    * ends gain `s`, every other builder keeps its view, and `s` is appended
    * with its two ends. */
  function LinkedViews(views: seq<ConnView>, ns: seq<NodeBuilder>, k1: nat, dir1: Direction,
                       k2: nat, dir2: Direction, s: NodeBuilder): (r: seq<ConnView>)
    requires k1 < |views| && k2 < |views| && k1 < |ns| && k2 < |ns|
    ensures |r| == |views| + 1
  {
    views[k1 := LinkedAtStart(views[k1], dir1, s)][k2 := LinkedAtEnd(views[k2], dir2, s)] +
      [StreetView(Some(ns[k1]), Some(ns[k2]))]
  }

  /** `ConnectKeepsWellFormed` for `LinkedViews`. */
  lemma LinkedKeepsWellFormed(views: seq<ConnView>, ns: seq<NodeBuilder>, k1: nat, dir1: Direction,
                              k2: nat, dir2: Direction, s: NodeBuilder)
    requires WellFormed(views, ns) && k1 < |ns| && k2 < |ns| && k1 != k2
    requires StageOf(views[k1], dir1, views[k2], dir2) == BothLinked
    requires s.Street? && s !in ns
    ensures WellFormed(LinkedViews(views, ns, k1, dir1, k2, dir2, s), ns + [s])
  {
    var views2 := LinkedViews(views, ns, k1, dir1, k2, dir2, s);
    assert views2[|ns|] == StreetView(Some(ns[k1]), Some(ns[k2]));
    ConnectKeepsWellFormed(views, ns, k1, dir1, k2, dir2, s, views2);
  }

  /** The builders show `LinkedViews` once the two ends are linked and the
    * street appended, every other builder unchanged. */
  lemma LinkedViewsShown(views: seq<ConnView>, ns: seq<NodeBuilder>, k1: nat, dir1: Direction,
                         k2: nat, dir2: Direction, s: NodeBuilder)
    requires |views| == |ns| && k1 < |ns| && k2 < |ns| && k1 != k2 && s.Street?
    requires forall k :: 0 <= k < |ns| && k != k1 && k != k2 ==> View(ns[k]) == views[k]
    requires View(ns[k1]) == LinkedAtStart(views[k1], dir1, s)
    requires View(ns[k2]) == LinkedAtEnd(views[k2], dir2, s)
    requires s.street.connIn == Some(ns[k1]) && s.street.connOut == Some(ns[k2])
    ensures ViewsOf(ns + [s]) == LinkedViews(views, ns, k1, dir1, k2, dir2, s)
  {
    var ns2, views2 := ns + [s], LinkedViews(views, ns, k1, dir1, k2, dir2, s);
    forall k | 0 <= k < |ns2|
      ensures ViewsOf(ns2)[k] == views2[k]
    {
      ViewsOfAt(ns2, k);
    }
  }

  /** The builder appended to a list that shares no object is not already in it. */
  lemma AppendedApart(ns: seq<NodeBuilder>, n: NodeBuilder, ns2: seq<NodeBuilder>)
    requires ns2 == ns + [n] && Disjoint(ns2)
    ensures n !in ns
  {
    DisjointDistinct(ns2);
    forall j | 0 <= j < |ns|
      ensures ns[j] != n
    {
      assert ns2[j] == ns[j] && ns2[|ns|] == n;
    }
  }

  /** The targets after linking: the ends gain the street, the street has
    * the two ends, every other builder keeps its own. */
  lemma ConnectGrows(views: seq<ConnView>, ns: seq<NodeBuilder>, k1: nat, dir1: Direction,
                     k2: nat, dir2: Direction, s: NodeBuilder, views2: seq<ConnView>)
    requires |views| == |ns| && KindsAgree(views, ns) && k1 < |ns| && k2 < |ns| && k1 != k2
    requires StageOf(views[k1], dir1, views[k2], dir2) == BothLinked
    requires |views2| == |ns| + 1
    requires forall k :: 0 <= k < |ns| && k != k1 && k != k2 ==> views2[k] == views[k]
    requires views2[k1] == LinkedAtStart(views[k1], dir1, s)
    requires views2[k2] == LinkedAtEnd(views[k2], dir2, s)
    requires views2[|ns|] == StreetView(Some(ns[k1]), Some(ns[k2]))
    ensures GrowsBy(views, views2, ns, k1, k2, s)
  {
    LinkedTargets(views[k1], dir1, s, true, s);
    LinkedTargets(views[k2], dir2, s, false, s);
    forall k, j | 0 <= k < |ns| && 0 <= j < |ViewTargets(views[k])|
      ensures ViewTargets(views[k])[j] in ViewTargets(views2[k])
    {
      var t := ViewTargets(views[k])[j];
      if k == k1 {
        LinkedTargets(views[k1], dir1, s, true, t);
      } else if k == k2 {
        LinkedTargets(views[k2], dir2, s, false, t);
      }
    }
    forall k, j | 0 <= k < |ns| && 0 <= j < |ViewTargets(views2[k])|
      ensures ViewTargets(views2[k])[j] in ViewTargets(views[k]) || (ViewTargets(views2[k])[j] == s && (k == k1 || k == k2))
    {
      var t := ViewTargets(views2[k])[j];
      if k == k1 {
        LinkedTargets(views[k1], dir1, s, true, t);
      } else if k == k2 {
        LinkedTargets(views[k2], dir2, s, false, t);
      }
    }
  }

  lemma GrownKinds(views: seq<ConnView>, ns: seq<NodeBuilder>, k1: nat, dir1: Direction,
                   k2: nat, dir2: Direction, s: NodeBuilder, views2: seq<ConnView>)
    requires |views| == |ns| && KindsAgree(views, ns) && k1 < |ns| && k2 < |ns| && k1 != k2
    requires StageOf(views[k1], dir1, views[k2], dir2) == BothLinked
    requires s.Street? && |views2| == |ns| + 1
    requires forall k :: 0 <= k < |ns| && k != k1 && k != k2 ==> views2[k] == views[k]
    requires views2[k1] == LinkedAtStart(views[k1], dir1, s)
    requires views2[k2] == LinkedAtEnd(views[k2], dir2, s)
    requires views2[|ns|] == StreetView(Some(ns[k1]), Some(ns[k2]))
    ensures KindsAgree(views2, ns + [s])
  {
    var ms := ns + [s];
    forall k | 0 <= k < |ms|
      ensures views2[k].StreetView? <==> ms[k].Street?
    {
      if k == k1 {
        LinkedTargets(views[k1], dir1, s, true, s);
      } else if k == k2 {
        LinkedTargets(views[k2], dir2, s, false, s);
      }
      if k < |ns| {
        assert ms[k] == ns[k];
      }
    }
  }

  lemma GrownDistinct(ns: seq<NodeBuilder>, s: NodeBuilder)
    requires Distinct(ns) && s !in ns
    ensures Distinct(ns + [s])
  {
    var ms := ns + [s];
    assert forall k :: 0 <= k < |ns| ==> ms[k] == ns[k];
  }

  lemma GrownClosed(views: seq<ConnView>, views2: seq<ConnView>, ns: seq<NodeBuilder>, k1: nat, k2: nat, s: NodeBuilder)
    requires GrowsBy(views, views2, ns, k1, k2, s) && Closed(views, ns)
    ensures Closed(views2, ns + [s])
  {
    var ms := ns + [s];
    forall k, j | 0 <= k < |ms| && 0 <= j < |ViewTargets(views2[k])|
      ensures ViewTargets(views2[k])[j] in ms
    {
      var t := ViewTargets(views2[k])[j];
      if k == |ns| {
        assert ms[k1] == ns[k1] && ms[k2] == ns[k2];
      } else if t == s {
        assert ms[|ns|] == s;
      } else {
        var i := ClosedIndex(views, ns, k, t);
        assert ms[i] == t;
      }
    }
  }

  /** In a closed list, a target of a listed builder is listed. */
  lemma ClosedIndex(views: seq<ConnView>, ns: seq<NodeBuilder>, k: nat, t: NodeBuilder) returns (i: nat)
    requires |views| == |ns| && Closed(views, ns) && k < |ns| && t in ViewTargets(views[k])
    ensures i < |ns| && ns[i] == t
  {
    var j :| 0 <= j < |ViewTargets(views[k])| && ViewTargets(views[k])[j] == t;
    assert t in ns;
    i :| 0 <= i < |ns| && ns[i] == t;
  }

  /** The links of the grown list are symmetric and alternate between
    * streets and other builders. */
  lemma GrownLinks(views: seq<ConnView>, views2: seq<ConnView>, ns: seq<NodeBuilder>, k1: nat, k2: nat, s: NodeBuilder)
    requires GrowsBy(views, views2, ns, k1, k2, s) && WellFormed(views, ns)
    requires s.Street? && s !in ns && !ns[k1].Street? && !ns[k2].Street?
    ensures Symmetric(views2, ns + [s]) && Alternating(views2, ns + [s])
  {
    var ms := ns + [s];
    forall a, b | 0 <= a < |ms| && 0 <= b < |ms| && ms[b] in ViewTargets(views2[a])
      ensures ms[a] in ViewTargets(views2[b]) && ms[a].Street? != ms[b].Street?
    {
      GrownLink(views, views2, ns, k1, k2, s, a, b);
    }
  }

  lemma GrownLink(views: seq<ConnView>, views2: seq<ConnView>, ns: seq<NodeBuilder>, k1: nat, k2: nat, s: NodeBuilder, a: nat, b: nat)
    requires GrowsBy(views, views2, ns, k1, k2, s) && WellFormed(views, ns)
    requires s.Street? && s !in ns && !ns[k1].Street? && !ns[k2].Street?
    requires a <= |ns| && b <= |ns| && (ns + [s])[b] in ViewTargets(views2[a])
    ensures (ns + [s])[a] in ViewTargets(views2[b]) && (ns + [s])[a].Street? != (ns + [s])[b].Street?
  {
    var ms := ns + [s];
    var t := ms[b];
    var j :| 0 <= j < |ViewTargets(views2[a])| && ViewTargets(views2[a])[j] == t;
    if a == |ns| {
      assert t == ns[k2] || t == ns[k1];
      assert b == k1 || b == k2 by {
        if b < |ns| {
          assert ns[b] == ns[k1] || ns[b] == ns[k2];
        }
      }
    } else if b == |ns| {
      if a != k1 && a != k2 {
        assert false;
      }
      assert ms[a] == ns[a];
    } else {
      assert ms[a] == ns[a] && ms[b] == ns[b];
      assert ns[b] != s;
      assert ns[b] in ViewTargets(views[a]);
      assert ns[a] in ViewTargets(views[b]);
      var j2 :| 0 <= j2 < |ViewTargets(views[b])| && ViewTargets(views[b])[j2] == ns[a];
      assert ns[a] in ViewTargets(views2[b]);
    }
  }
}
