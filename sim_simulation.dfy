/**
 * The simulator (simulator/src/simulation.rs): an ordered list of nodes that
 * hands networks to its crossings and collects them back, reports the cars
 * of every node keyed by node id, runs a bounded number of iterations, and in
 * every iteration moves the cars that reached the end of a node, node by node
 * in list order and, within a node, from the rightmost finished index down.
 */
module SimSimulation {
  import opened Wrappers
  import opened ArtInt
  import opened SimNode
  import opened SimPathfinding

  /** One entry of the simulator's node list. */
  datatype NodeRef = StreetRef(street: Street) | IONodeRef(io: IONode) | CrossingRef(crossing: Crossing)

  function ObjectOf(n: NodeRef): object
  {
    match n
    case StreetRef(s) => s
    case IONodeRef(io) => io
    case CrossingRef(c) => c
  }

  function NodeId(n: NodeRef): nat
    reads ObjectOf(n)
  {
    match n
    case StreetRef(s) => s.id
    case IONodeRef(io) => io.id
    case CrossingRef(c) => c.id
  }

  function Objects(ns: seq<NodeRef>): set<object>
  {
    set n | n in ns :: ObjectOf(n)
  }

  function CrossingSet(ns: seq<NodeRef>): set<object>
  {
    set n | n in ns && n.CrossingRef? :: n.crossing as object
  }

  function IONodeSet(ns: seq<NodeRef>): set<object>
  {
    set n | n in ns && n.IONodeRef? :: n.io as object
  }

  /** No node object appears twice in the list. */
  predicate Distinct(ns: seq<NodeRef>)
  {
    forall a, b :: 0 <= a < b < |ns| ==> ObjectOf(ns[a]) != ObjectOf(ns[b])
  }

  /** No two nodes of the list carry the same id. */
  predicate UniqueIds(ns: seq<NodeRef>)
    reads Objects(ns)
  {
    forall a, b :: 0 <= a < b < |ns| ==> NodeId(ns[a]) != NodeId(ns[b])
  }

  /** The number of crossings in a node list. */
  function CountCrossings(ns: seq<NodeRef>): nat
  {
    if ns == [] then 0
    else CountCrossings(ns[..|ns| - 1]) + (if ns[|ns| - 1].CrossingRef? then 1 else 0)
  }

  /** The position among the crossings of the node at index j. */
  function Rank(ns: seq<NodeRef>, j: nat): nat
    requires j <= |ns|
  {
    CountCrossings(ns[..j])
  }

  lemma CountStep(ns: seq<NodeRef>, j: nat)
    requires j < |ns|
    ensures CountCrossings(ns[..j + 1]) == CountCrossings(ns[..j]) + (if ns[j].CrossingRef? then 1 else 0)
  {
    assert ns[..j + 1][..j] == ns[..j];
  }

  lemma {:induction false} CountMonotone(ns: seq<NodeRef>, a: nat, b: nat)
    requires a <= b <= |ns|
    ensures CountCrossings(ns[..a]) <= CountCrossings(ns[..b])
    decreases b - a
  {
    if a < b {
      CountStep(ns, b - 1);
      CountMonotone(ns, a, b - 1);
    }
  }

  /** Every crossing's rank is below the number of crossings. */
  lemma RankBelowCount(ns: seq<NodeRef>, j: nat)
    requires j < |ns| && ns[j].CrossingRef?
    ensures Rank(ns, j) < CountCrossings(ns)
  {
    CountStep(ns, j);
    CountMonotone(ns, j + 1, |ns|);
    assert ns[..|ns|] == ns;
  }

  /** The network slots of the crossings, in node order. */
  function CrossingNns(ns: seq<NodeRef>): (v: seq<Option<Network>>)
    reads CrossingSet(ns)
    ensures |v| == CountCrossings(ns)
  {
    if ns == [] then []
    else CrossingNns(ns[..|ns| - 1]) + (if ns[|ns| - 1].CrossingRef? then [ns[|ns| - 1].crossing.nn] else [])
  }

  /** The slot of the crossing at index j sits at its rank. */
  lemma {:induction false} CrossingNnsAt(ns: seq<NodeRef>, j: nat)
    requires j < |ns| && ns[j].CrossingRef?
    ensures Rank(ns, j) < |CrossingNns(ns)| && CrossingNns(ns)[Rank(ns, j)] == ns[j].crossing.nn
  {
    var p := ns[..|ns| - 1];
    if j == |ns| - 1 {
      assert ns[..j] == p;
    } else {
      assert p[..j] == ns[..j];
      CrossingNnsAt(p, j);
    }
  }

  /** When every crossing holds an acceptable network, so does every slot. */
  lemma {:induction false} CrossingNnsAccepted(ns: seq<NodeRef>)
    requires forall j :: 0 <= j < |ns| && ns[j].CrossingRef? ==>
               ns[j].crossing.nn.Some? && AcceptsNnInputs(ns[j].crossing.nn.value)
    ensures forall k :: 0 <= k < |CrossingNns(ns)| ==>
              CrossingNns(ns)[k].Some? && AcceptsNnInputs(CrossingNns(ns)[k].value)
  {
    if ns != [] {
      var p := ns[..|ns| - 1];
      assert forall j :: 0 <= j < |p| ==> p[j] == ns[j];
      CrossingNnsAccepted(p);
    }
  }

  /** The networks present among the slots, in order. */
  function Somes(v: seq<Option<Network>>): seq<Network>
  {
    if v == [] then []
    else Somes(v[..|v| - 1]) + (if v[|v| - 1].Some? then [v[|v| - 1].value] else [])
  }

  lemma SomesSnoc(v: seq<Option<Network>>, x: Option<Network>)
    ensures Somes(v + [x]) == Somes(v) + (if x.Some? then [x.value] else [])
  {
    assert (v + [x])[..|v|] == v;
  }

  /** With no empty slot, nothing is dropped and the order is kept. */
  lemma {:induction false} SomesAll(v: seq<Option<Network>>)
    requires forall k :: 0 <= k < |v| ==> v[k].Some?
    ensures |Somes(v)| == |v| && forall k :: 0 <= k < |v| ==> Somes(v)[k] == v[k].value
  {
    if v != [] {
      SomesAll(v[..|v| - 1]);
    }
  }


  lemma OthersDiffer(ns: seq<NodeRef>, j: nat)
    requires Distinct(ns) && j < |ns| && ns[j].CrossingRef?
    ensures forall i :: 0 <= i < |ns| && i != j && ns[i].CrossingRef? ==> ns[i].crossing != ns[j].crossing
  {
    forall i | 0 <= i < |ns| && i != j && ns[i].CrossingRef?
      ensures ns[i].crossing != ns[j].crossing
    {
      if i < j {
        assert ObjectOf(ns[i]) != ObjectOf(ns[j]);
      } else {
        assert ObjectOf(ns[j]) != ObjectOf(ns[i]);
      }
    }
  }

  /** Every network in a slot of its own, in order. */
  function Wrap(nns: seq<Network>): (r: seq<Option<Network>>)
    ensures |r| == |nns| && forall k :: 0 <= k < |nns| ==> r[k] == Some(nns[k])
  {
    seq(|nns|, k requires 0 <= k < |nns| => Some(nns[k]))
  }

  lemma WrapSnoc(nns: seq<Network>, x: Network)
    ensures Wrap(nns + [x]) == Wrap(nns) + [Some(x)]
  {
  }

  /** A crossing keeps everything but its network slot. */
  twostate predicate KeepsLayout(c: Crossing)
    reads c
  {
    c.input == old(c.input) && c.output == old(c.output) && c.id == old(c.id)
    && c.trafficLightState == old(c.trafficLightState) && c.carLane == old(c.carLane)
  }

  /** The first k networks all read sixteen inputs. */
  predicate AllAccepted(nns: seq<Network>, k: nat)
  {
    forall t :: 0 <= t < k && t < |nns| ==> AcceptsNnInputs(nns[t])
  }

  /** The crossings before index j each hold the network at their rank. */
  predicate HandedBelow(ns: seq<NodeRef>, j: nat, nns: seq<Network>)
    requires j <= |ns|
    reads CrossingSet(ns)
  {
    forall i :: 0 <= i < j && ns[i].CrossingRef? ==>
      Rank(ns, i) < |nns| && ns[i].crossing.nn == Some(nns[Rank(ns, i)])
  }

  /** When the crossings of a prefix hold the networks at their ranks, the
    * prefix's slots are the first networks in order. */
  lemma {:induction false} PrefixSlots(ns: seq<NodeRef>, nns: seq<Network>, j: nat)
    requires j <= |ns| && Rank(ns, j) <= |nns| && HandedBelow(ns, j, nns)
    ensures CrossingNns(ns[..j]) == Wrap(nns[..Rank(ns, j)])
  {
    if j > 0 {
      CountStep(ns, j - 1);
      PrefixSlots(ns, nns, j - 1);
      var k := Rank(ns, j - 1);
      assert ns[..j][..j - 1] == ns[..j - 1];
      if ns[j - 1].CrossingRef? {
        assert nns[..k + 1] == nns[..k] + [nns[k]];
        WrapSnoc(nns[..k], nns[k]);
      }
    }
  }

  /** The loop of `set_neural_networks` over the node list `ns`: the
    * networks are reversed into a stack and popped, one per crossing. */
  method HandOut(ns: seq<NodeRef>, nns: seq<Network>) returns (ok: bool)
    requires Distinct(ns)
    modifies CrossingSet(ns)
    ensures ok <==> (CountCrossings(ns) <= |nns| && AllAccepted(nns, CountCrossings(ns)))
    ensures ok ==> HandedBelow(ns, |ns|, nns)
    ensures forall c: Crossing :: c in CrossingSet(ns) ==> KeepsLayout(c)
  {
    ReversedAt(nns);
    var stack := Reversed(nns);
    ghost var rev := stack;
    ghost var k := 0;
    var j := 0;
    while j < |ns|
      invariant 0 <= j <= |ns|
      invariant k == Rank(ns, j) && k <= |nns| && stack == rev[..|nns| - k]
      invariant AllAccepted(nns, k) && HandedBelow(ns, j, nns)
      invariant forall c: Crossing :: c in CrossingSet(ns) ==> KeepsLayout(c)
    {
      var handed;
      handed, stack, k := HandOutAt(ns, j, nns, stack, rev, k);
      if !handed {
        return false;
      }
      j := j + 1;
    }
    assert ns[..|ns|] == ns;
    return true;
  }

  /** One step of `set_neural_networks`: a crossing at index j pops the
    * next network from the stack; it fails when the stack is empty or the
    * network does not read sixteen inputs. Other nodes pass unchanged. */
  method HandOutAt(ns: seq<NodeRef>, j: nat, nns: seq<Network>, stack: seq<Network>, ghost rev: seq<Network>, ghost k: nat)
    returns (handed: bool, stack2: seq<Network>, ghost k2: nat)
    requires Distinct(ns) && j < |ns|
    requires rev == Reversed(nns) && |rev| == |nns| && k == Rank(ns, j) && k <= |nns| && stack == rev[..|nns| - k]
    requires AllAccepted(nns, k) && HandedBelow(ns, j, nns)
    modifies if ns[j].CrossingRef? then {ns[j].crossing} else {}
    ensures handed ==> k2 == Rank(ns, j + 1) && k2 <= |nns| && stack2 == rev[..|nns| - k2]
    ensures handed ==> AllAccepted(nns, k2) && HandedBelow(ns, j + 1, nns)
    ensures !handed ==> !(CountCrossings(ns) <= |nns| && AllAccepted(nns, CountCrossings(ns)))
    ensures ns[j].CrossingRef? ==> KeepsLayout(ns[j].crossing)
  {
    ReversedAt(nns);
    CountStep(ns, j);
    stack2, k2 := stack, k;
    if ns[j].CrossingRef? {
      RankBelowCount(ns, j);
      if stack == [] {
        return false, stack2, k2;
      }
      var net := stack[|stack| - 1];
      assert net == nns[k];
      stack2 := stack[..|stack| - 1];
      OthersDiffer(ns, j);
      handed := ns[j].crossing.SetNeuralNetwork(net);
      k2 := k + 1;
    } else {
      handed := true;
    }
  }

  /** What a node reports about its cars: a street lane by lane, an IONode
    * its recorded cars, a crossing the cars of its lane. */
  function NodeStatus(n: NodeRef): seq<MovableStatus>
    reads ObjectOf(n)
  {
    match n
    case StreetRef(s) => StatusFrom(s.lanes, 0)
    case IONodeRef(io) => AbsorbedStatuses(io.recordedCars)
    case CrossingRef(c) => c.CarStatus()
  }

  /** The node ids in list order. */
  function Ids(ns: seq<NodeRef>): (r: seq<nat>)
    reads Objects(ns)
    ensures |r| == |ns|
  {
    if ns == [] then [] else Ids(ns[..|ns| - 1]) + [NodeId(ns[|ns| - 1])]
  }

  /** The node statuses in list order. */
  function Statuses(ns: seq<NodeRef>): (r: seq<seq<MovableStatus>>)
    reads Objects(ns)
    ensures |r| == |ns|
  {
    if ns == [] then [] else Statuses(ns[..|ns| - 1]) + [NodeStatus(ns[|ns| - 1])]
  }

  lemma {:induction false} IdsIndexed(ns: seq<NodeRef>)
    ensures forall i :: 0 <= i < |ns| ==> Ids(ns)[i] == NodeId(ns[i])
  {
    if ns != [] {
      var p := ns[..|ns| - 1];
      IdsIndexed(p);
      assert forall i :: 0 <= i < |p| ==> p[i] == ns[i];
    }
  }

  lemma {:induction false} StatusesIndexed(ns: seq<NodeRef>)
    ensures forall i :: 0 <= i < |ns| ==> Statuses(ns)[i] == NodeStatus(ns[i])
  {
    if ns != [] {
      var p := ns[..|ns| - 1];
      StatusesIndexed(p);
      assert forall i :: 0 <= i < |p| ==> p[i] == ns[i];
    }
  }

  /** The map `get_car_status` builds: node by node, the id is bound to
    * the status when the status is non-empty. */
  function StatusMap(ids: seq<nat>, sts: seq<seq<MovableStatus>>): map<nat, seq<MovableStatus>>
    requires |ids| == |sts|
  {
    if ids == [] then map[]
    else
      var m := StatusMap(ids[..|ids| - 1], sts[..|sts| - 1]);
      if sts[|sts| - 1] != [] then m[ids[|ids| - 1] := sts[|sts| - 1]] else m
  }

  /** Every key is the id of a node with a non-empty status; with unique
    * ids, a node's id is a key exactly when its status is non-empty, and
    * it is bound to that status. */
  lemma {:induction false} StatusMapSpec(ids: seq<nat>, sts: seq<seq<MovableStatus>>)
    requires |ids| == |sts|
    ensures forall id :: id in StatusMap(ids, sts) ==>
              exists j :: 0 <= j < |ids| && ids[j] == id && sts[j] != []
    ensures (forall a, b :: 0 <= a < b < |ids| ==> ids[a] != ids[b]) ==>
              forall j :: 0 <= j < |ids| ==>
                (ids[j] in StatusMap(ids, sts) <==> sts[j] != []) &&
                (ids[j] in StatusMap(ids, sts) ==> StatusMap(ids, sts)[ids[j]] == sts[j])
  {
    if ids != [] {
      var n := |ids| - 1;
      StatusMapSpec(ids[..n], sts[..n]);
      assert forall j :: 0 <= j < n ==> ids[..n][j] == ids[j] && sts[..n][j] == sts[j];
    }
  }

  /** Inserts the non-empty statuses into a fresh map, in node order. */
  method CollectStatus(ids: seq<nat>, sts: seq<seq<MovableStatus>>) returns (m: map<nat, seq<MovableStatus>>)
    requires |ids| == |sts|
    ensures m == StatusMap(ids, sts)
  {
    m := map[];
    var j := 0;
    while j < |ids|
      invariant 0 <= j <= |ids|
      invariant m == StatusMap(ids[..j], sts[..j])
    {
      assert ids[..j + 1][..j] == ids[..j] && sts[..j + 1][..j] == sts[..j];
      if sts[j] != [] {
        m := m[ids[j] := sts[j]];
      }
      j := j + 1;
    }
    assert ids[..j] == ids && sts[..j] == sts;
  }

  lemma NodeSetsSnoc(ns: seq<NodeRef>, j: nat)
    requires j < |ns|
    ensures IONodeSet(ns[..j + 1]) == IONodeSet(ns[..j]) + (if ns[j].IONodeRef? then {ns[j].io as object} else {})
    ensures CrossingSet(ns[..j + 1]) == CrossingSet(ns[..j]) + (if ns[j].CrossingRef? then {ns[j].crossing as object} else {})
  {
    assert ns[..j + 1] == ns[..j] + [ns[j]];
    assert forall n :: n in ns[..j + 1] <==> n in ns[..j] || n == ns[j];
  }

  /** The IONode at index j is not among the IONodes before it. */
  lemma IONodePrefixExcludes(ns: seq<NodeRef>, j: nat)
    requires Distinct(ns) && j < |ns|
    ensures ns[j].IONodeRef? ==> ns[j].io !in IONodeSet(ns[..j])
  {
    forall n | n in ns[..j] && n.IONodeRef? && ns[j].IONodeRef?
      ensures n.io != ns[j].io
    {
      var i :| 0 <= i < j && ns[..j][i] == n;
      assert ObjectOf(ns[i]) != ObjectOf(ns[j]);
    }
  }

  /** The crossings from index j on still hold the networks recorded in
    * `view`, at their ranks. */
  predicate NnsPending(ns: seq<NodeRef>, j: nat, view: seq<Option<Network>>)
    requires j <= |ns|
    reads CrossingSet(ns)
  {
    forall i :: j <= i < |ns| && ns[i].CrossingRef? ==>
      Rank(ns, i) < |view| && view[Rank(ns, i)] == ns[i].crossing.nn
  }

  /** The crossings before index j hold no network. */
  predicate ClearedBelow(ns: seq<NodeRef>, j: nat)
    requires j <= |ns|
    reads CrossingSet(ns)
  {
    forall i :: 0 <= i < j && ns[i].CrossingRef? ==> ns[i].crossing.nn == None
  }

  /** One step of `remove_all_neural_networks`: the network of node j, if
    * it is a crossing holding one, is taken out and appended. */
  method TakeNnAt(ns: seq<NodeRef>, j: nat, ghost view: seq<Option<Network>>, nets: seq<Network>)
    returns (nets2: seq<Network>)
    requires Distinct(ns) && j < |ns|
    requires Rank(ns, j) <= |view| && nets == Somes(view[..Rank(ns, j)])
    requires NnsPending(ns, j, view) && ClearedBelow(ns, j)
    modifies if ns[j].CrossingRef? then {ns[j].crossing} else {}
    ensures Rank(ns, j + 1) <= |view| && nets2 == Somes(view[..Rank(ns, j + 1)])
    ensures NnsPending(ns, j + 1, view) && ClearedBelow(ns, j + 1)
    ensures ns[j].CrossingRef? ==> KeepsLayout(ns[j].crossing)
  {
    CountStep(ns, j);
    nets2 := nets;
    if ns[j].CrossingRef? {
      var c := ns[j].crossing;
      var k := Rank(ns, j);
      OthersDiffer(ns, j);
      assert view[..k + 1] == view[..k] + [view[k]];
      SomesSnoc(view[..k], view[k]);
      var r := c.RemoveNeuralNetwork();
      if r.Some? {
        nets2 := nets + [r.value];
      }
    }
  }

  /** The nodes from index j on still show the ids and statuses recorded
    * in `ids0` and `sts0`. */
  predicate Pending(ns: seq<NodeRef>, j: nat, ids0: seq<nat>, sts0: seq<seq<MovableStatus>>)
    requires j <= |ns| && |ids0| == |ns| && |sts0| == |ns|
    reads Objects(ns)
  {
    forall i :: j <= i < |ns| ==> NodeId(ns[i]) == ids0[i] && NodeStatus(ns[i]) == sts0[i]
  }

  /** The IONodes before index j hold no recorded cars. */
  predicate DrainedBelow(ns: seq<NodeRef>, j: nat)
    requires j <= |ns|
    reads IONodeSet(ns)
  {
    forall i :: 0 <= i < j && ns[i].IONodeRef? ==> ns[i].io.recordedCars == []
  }

  /** One step of `get_car_status`: the id and status of node j, which is
    * drained if it is an IONode; no other node changes. */
  method DrainAt(ns: seq<NodeRef>, j: nat, ghost ids0: seq<nat>, ghost sts0: seq<seq<MovableStatus>>)
    returns (id: nat, st: seq<MovableStatus>)
    requires Distinct(ns) && j < |ns| && |ids0| == |ns| && |sts0| == |ns|
    requires Pending(ns, j, ids0, sts0) && DrainedBelow(ns, j)
    modifies if ns[j].IONodeRef? then {ns[j].io} else {}
    ensures id == ids0[j] && st == sts0[j]
    ensures Pending(ns, j + 1, ids0, sts0) && DrainedBelow(ns, j + 1)
    ensures ns[j].IONodeRef? ==> ns[j].io.id == old(ns[j].io.id)
  {
    id := NodeId(ns[j]);
    st := NodeCarStatus(ns[j]);
    forall i | j < i < |ns|
      ensures NodeId(ns[i]) == ids0[i] && NodeStatus(ns[i]) == sts0[i]
    {
      assert ObjectOf(ns[j]) != ObjectOf(ns[i]);
    }
    forall i | 0 <= i < j && ns[i].IONodeRef?
      ensures ns[i].io.recordedCars == []
    {
      assert ObjectOf(ns[i]) != ObjectOf(ns[j]);
    }
  }

  lemma PrefixSnoc<T>(s: seq<T>, j: nat)
    requires j < |s|
    ensures s[..j + 1] == s[..j] + [s[j]]
  {
  }

  /** `get_car_status` dispatched on the node kind; only an IONode changes
    * (its recorded cars are drained). */
  method NodeCarStatus(n: NodeRef) returns (st: seq<MovableStatus>)
    modifies if n.IONodeRef? then {n.io} else {}
    ensures st == old(NodeStatus(n))
    ensures NodeId(n) == old(NodeId(n))
    ensures n.IONodeRef? ==> n.io.recordedCars == [] && n.io.record == old(n.io.record)
    ensures n.IONodeRef? ==> n.io.cached == old(n.io.cached) && n.io.numCarsSpawned == old(n.io.numCarsSpawned)
    ensures n.IONodeRef? ==> n.io.connections == old(n.io.connections) && n.io.absorbedCars == old(n.io.absorbedCars)
  {
    match n
    case StreetRef(s) =>
      st := s.GetCarStatus();
    case IONodeRef(io) =>
      st := io.GetCarStatus();
    case CrossingRef(c) =>
      st := c.CarStatus();
  }

  class Simulator {
    var nodes: seq<NodeRef>
    var maxIter: Option<nat>
    var delay: nat
    var dt: real

    constructor(ns: seq<NodeRef>, maxIter: Option<nat>, delay: nat, dt: real)
      ensures nodes == ns && this.maxIter == maxIter && this.delay == delay && this.dt == dt
    {
      nodes := ns;
      this.maxIter := maxIter;
      this.delay := delay;
      this.dt := dt;
    }

    /** `set_neural_networks`: the k-th crossing in node order receives the
      * k-th network. It fails (the source panics) when the networks run out
      * or one does not read sixteen inputs; on success the crossings' slots,
      * in node order, hold the first networks, so every crossing holds the
      * network at its rank. Nothing but the slots changes. */
    method SetNeuralNetworks(nns: seq<Network>) returns (ok: bool)
      requires Distinct(nodes)
      modifies CrossingSet(nodes)
      ensures ok <==> (CountCrossings(nodes) <= |nns| &&
                       forall k :: 0 <= k < CountCrossings(nodes) ==> AcceptsNnInputs(nns[k]))
      ensures ok ==> CrossingNns(nodes) == Wrap(nns[..CountCrossings(nodes)])
      ensures ok ==> forall j :: 0 <= j < |nodes| && nodes[j].CrossingRef? ==>
                       Rank(nodes, j) < |nns| && nodes[j].crossing.nn == Some(nns[Rank(nodes, j)])
      ensures forall c: Crossing :: c in CrossingSet(nodes) ==> KeepsLayout(c)
    {
      ok := HandOut(nodes, nns);
      if ok {
        assert nodes[..|nodes|] == nodes;
        PrefixSlots(nodes, nns, |nodes|);
      }
    }

    /** `remove_all_neural_networks`: the crossings' networks in node order
      * (a crossing without one contributes nothing), every crossing left
      * without one and otherwise unchanged. */
    method RemoveAllNeuralNetworks() returns (nets: seq<Network>)
      requires Distinct(nodes)
      modifies CrossingSet(nodes)
      ensures nets == Somes(old(CrossingNns(nodes)))
      ensures forall j :: 0 <= j < |nodes| && nodes[j].CrossingRef? ==>
                nodes[j].crossing.nn == None && KeepsLayout(nodes[j].crossing)
    {
      var ns := nodes;
      ghost var view := CrossingNns(ns);
      forall i | 0 <= i < |ns| && ns[i].CrossingRef?
        ensures Rank(ns, i) < |view| && view[Rank(ns, i)] == ns[i].crossing.nn
      {
        CrossingNnsAt(ns, i);
      }
      nets := [];
      var j := 0;
      while j < |ns|
        invariant 0 <= j <= |ns| && ns == nodes
        invariant Rank(ns, j) <= |view| && nets == Somes(view[..Rank(ns, j)])
        invariant NnsPending(ns, j, view) && ClearedBelow(ns, j)
        invariant forall c: Crossing :: c in CrossingSet(ns) ==> KeepsLayout(c)
      {
        nets := TakeNnAt(ns, j, view, nets);
        j := j + 1;
      }
      assert ns[..|ns|] == ns;
      assert view[..|view|] == view;
      forall i | 0 <= i < |ns| && ns[i].CrossingRef?
        ensures KeepsLayout(ns[i].crossing)
      {
        assert ns[i] in ns;
      }
    }

    /** A removal followed by handing the same networks back restores every
      * crossing's network, provided each crossing held an acceptable one. */
    method RemoveThenSet() returns (ok: bool)
      requires Distinct(nodes)
      requires forall j :: 0 <= j < |nodes| && nodes[j].CrossingRef? ==>
                 nodes[j].crossing.nn.Some? && AcceptsNnInputs(nodes[j].crossing.nn.value)
      modifies CrossingSet(nodes)
      ensures ok
      ensures CrossingNns(nodes) == old(CrossingNns(nodes))
      ensures forall j :: 0 <= j < |nodes| && nodes[j].CrossingRef? ==> KeepsLayout(nodes[j].crossing)
    {
      ghost var v := CrossingNns(nodes);
      CrossingNnsAccepted(nodes);
      SomesAll(v);
      var nets := RemoveAllNeuralNetworks();
      ok := SetNeuralNetworks(nets);
      assert nets[..|nets|] == nets;
      assert Wrap(nets) == v;
    }

    /** `get_car_status`: the map built from every node's id and status in
      * node order, keeping only non-empty statuses (StatusMap). IONodes are
      * drained of their recorded cars and keep their ids. */
    method GetCarStatus() returns (m: map<nat, seq<MovableStatus>>)
      requires Distinct(nodes)
      modifies IONodeSet(nodes)
      ensures m == StatusMap(old(Ids(nodes)), old(Statuses(nodes)))
      ensures forall io: IONode :: io in IONodeSet(nodes) ==> io.recordedCars == [] && io.id == old(io.id)
    {
      var ns := nodes;
      ghost var ids0 := Ids(ns);
      ghost var sts0 := Statuses(ns);
      IdsIndexed(ns);
      StatusesIndexed(ns);
      var ids: seq<nat> := [];
      var sts: seq<seq<MovableStatus>> := [];
      var j := 0;
      while j < |ns|
        invariant 0 <= j <= |ns| && ns == nodes
        invariant ids == ids0[..j] && sts == sts0[..j]
        invariant Pending(ns, j, ids0, sts0) && DrainedBelow(ns, j)
        invariant forall io: IONode :: io in IONodeSet(ns) ==> io.id == old(io.id)
      {
        var id, st := DrainAt(ns, j, ids0, sts0);
        PrefixSnoc(ids0, j);
        PrefixSnoc(sts0, j);
        ids := ids + [id];
        sts := sts + [st];
        j := j + 1;
      }
      assert ids0[..|ns|] == ids0 && sts0[..|ns|] == sts0;
      forall io: IONode | io in IONodeSet(ns)
        ensures io.recordedCars == []
      {
        var n :| n in ns && n.IONodeRef? && n.io == io;
        var i :| 0 <= i < |ns| && ns[i] == n;
      }
      m := CollectStatus(ids, sts);
    }

    /** `simulation_loop` with `max_iter = Some(m)`: the stop test
      * `counter > m` precedes every iteration, so m + 1 iterations run. */
    method SimulationLoop() returns (iterations: nat)
      requires maxIter.Some?
      ensures iterations == maxIter.value + 1
    {
      var counter := 0;
      while !(counter > maxIter.value)
        invariant counter <= maxIter.value + 1
        decreases maxIter.value + 1 - counter
      {
        counter := counter + 1;
      }
      iterations := counter;
    }
  }

  // ---------------------------------------------------------------
  // update_all_nodes: the order in which finished cars are visited
  // ---------------------------------------------------------------

  lemma {:induction false} MaxExists(s: set<nat>)
    requires s != {}
    ensures exists m :: m in s && forall y :: y in s ==> y <= m
    decreases |s|
  {
    var x :| x in s;
    if s - {x} != {} {
      MaxExists(s - {x});
      var m :| m in s - {x} && forall y :: y in s - {x} ==> y <= m;
      var top := if x > m then x else m;
      forall y | y in s
        ensures y <= top
      {
        if y != x {
          assert y in s - {x};
        }
      }
      assert top in s;
    } else {
      assert s == {x};
    }
  }

  /** The largest element of a non-empty set. */
  ghost function Max(s: set<nat>): (m: nat)
    requires s != {}
    ensures m in s && forall y :: y in s ==> y <= m
  {
    MaxExists(s);
    var m :| m in s && forall y :: y in s ==> y <= m; m
  }

  /** The elements of a set in ascending order, as `cars_at_end.sort()` leaves them. */
  ghost function Ascending(s: set<nat>): seq<nat>
    decreases |s|
  {
    if s == {} then [] else Ascending(s - {Max(s)}) + [Max(s)]
  }

  /** Ascending holds exactly the set's elements, strictly increasing. */
  lemma {:induction false} AscendingSpec(s: set<nat>)
    ensures |Ascending(s)| == |s|
    ensures forall x :: x in Ascending(s) <==> x in s
    ensures forall a, b :: 0 <= a < b < |Ascending(s)| ==> Ascending(s)[a] < Ascending(s)[b]
    decreases |s|
  {
    if s != {} {
      var m := Max(s);
      var rest := s - {m};
      AscendingSpec(rest);
      var a := Ascending(rest);
      assert Ascending(s) == a + [m];
      forall k | 0 <= k < |a|
        ensures a[k] in rest && a[k] < m
      {
        assert a[k] in a;
        assert a[k] in s && a[k] != m;
      }
      forall x
        ensures x in a + [m] <==> x in s
      {
        if x != m {
          assert x in a + [m] <==> x in a;
        }
      }
    }
  }

  /** The visits of node i: its finished indices from the largest down. */
  function NodeVisits(i: nat, asc: seq<nat>): (r: seq<(nat, nat)>)
    ensures |r| == |asc| && forall t :: 0 <= t < |asc| ==> r[t] == (i, asc[|asc| - 1 - t])
  {
    seq(|asc|, t requires 0 <= t < |asc| => (i, asc[|asc| - 1 - t]))
  }

  lemma NodeVisitsSnoc(i: nat, a: seq<nat>, m: nat)
    ensures NodeVisits(i, a + [m]) == [(i, m)] + NodeVisits(i, a)
  {
    assert forall t :: 0 <= t < |a| ==> (a + [m])[t] == a[t];
  }

  /** The visits of `update_all_nodes`, given the finished indices of every
    * node: nodes in list order, each node's indices sorted and taken from
    * the last one down. */
  ghost function Visits(ends: seq<set<nat>>): seq<(nat, nat)>
  {
    if ends == [] then []
    else Visits(ends[..|ends| - 1]) + NodeVisits(|ends| - 1, Ascending(ends[|ends| - 1]))
  }

  /** Nodes are visited by increasing index, and within one node the
    * finished indices strictly decrease. */
  lemma {:induction false} VisitsOrdered(ends: seq<set<nat>>)
    ensures forall t :: 0 <= t < |Visits(ends)| ==> Visits(ends)[t].0 < |ends|
    ensures forall a, b :: 0 <= a < b < |Visits(ends)| ==>
              Visits(ends)[a].0 < Visits(ends)[b].0 ||
              (Visits(ends)[a].0 == Visits(ends)[b].0 && Visits(ends)[a].1 > Visits(ends)[b].1)
  {
    if ends != [] {
      var n := |ends| - 1;
      var p := ends[..n];
      VisitsOrdered(p);
      AscendingSpec(ends[n]);
      var vp := Visits(p);
      var w := NodeVisits(n, Ascending(ends[n]));
      assert Visits(ends) == vp + w;
      assert forall t :: 0 <= t < |w| ==> w[t].0 == n;
    }
  }

  /** Every finished index of every node is visited, and nothing else. */
  lemma {:induction false} VisitsComplete(ends: seq<set<nat>>, i: nat, x: nat)
    ensures (i, x) in Visits(ends) <==> i < |ends| && x in ends[i]
  {
    if ends != [] {
      var n := |ends| - 1;
      var p := ends[..n];
      VisitsComplete(p, i, x);
      VisitsOrdered(p);
      AscendingSpec(ends[n]);
      var a := Ascending(ends[n]);
      var w := NodeVisits(n, a);
      assert Visits(ends) == Visits(p) + w;
      if i == n && x in ends[n] {
        var k :| 0 <= k < |a| && a[k] == x;
        assert w[|a| - 1 - k] == (i, x);
      }
      if (i, x) in w {
        var t :| 0 <= t < |w| && w[t] == (i, x);
        assert a[|a| - 1 - t] == x;
      }
      if i < n {
        assert p[i] == ends[i];
      }
    }
  }

  /** The largest element, found by scanning the set. */
  method MaxOf(s: set<nat>) returns (m: nat)
    requires s != {}
    ensures m == Max(s)
  {
    m :| m in s;
    var rest := s - {m};
    while rest != {}
      invariant rest <= s && m in s
      invariant forall y :: y in s && y !in rest ==> y <= m
      decreases |rest|
    {
      var x :| x in rest;
      if x > m {
        m := x;
      }
      rest := rest - {x};
    }
    assert Max(s) <= m && m <= Max(s);
  }

  /** One node's visits: repeatedly take the largest remaining index. */
  method NodeOrder(i: nat, s: set<nat>) returns (r: seq<(nat, nat)>)
    ensures r == NodeVisits(i, Ascending(s))
  {
    r := [];
    var rest := s;
    while rest != {}
      invariant r + NodeVisits(i, Ascending(rest)) == NodeVisits(i, Ascending(s))
      decreases |rest|
    {
      var m := MaxOf(rest);
      NodeVisitsSnoc(i, Ascending(rest - {m}), m);
      assert r + NodeVisits(i, Ascending(rest)) == (r + [(i, m)]) + NodeVisits(i, Ascending(rest - {m}));
      r := r + [(i, m)];
      rest := rest - {m};
    }
  }

  /** The order of visits of `update_all_nodes`, node by node. */
  method VisitOrder(ends: seq<set<nat>>) returns (visits: seq<(nat, nat)>)
    ensures visits == Visits(ends)
  {
    visits := [];
    var i := 0;
    while i < |ends|
      invariant 0 <= i <= |ends|
      invariant visits == Visits(ends[..i])
    {
      var own := NodeOrder(i, ends[i]);
      assert ends[..i + 1][..i] == ends[..i];
      visits := visits + own;
      i := i + 1;
    }
    assert ends[..i] == ends;
  }

  // ---------------------------------------------------------------
  // update_all_nodes: moving the finished cars of one node
  // ---------------------------------------------------------------

  /** The cars of one node, by flat index, as `update_all_nodes` handles
    * them AS WRITTEN: `asc` is the sorted list of finished indices,
    * positions j - 1 down to 0 are visited; the car at index `asc[j - 1]` is
    * asked for its next node, but `remove_car(j - 1)` removes the car at
    * the loop position. None stands for the out-of-range panic. The result
    * is the node's remaining cars and the cars handed on, advanced. */
  function MoveCarsAsWritten(cars: seq<Car>, asc: seq<nat>, j: nat, moves: Car -> bool): Option<(seq<Car>, seq<Car>)>
    requires j <= |asc|
    decreases j
  {
    if j == 0 then Some((cars, []))
    else if asc[j - 1] >= |cars| then None
    else if !moves(cars[asc[j - 1]]) then MoveCarsAsWritten(cars, asc, j - 1, moves)
    else if j - 1 >= |cars| then None
    else match MoveCarsAsWritten(RemoveAt(cars, j - 1), asc, j - 1, moves)
      case None => None
      case Some(res) => Some((res.0, [Advance(cars[j - 1])] + res.1))
  }

  /** The same loop removing the car that was asked, at index `asc[j - 1]`. */
  function MoveCars(cars: seq<Car>, asc: seq<nat>, j: nat, moves: Car -> bool): Option<(seq<Car>, seq<Car>)>
    requires j <= |asc|
    decreases j
  {
    if j == 0 then Some((cars, []))
    else if asc[j - 1] >= |cars| then None
    else if !moves(cars[asc[j - 1]]) then MoveCars(cars, asc, j - 1, moves)
    else match MoveCars(RemoveAt(cars, asc[j - 1]), asc, j - 1, moves)
      case None => None
      case Some(res) => Some((res.0, [Advance(cars[asc[j - 1]])] + res.1))
  }

  /** The finished cars whose next node is decided, rightmost first, taken
    * from the node's cars before any removal. */
  function Leaving(cars: seq<Car>, asc: seq<nat>, j: nat, moves: Car -> bool): seq<Car>
    requires j <= |asc| && forall k :: 0 <= k < j ==> asc[k] < |cars|
  {
    if j == 0 then []
    else (if moves(cars[asc[j - 1]]) then [cars[asc[j - 1]]] else []) + Leaving(cars, asc, j - 1, moves)
  }

  /** Every car advanced by one node, in order. */
  function AdvanceAll(cs: seq<Car>): seq<Car>
  {
    if cs == [] then [] else [Advance(cs[0])] + AdvanceAll(cs[1..])
  }

  /** Leaving depends only on the cars at the finished indices. */
  lemma {:induction false} LeavingAgrees(c1: seq<Car>, c2: seq<Car>, asc: seq<nat>, j: nat, moves: Car -> bool)
    requires j <= |asc|
    requires forall k :: 0 <= k < j ==> asc[k] < |c1| && asc[k] < |c2| && c1[asc[k]] == c2[asc[k]]
    ensures Leaving(c1, asc, j, moves) == Leaving(c2, asc, j, moves)
  {
    if j > 0 {
      LeavingAgrees(c1, c2, asc, j - 1, moves);
    }
  }

  lemma RemoveAtMultiset(s: seq<Car>, i: nat)
    requires i < |s|
    ensures multiset(RemoveAt(s, i)) + multiset{s[i]} == multiset(s)
  {
    assert s == s[..i] + [s[i]] + s[i + 1..];
  }

  /** With strictly increasing in-range finished indices, the corrected loop
    * never fails, hands on exactly the decided cars (advanced, rightmost
    * first) and keeps all the others. */
  lemma {:induction false} MoveCarsMovesDecided(cars: seq<Car>, asc: seq<nat>, j: nat, moves: Car -> bool)
    requires j <= |asc|
    requires forall a, b :: 0 <= a < b < j ==> asc[a] < asc[b]
    requires forall k :: 0 <= k < j ==> asc[k] < |cars|
    ensures MoveCars(cars, asc, j, moves).Some?
    ensures MoveCars(cars, asc, j, moves).value.1 == AdvanceAll(Leaving(cars, asc, j, moves))
    ensures MoveCars(cars, asc, j, moves).value.0 == Kept(cars, asc, j, moves)
    decreases j
  {
    if j > 0 {
      var idx := asc[j - 1];
      if !moves(cars[idx]) {
        MoveCarsMovesDecided(cars, asc, j - 1, moves);
        assert Leaving(cars, asc, j, moves) == Leaving(cars, asc, j - 1, moves);
      } else {
        var rest := RemoveAt(cars, idx);
        assert forall k :: 0 <= k < j - 1 ==> asc[k] < idx;
        MoveCarsMovesDecided(rest, asc, j - 1, moves);
        var res := MoveCars(rest, asc, j - 1, moves).value;
        MoveCarsUnfold(cars, asc, j, moves, res);
        var lr := Leaving(rest, asc, j - 1, moves);
        LeavingAgrees(rest, cars, asc, j - 1, moves);
        LeavingStep(cars, asc, j, moves);
        AdvanceAllCons(cars[idx], lr);
      }
    }
  }

  /** The cars the node keeps: those at the finished indices whose next
    * node is decided are removed, rightmost first. */
  function Kept(cars: seq<Car>, asc: seq<nat>, j: nat, moves: Car -> bool): seq<Car>
    requires j <= |asc|
    requires forall a, b :: 0 <= a < b < j ==> asc[a] < asc[b]
    requires forall k :: 0 <= k < j ==> asc[k] < |cars|
  {
    if j == 0 then cars
    else if !moves(cars[asc[j - 1]]) then Kept(cars, asc, j - 1, moves)
    else
      assert forall k :: 0 <= k < j - 1 ==> asc[k] < asc[j - 1];
      Kept(RemoveAt(cars, asc[j - 1]), asc, j - 1, moves)
  }

  /** The kept cars and the cars handed on are, together, exactly the
    * node's cars (as a multiset). */
  predicate Splits(cars: seq<Car>, asc: seq<nat>, j: nat, moves: Car -> bool)
    requires j <= |asc|
    requires forall a, b :: 0 <= a < b < j ==> asc[a] < asc[b]
    requires forall k :: 0 <= k < j ==> asc[k] < |cars|
  {
    multiset(Kept(cars, asc, j, moves)) + multiset(Leaving(cars, asc, j, moves)) == multiset(cars)
  }

  /** The kept cars and the cars handed on are, together, exactly the
    * node's cars before the update. */
  lemma {:induction false} KeptAndLeaving(cars: seq<Car>, asc: seq<nat>, j: nat, moves: Car -> bool)
    requires j <= |asc|
    requires forall a, b :: 0 <= a < b < j ==> asc[a] < asc[b]
    requires forall k :: 0 <= k < j ==> asc[k] < |cars|
    ensures Splits(cars, asc, j, moves)
    decreases j, 1
  {
    if j > 0 {
      var idx := asc[j - 1];
      if !moves(cars[idx]) {
        KeptAndLeaving(cars, asc, j - 1, moves);
        KeptAndLeavingSkip(cars, asc, j, moves);
      } else {
        KeptAndLeavingStep(cars, asc, j, moves);
      }
    }
  }

  /** The step of KeptAndLeaving where the rightmost car stays. */
  lemma KeptAndLeavingSkip(cars: seq<Car>, asc: seq<nat>, j: nat, moves: Car -> bool)
    requires 0 < j <= |asc|
    requires forall a, b :: 0 <= a < b < j ==> asc[a] < asc[b]
    requires forall k :: 0 <= k < j ==> asc[k] < |cars|
    requires !moves(cars[asc[j - 1]])
    requires Splits(cars, asc, j - 1, moves)
    ensures Splits(cars, asc, j, moves)
  {
    assert Kept(cars, asc, j, moves) == Kept(cars, asc, j - 1, moves);
    assert Leaving(cars, asc, j, moves) == [] + Leaving(cars, asc, j - 1, moves);
  }

  /** The moving step of KeptAndLeaving: the fact for the cars left after
    * the removal, plus the removed car. */
  lemma {:induction false} KeptAndLeavingStep(cars: seq<Car>, asc: seq<nat>, j: nat, moves: Car -> bool)
    requires 0 < j <= |asc|
    requires forall a, b :: 0 <= a < b < j ==> asc[a] < asc[b]
    requires forall k :: 0 <= k < j ==> asc[k] < |cars|
    requires moves(cars[asc[j - 1]])
    ensures Splits(cars, asc, j, moves)
    decreases j, 0
  {
    var idx := asc[j - 1];
    var rest := RemoveAt(cars, idx);
    LeavingAfterRemove(cars, asc, j, moves);
    KeptAndLeaving(rest, asc, j - 1, moves);
    LeavingStep(cars, asc, j, moves);
    KeptStep(cars, asc, j, moves);
    var lr := Leaving(rest, asc, j - 1, moves);
    KeepsStep(cars, idx, Kept(rest, asc, j - 1, moves), lr, Kept(rest, asc, j - 1, moves), [cars[idx]] + lr);
  }

  /** When the rightmost finished car moves, the kept cars are those kept
    * from the rest. */
  lemma KeptStep(cars: seq<Car>, asc: seq<nat>, j: nat, moves: Car -> bool)
    requires 0 < j <= |asc|
    requires forall a, b :: 0 <= a < b < j ==> asc[a] < asc[b]
    requires forall k :: 0 <= k < j ==> asc[k] < |cars|
    requires moves(cars[asc[j - 1]])
    requires forall k :: 0 <= k < j - 1 ==> asc[k] < |RemoveAt(cars, asc[j - 1])|
    ensures Kept(cars, asc, j, moves) == Kept(RemoveAt(cars, asc[j - 1]), asc, j - 1, moves)
  {
  }

  /** Removing the rightmost finished car leaves the other finished indices
    * in range and the cars at them unchanged. */
  lemma LeavingAfterRemove(cars: seq<Car>, asc: seq<nat>, j: nat, moves: Car -> bool)
    requires 0 < j <= |asc|
    requires forall a, b :: 0 <= a < b < j ==> asc[a] < asc[b]
    requires forall k :: 0 <= k < j ==> asc[k] < |cars|
    ensures forall k :: 0 <= k < j - 1 ==> asc[k] < |RemoveAt(cars, asc[j - 1])|
    ensures Leaving(RemoveAt(cars, asc[j - 1]), asc, j - 1, moves) == Leaving(cars, asc, j - 1, moves)
  {
    var rest := RemoveAt(cars, asc[j - 1]);
    assert forall k :: 0 <= k < j - 1 ==> asc[k] < asc[j - 1] <= |rest|;
    LeavingAgrees(rest, cars, asc, j - 1, moves);
  }

  lemma LeavingStep(cars: seq<Car>, asc: seq<nat>, j: nat, moves: Car -> bool)
    requires 0 < j <= |asc| && forall k :: 0 <= k < j ==> asc[k] < |cars|
    requires moves(cars[asc[j - 1]])
    ensures Leaving(cars, asc, j, moves) == [cars[asc[j - 1]]] + Leaving(cars, asc, j - 1, moves)
  {
  }

  lemma AdvanceAllCons(x: Car, l: seq<Car>)
    ensures AdvanceAll([x] + l) == [Advance(x)] + AdvanceAll(l)
  {
    assert ([x] + l)[1..] == l;
  }

  /** One step of the corrected loop when the rightmost car moves. */
  lemma MoveCarsUnfold(cars: seq<Car>, asc: seq<nat>, j: nat, moves: Car -> bool, res: (seq<Car>, seq<Car>))
    requires 0 < j <= |asc| && asc[j - 1] < |cars| && moves(cars[asc[j - 1]])
    requires MoveCars(RemoveAt(cars, asc[j - 1]), asc, j - 1, moves) == Some(res)
    ensures MoveCars(cars, asc, j, moves) == Some((res.0, [Advance(cars[asc[j - 1]])] + res.1))
  {
  }

  /** Removing the car at `idx` and handing it on keeps the node's cars. */
  lemma KeepsStep(cars: seq<Car>, idx: nat, kept: seq<Car>, lr: seq<Car>, outKept: seq<Car>, outLeaving: seq<Car>)
    requires idx < |cars|
    requires multiset(kept) + multiset(lr) == multiset(RemoveAt(cars, idx))
    requires outKept == kept && outLeaving == [cars[idx]] + lr
    ensures multiset(outKept) + multiset(outLeaving) == multiset(cars)
  {
    RemoveAtMultiset(cars, idx);
    assert multiset(outLeaving) == multiset{cars[idx]} + multiset(lr);
  }

  /** The decision used below: only the car with id 2 has a next node. */
  predicate OnlyCarTwo(c: Car)
  {
    c.id == 2
  }

  /** Three cars, only the rightmost finished and free to move: the loop as
    * written asks car 2 but hands on car 0, while the corrected loop hands
    * on car 2. */
  lemma MoveCarsRemovesWrongCar()
    ensures var cars := [Car(0, []), Car(1, []), Car(2, [])];
            MoveCarsAsWritten(cars, [2], 1, OnlyCarTwo) == Some(([Car(1, []), Car(2, [])], [Car(0, [])]))
            && MoveCars(cars, [2], 1, OnlyCarTwo) == Some(([Car(0, []), Car(1, [])], [Car(2, [])]))
  {
    var cars := [Car(0, []), Car(1, []), Car(2, [])];
    var asc := [2];
    assert RemoveAt(cars, 0) == [Car(1, []), Car(2, [])];
    assert RemoveAt(cars, 2) == [Car(0, []), Car(1, [])];
    assert OnlyCarTwo(cars[asc[0]]);
    assert Advance(cars[0]) == Car(0, []) && Advance(cars[2]) == Car(2, []);
    assert MoveCarsAsWritten(RemoveAt(cars, 0), asc, 0, OnlyCarTwo) == Some((RemoveAt(cars, 0), []));
    assert MoveCarsAsWritten(cars, asc, 1, OnlyCarTwo).value.0 == RemoveAt(cars, 0);
    assert MoveCarsAsWritten(cars, asc, 1, OnlyCarTwo).value.1 == [Advance(cars[0])];
    assert MoveCars(RemoveAt(cars, 2), asc, 0, OnlyCarTwo) == Some((RemoveAt(cars, 2), []));
    assert MoveCars(cars, asc, 1, OnlyCarTwo).value.0 == RemoveAt(cars, 2);
    assert MoveCars(cars, asc, 1, OnlyCarTwo).value.1 == [Advance(cars[2])];
  }
}
