/**
 * The path-following car and the movable server
 * (simulator/src/pathfinding.rs): how a car picks the next node from its
 * stored path, how it advances, and how the server hands out numbered cars
 * from a route cache. The random destination draw and the shortest-path
 * search are parameters.
 */
module SimPathfinding {
  import opened Wrappers
  import opened SimNodeBuilder
  import opened SimNode

  // ---------------------------------------------------------------------
  // The car's path
  // ---------------------------------------------------------------------

  /** `set_path`: the path is replaced, the id kept. */
  function SetPath(car: Car, p: seq<nat>): (r: Car)
    ensures r.path == p && r.id == car.id
  {
    car.(path := p)
  }

  /** `advance`: the last path element, the node just entered, is popped;
    * an empty path stays empty (the source only warns). */
  function Advance(car: Car): (r: Car)
    ensures r.id == car.id
    ensures car.path != [] ==> r.path + [car.path[|car.path| - 1]] == car.path
    ensures car.path == [] ==> r.path == []
  {
    if car.path == [] then car else car.(path := car.path[..|car.path| - 1])
  }

  /** `overnext_node_id`: the second-to-last path element, the node after
    * the next one; None where the source panics on a path shorter than 2. */
  function OvernextNodeId(path: seq<nat>): (r: Option<nat>)
    ensures r.None? <==> |path| < 2
    ensures r.Some? ==> r.value == path[|path| - 2]
  {
    if |path| >= 2 then Some(path[|path| - 2]) else None
  }

  /** Advancing makes the overnext node the next one. */
  lemma AdvanceShiftsNext(car: Car)
    requires |car.path| >= 2
    ensures Advance(car).path[|Advance(car).path| - 1] == OvernextNodeId(car.path).value
  {
  }

  // ---------------------------------------------------------------------
  // The next-node decision
  // ---------------------------------------------------------------------

  /** What `decide_next` sees of a node: its kind and, for a crossing, its
    * connections and phase. */
  datatype NodeInfo =
    | StreetInfo
    | IONodeInfo
    | CrossingInfo(input: map<Direction, nat>, output: map<Direction, nat>, state: TrafficLightState)

  datatype PathErrorKind = NodeDoesntExist | PathEmpty | NotConnected(expected: nat)

  /** The outcome of `decide_next`: move onto a node, wait at a red light,
    * one of the source's errors, or a panic. */
  datatype Decision = Next(node: nat) | Wait | Failed(kind: PathErrorKind) | Panic

  /** Some connection refers to a node that no longer exists. */
  predicate SomeDead(connections: seq<nat>, world: map<nat, NodeInfo>)
  {
    exists k :: 0 <= k < |connections| && connections[k] !in world
  }

  /** `decide_next` for a car with path `path` on node `current` whose
    * outgoing connections are `connections`; `world` holds the nodes that
    * still exist, by id. */
  function DecideNext(path: seq<nat>, connections: seq<nat>, current: nat, world: map<nat, NodeInfo>): (r: Decision)
    ensures r == Failed(NodeDoesntExist) <==> SomeDead(connections, world)
    ensures !SomeDead(connections, world) ==> (r == Failed(PathEmpty) <==> path == [])
    ensures !SomeDead(connections, world) && path != [] ==>
      (r == Failed(NotConnected(path[|path| - 1])) <==> path[|path| - 1] !in connections)
    ensures r.Next? ==> path != [] && r.node == path[|path| - 1] && r.node in connections
    ensures (!SomeDead(connections, world) && path != [] && path[|path| - 1] in connections &&
             !world[path[|path| - 1]].CrossingInfo?) ==> r == Next(path[|path| - 1])
    ensures (r.Wait? || r == Panic) ==> path != [] && path[|path| - 1] in world && world[path[|path| - 1]].CrossingInfo?
  {
    if SomeDead(connections, world) then Failed(NodeDoesntExist)
    else if path == [] then Failed(PathEmpty)
    else
      var next := path[|path| - 1];
      if next !in connections then Failed(NotConnected(next))
      else
        assert next in world;
        match world[next]
          case StreetInfo => Next(next)
          case IONodeInfo => Next(next)
          case CrossingInfo(input, output, state) =>
            match OvernextNodeId(path)
              case None => Panic
              case Some(overnext) =>
                if overnext !in output.Values then Panic
                else
                  match Reach(input, output, state, current, overnext)
                    case None => Panic
                    case Some(passable) => if passable then Next(next) else Wait
  }

  /** Before a crossing, the car moves on exactly when the crossing's phase
    * lets it pass from the side it comes from to the side of its overnext
    * node; it panics where the source does: a path too short to name the
    * overnext node, an overnext node that is no output of the crossing, or
    * a current node that is no input of it. */
  lemma DecideNextAtCrossing(path: seq<nat>, connections: seq<nat>, current: nat, world: map<nat, NodeInfo>)
    requires !SomeDead(connections, world) && path != [] && path[|path| - 1] in connections
    requires world[path[|path| - 1]].CrossingInfo?
    ensures var c := world[path[|path| - 1]];
            var r := DecideNext(path, connections, current, world);
            (r == Panic <==> |path| < 2 || path[|path| - 2] !in c.output.Values || current !in c.input.Values) &&
            (r != Panic ==> exists di, dout :: di in c.input && c.input[di] == current &&
                                               dout in c.output && c.output[dout] == path[|path| - 2] &&
                                               (r == Next(path[|path| - 1]) <==> (di, dout) in PassageSet(c.state)) &&
                                               (r == Wait <==> (di, dout) !in PassageSet(c.state)))
  {
    var c := world[path[|path| - 1]];
    if |path| >= 2 && path[|path| - 2] in c.output.Values {
      var reach := Reach(c.input, c.output, c.state, current, path[|path| - 2]);
      assert reach.None? <==> current !in c.input.Values;
    }
  }

  /** Moving on and then advancing consumes exactly the node moved onto. */
  lemma DecideThenAdvance(car: Car, connections: seq<nat>, current: nat, world: map<nat, NodeInfo>)
    requires DecideNext(car.path, connections, current, world).Next?
    ensures Advance(car).path + [DecideNext(car.path, connections, current, world).node] == car.path
  {
  }

  // ---------------------------------------------------------------------
  // all_except
  // ---------------------------------------------------------------------

  /** `all_except` as written: the indices below `len - 1` other than `i`;
    * None where `len - 1` underflows on an empty network. */
  function AllExceptAsWritten(len: nat, i: nat): Option<seq<nat>>
  {
    if len == 0 then None else Some(IndicesExcept(len - 1, i))
  }

  /** The indices below `bound` other than `i`, in increasing order. */
  function IndicesExcept(bound: nat, i: nat): (r: seq<nat>)
    ensures forall n :: n in r <==> 0 <= n < bound && n != i
    ensures forall a, b :: 0 <= a < b < |r| ==> r[a] < r[b]
  {
    if bound == 0 then []
    else if bound - 1 == i then IndicesExcept(bound - 1, i)
    else
      var pre := IndicesExcept(bound - 1, i);
      assert forall a :: 0 <= a < |pre| ==> pre[a] in pre;
      pre + [bound - 1]
  }

  /** `all_except` as its documentation states it: every connection index
    * apart from `i`. */
  function AllExcept(len: nat, i: nat): (r: seq<nat>)
    ensures forall n :: n in r <==> 0 <= n < len && n != i
    ensures |r| == if i < len then len - 1 else len
  {
    ExceptLength(len, i);
    IndicesExcept(len, i)
  }

  lemma {:induction false} ExceptLength(bound: nat, i: nat)
    ensures |IndicesExcept(bound, i)| == if i < bound then bound - 1 else bound
  {
    if bound > 0 {
      ExceptLength(bound - 1, i);
    }
  }

  /** With three connections, excluding index 0 should leave 1 and 2; as
    * written the last index 2 is lost as well. */
  lemma AllExceptDropsLast()
    ensures AllExcept(3, 0) == [1, 2]
    ensures AllExceptAsWritten(3, 0) == Some([1])
  {
    assert IndicesExcept(1, 0) == [];
    assert IndicesExcept(2, 0) == [1];
    assert IndicesExcept(3, 0) == [1, 2];
  }

  // ---------------------------------------------------------------------
  // The movable server
  // ---------------------------------------------------------------------

  /** `WeightedIndex::new` accepts the weights: at least one, none negative,
    * and not all zero. */
  predicate ValidWeights(ws: seq<real>)
  {
    |ws| > 0 && (forall k :: 0 <= k < |ws| ==> ws[k] >= 0.0) && exists k :: 0 <= k < |ws| && ws[k] > 0.0
  }

  /** The first position of `x` in `s`. */
  function IndexOf(s: seq<nat>, x: nat): (r: Option<nat>)
    ensures r.None? <==> x !in s
    ensures r.Some? ==> r.value < |s| && s[r.value] == x && forall k :: 0 <= k < r.value ==> s[k] != x
  {
    if s == [] then None
    else if s[0] == x then Some(0)
    else match IndexOf(s[1..], x)
      case None => None
      case Some(k) => Some(k + 1)
  }

  predicate NoDuplicates(s: seq<nat>)
  {
    forall a, b :: 0 <= a < b < |s| ==> s[a] != s[b]
  }

  /** The destination drawn for a car starting at IONode `id`: entry `pick`
    * of the IONode list once `id` is taken out of it. None where the source
    * panics: `id` is no IONode, or the remaining weights cannot be sampled. */
  function Destination(ioNodes: seq<nat>, weights: seq<real>, id: nat, pick: nat): (r: Option<nat>)
    requires |weights| == |ioNodes|
    requires |ioNodes| >= 2 ==> pick < |ioNodes| - 1
    ensures r.None? <==> id !in ioNodes || !ValidWeights(RemoveAt(weights, IndexOf(ioNodes, id).value))
    ensures r.Some? ==> r.value in ioNodes
    ensures r.Some? && NoDuplicates(ioNodes) ==> r.value != id
  {
    match IndexOf(ioNodes, id)
      case None => None
      case Some(selfIndex) =>
        var rest := RemoveAt(ioNodes, selfIndex);
        if !ValidWeights(RemoveAt(weights, selfIndex)) then None
        else
          assert rest[pick] == if pick < selfIndex then ioNodes[pick] else ioNodes[pick + 1];
          Some(rest[pick])
  }

  /** The stored path of a car for the route `route` found from start to
    * end: reversed so the next node comes last, and without the start. */
  function RoutePath(route: seq<nat>): (p: seq<nat>)
    ensures |p| == if route == [] then 0 else |route| - 1
    ensures forall k :: 0 <= k < |p| ==> p[k] == route[|route| - 1 - k]
  {
    ReversedAt(route);
    var rev := Reversed(route);
    if rev == [] then [] else rev[..|rev| - 1]
  }


  /** A car following a found route next enters the route's second node and
    * ends at its last. */
  lemma RoutePathEnds(route: seq<nat>)
    requires |route| >= 2
    ensures RoutePath(route)[|RoutePath(route)| - 1] == route[1]
    ensures RoutePath(route)[0] == route[|route| - 1]
  {
  }

  datatype Generated = Generated(car: Car) | NoPath(start: nat, end: nat) | GenPanic

  /** Summing the route's `node_lens[id]` does not panic: every node on the
    * route has an entry. */
  predicate Measured(route: seq<nat>, nodeLens: set<nat>)
  {
    forall k :: 0 <= k < |route| ==> route[k] in nodeLens
  }

  class MovableServer {
    var ioNodes: seq<nat>
    var ioNodeWeights: seq<real>
    /** The ids `node_lens` has an entry for: the nodes with at least one
      * outgoing connection when the builder was indexed. */
    var nodeLens: set<nat>
    var cache: map<(nat, nat), Car>
    var carCount: nat

    /** `MovableServer::new`: nothing indexed, empty cache, count 0. */
    constructor ()
      ensures ioNodes == [] && ioNodeWeights == [] && nodeLens == {} && cache == map[] && carCount == 0
    {
      ioNodes := [];
      ioNodeWeights := [];
      nodeLens := {};
      cache := map[];
      carCount := 0;
    }

    /** `generate_movable`: a new car for IONode `id`. The destination is the
      * `pick`-th other IONode (the weighted draw); `route` is the shortest
      * path search from start to end. A cached route gives a copy of the
      * cached car; otherwise a found route gives a fresh car with speed 1 on
      * that route, which is cached. Either way the car is numbered with the
      * count, which then advances by one. Without a route nothing changes.
      * GenPanic where the source panics: no destination can be drawn, or a
      * node on a newly found route has no `node_lens` entry. */
    method GenerateMovable(id: nat, pick: nat, route: (nat, nat) -> Option<seq<nat>>) returns (r: Generated)
      requires |ioNodeWeights| == |ioNodes|
      requires |ioNodes| >= 2 ==> pick < |ioNodes| - 1
      modifies this
      ensures ioNodes == old(ioNodes) && ioNodeWeights == old(ioNodeWeights) && nodeLens == old(nodeLens)
      ensures Destination(ioNodes, ioNodeWeights, id, pick).None? ==> r == GenPanic
      ensures r.Generated? ==> r.car.id == old(carCount) && carCount == old(carCount) + 1
      ensures !r.Generated? ==> carCount == old(carCount) && cache == old(cache)
      ensures Destination(ioNodes, ioNodeWeights, id, pick).Some? ==>
        var dest := Destination(ioNodes, ioNodeWeights, id, pick).value;
        if (id, dest) in old(cache) then
          r == Generated(old(cache)[(id, dest)].(id := old(carCount))) && cache == old(cache)
        else match route(id, dest)
          case None => r == NoPath(id, dest)
          case Some(p) =>
            if Measured(p, nodeLens) then
              r == Generated(Car(old(carCount), RoutePath(p))) && cache == old(cache)[(id, dest) := r.car]
            else r == GenPanic
    {
      var dest := Destination(ioNodes, ioNodeWeights, id, pick);
      if dest.None? {
        return GenPanic;
      }
      var endNode := dest.value;
      if (id, endNode) in cache {
        var car := cache[(id, endNode)].(id := carCount);
        carCount := carCount + 1;
        return Generated(car);
      }
      match route(id, endNode) {
        case None =>
          r := NoPath(id, endNode);
        case Some(p) =>
          if !Measured(p, nodeLens) {
            return GenPanic;
          }
          var car := Car(carCount, RoutePath(p));
          carCount := carCount + 1;
          cache := cache[(id, endNode) := car];
          r := Generated(car);
      }
    }
  }
}
