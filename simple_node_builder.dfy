/**
 * The node builders of the simple simulator revision
 * (simulator/src/simple/node_builder.rs).
 *
 * Here a connection is the index of the target in the simulator builder's
 * node list.  A street builder keeps a single-element list of where its
 * street leads; IO-node and crossing builders keep a list that only grows.
 * `build` produces a simulation node with no connections; the simulator
 * builder wires the nodes afterwards.  The setters take the builder by
 * value and hand it back, which the model writes as a method returning the
 * same object.
 */
module SimpleNodeBuilder {

  /** The unsigned 8-bit lane count. */
  type U8 = x: int | 0 <= x < 256

  /** A simulation node as `build` produces it (the car lane is represented
    * by its length). */
  datatype Node =
    | Street(connection: seq<nat>, lanes: U8, laneLength: real)
    | IONode(connections: seq<nat>, spawnRate: real, timeSinceLastSpawn: real)
    | Crossing(connections: seq<nat>, laneLength: real)

  /** The connections of a built node. */
  function ConnectionsOf(n: Node): seq<nat>
  {
    match n
      case Street(c, _, _) => c
      case IONode(c, _, _) => c
      case Crossing(c, _) => c
  }

  class StreetBuilder {
    var connection: seq<nat>
    var lanes: U8
    var laneLength: real

    /** `StreetBuilder::new()`: unconnected, one lane of length 100. */
    constructor ()
      ensures connection == [] && lanes == 1 && laneLength == 100.0
    {
      connection := [];
      lanes := 1;
      laneLength := 100.0;
    }

    /** `connect(i)`: the street now leads to `i` and nowhere else. */
    method Connect(i: nat)
      modifies this
      ensures connection == [i]
      ensures lanes == old(lanes) && laneLength == old(laneLength)
    {
      connection := [];
      connection := connection + [i];
    }

    /** `length(l)`: sets the lane length only. */
    method Length(length: real) returns (r: StreetBuilder)
      modifies this
      ensures r == this && laneLength == length
      ensures connection == old(connection) && lanes == old(lanes)
    {
      laneLength := length;
      r := this;
    }

    /** `lanes(n)`: sets the lane count only. */
    method Lanes(lanes: U8) returns (r: StreetBuilder)
      modifies this
      ensures r == this && this.lanes == lanes
      ensures connection == old(connection) && laneLength == old(laneLength)
    {
      this.lanes := lanes;
      r := this;
    }

    /** `build()`: an unconnected street with this builder's lanes and
      * length. */
    function Build(): (n: Node)
      reads this
      ensures n.Street? && ConnectionsOf(n) == []
      ensures n.lanes == lanes && n.laneLength == laneLength
    {
      Street([], lanes, laneLength)
    }
  }

  class IONodeBuilder {
    var connections: seq<nat>

    /** `IONodeBuilder::new()`: unconnected. */
    constructor ()
      ensures connections == []
    {
      connections := [];
    }

    /** `connect(i)`: appends `i`. */
    method Connect(i: nat)
      modifies this
      ensures connections == old(connections) + [i]
    {
      connections := connections + [i];
    }

    /** `build()`: an unconnected IO node spawning at rate 1. */
    function Build(): (n: Node)
      reads this
      ensures n.IONode? && ConnectionsOf(n) == []
      ensures n.spawnRate == 1.0 && n.timeSinceLastSpawn == 0.0
    {
      IONode([], 1.0, 0.0)
    }
  }

  class CrossingBuilder {
    var connections: seq<nat>
    var length: real

    /** `CrossingBuilder::new()`: unconnected, length 10. */
    constructor ()
      ensures connections == [] && length == 10.0
    {
      connections := [];
      length := 10.0;
    }

    /** `connect(i)`: appends `i`. */
    method Connect(i: nat)
      modifies this
      ensures connections == old(connections) + [i]
      ensures length == old(length)
    {
      connections := connections + [i];
    }

    /** `length(l)`: sets the length only. */
    method Length(length: real) returns (r: CrossingBuilder)
      modifies this
      ensures r == this && this.length == length && connections == old(connections)
    {
      this.length := length;
      r := this;
    }

    /** `build()`: an unconnected crossing whose lane has this length. */
    function Build(): (n: Node)
      reads this
      ensures n.Crossing? && ConnectionsOf(n) == [] && n.laneLength == length
    {
      Crossing([], length)
    }
  }

  /** The enum over the three builders, dispatching the shared operations. */
  datatype NodeBuilder =
    | StreetB(street: StreetBuilder)
    | IONodeB(io: IONodeBuilder)
    | CrossingB(crossing: CrossingBuilder)

  function ObjectOf(nb: NodeBuilder): object
  {
    match nb
      case StreetB(s) => s
      case IONodeB(b) => b
      case CrossingB(c) => c
  }

  /** `get_connections()`. */
  function GetConnections(nb: NodeBuilder): seq<nat>
    reads ObjectOf(nb)
  {
    match nb
      case StreetB(s) => s.connection
      case IONodeB(b) => b.connections
      case CrossingB(c) => c.connections
  }

  /** `build()` of any builder: a node of the same kind with no connections. */
  function BuildNode(nb: NodeBuilder): (n: Node)
    reads ObjectOf(nb)
    ensures ConnectionsOf(n) == []
    ensures nb.StreetB? <==> n.Street?
    ensures nb.IONodeB? <==> n.IONode?
    ensures nb.CrossingB? <==> n.Crossing?
  {
    match nb
      case StreetB(s) => s.Build()
      case IONodeB(b) => b.Build()
      case CrossingB(c) => c.Build()
  }

  /** `connect(i)` of any builder: a street keeps only the newest target,
    * the other kinds keep every target in order. */
  method ConnectNode(nb: NodeBuilder, i: nat)
    modifies ObjectOf(nb)
    ensures GetConnections(nb) == if nb.StreetB? then [i] else old(GetConnections(nb)) + [i]
    ensures nb.StreetB? ==> nb.street.lanes == old(nb.street.lanes) && nb.street.laneLength == old(nb.street.laneLength)
    ensures nb.CrossingB? ==> nb.crossing.length == old(nb.crossing.length)
  {
    match nb
      case StreetB(s) => s.Connect(i);
      case IONodeB(b) => b.Connect(i);
      case CrossingB(c) => c.Connect(i);
  }

  /** Two connects in a row: a street leads to the second target only, the
    * other builders gain both targets in call order. */
  method ConnectTwice(nb: NodeBuilder, i: nat, j: nat)
    modifies ObjectOf(nb)
    ensures GetConnections(nb) == if nb.StreetB? then [j] else old(GetConnections(nb)) + [i, j]
    ensures nb.StreetB? ==> nb.street.lanes == old(nb.street.lanes) && nb.street.laneLength == old(nb.street.laneLength)
    ensures nb.CrossingB? ==> nb.crossing.length == old(nb.crossing.length)
  {
    ConnectNode(nb, i);
    ConnectNode(nb, j);
  }
}
