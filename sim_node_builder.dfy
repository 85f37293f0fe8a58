/**
 * The node builders of the simulator (simulator/src/node_builder.rs).
 *
 * A builder is shared behind a reference-counted cell and its connections
 * are weak references compared by address, so every builder is a Dafny
 * object and a connection is the `NodeBuilder` value that wraps the target
 * object: two connections are equal exactly when they name the same object.
 * The maps of `CrossingConnections` are Rust `HashMap`s whose iteration
 * order is unspecified; wherever the source iterates over one, the model
 * visits the directions in the fixed order N, E, S, W.
 */
module SimNodeBuilder {
  import opened Wrappers

  datatype Direction = N | E | S | W
  datatype InOut = IN | OUT

  /** The unsigned 8-bit lane count. */
  type U8 = x: int | 0 <= x < 256

  /** The order in which the model visits the entries of a direction map. */
  const DIRECTIONS: seq<Direction> := [N, E, S, W]

  function Opposite(t: InOut): InOut
  {
    if t == IN then OUT else IN
  }

  /** The values of a direction map, in N, E, S, W order. */
  function ValuesInOrder<T(==)>(m: map<Direction, T>): (r: seq<T>)
    ensures forall k :: 0 <= k < |r| ==> r[k] in m.Values
    ensures |r| <= 4
  {
    (if N in m then [m[N]] else []) + (if E in m then [m[E]] else []) +
    (if S in m then [m[S]] else []) + (if W in m then [m[W]] else [])
  }

  /** Every entry of a direction map is listed by `ValuesInOrder`. */
  lemma ValuesInOrderCovers<T>(m: map<Direction, T>, d: Direction)
    requires d in m
    ensures m[d] in ValuesInOrder(m)
  {
    match d
      case N =>
      case E =>
      case S =>
      case W =>
  }

  /** `ValuesInOrder` lists every entry of the map, and one value per key. */
  lemma ValuesInOrderComplete<T>(m: map<Direction, T>)
    ensures forall d :: d in m ==> m[d] in ValuesInOrder(m)
    ensures |ValuesInOrder(m)| == |m.Keys|
  {
    forall d | d in m
      ensures m[d] in ValuesInOrder(m)
    {
      ValuesInOrderCovers(m, d);
    }
    KeysCount(m);
  }

  /** A direction map has one key per side present. */
  lemma KeysCount<T>(m: map<Direction, T>)
    ensures |m.Keys| == (if N in m then 1 else 0) + (if E in m then 1 else 0) +
                        (if S in m then 1 else 0) + (if W in m then 1 else 0)
  {
    KeysArePresentSides(m);
    PresentSidesCount(m);
  }

  /** The sides a direction map has an entry for, built side by side. */
  function PresentSides<T>(m: map<Direction, T>): set<Direction>
  {
    (if N in m then {N} else {}) + (if E in m then {E} else {}) +
    (if S in m then {S} else {}) + (if W in m then {W} else {})
  }

  lemma KeysArePresentSides<T>(m: map<Direction, T>)
    ensures m.Keys == PresentSides(m)
  {
    forall d | d in m.Keys
      ensures d in PresentSides(m)
    {
      if d == N {} else if d == E {} else if d == S {} else {}
    }
  }

  lemma PresentSidesCount<T>(m: map<Direction, T>)
    ensures |PresentSides(m)| == (if N in m then 1 else 0) + (if E in m then 1 else 0) +
                                 (if S in m then 1 else 0) + (if W in m then 1 else 0)
  {
    var k1: set<Direction> := if N in m then {N} else {};
    var k2 := k1 + (if E in m then {E} else {});
    var k3 := k2 + (if S in m then {S} else {});
    assert |k2| == |k1| + (if E in m then 1 else 0);
    assert |k3| == |k2| + (if S in m then 1 else 0);
    assert PresentSides(m) == k3 + (if W in m then {W} else {});
  }

  /** The first direction (in N, E, S, W order) whose entry is `item`. */
  function FindDirection<T(==)>(m: map<Direction, T>, item: T): (r: Option<Direction>)
    ensures r.Some? ==> r.value in m && m[r.value] == item
    ensures r.None? <==> item !in m.Values
  {
    if N in m && m[N] == item then Some(N)
    else if E in m && m[E] == item then Some(E)
    else if S in m && m[S] == item then Some(S)
    else if W in m && m[W] == item then Some(W)
    else
      NoDirectionHolds(m, item);
      None
  }

  /** An item found on none of the four sides is not in the map at all. */
  lemma NoDirectionHolds<T>(m: map<Direction, T>, item: T)
    requires !(N in m && m[N] == item) && !(E in m && m[E] == item)
    requires !(S in m && m[S] == item) && !(W in m && m[W] == item)
    ensures item !in m.Values
  {
    forall d | d in m
      ensures m[d] != item
    {
      match d
        case N =>
        case E =>
        case S =>
        case W =>
    }
  }

  /** The map without the entries pointing to `conn` (`retain(|_, v| v != conn)`). */
  function Retained<T(==)>(m: map<Direction, T>, conn: T): (r: map<Direction, T>)
  {
    map d | d in m && m[d] != conn :: m[d]
  }

  /** The sequence without any element equal to `conn` (`Vec::retain`). */
  function Without<T(==)>(s: seq<T>, conn: T): (r: seq<T>)
    ensures forall k :: 0 <= k < |r| ==> r[k] in s && r[k] != conn
    ensures forall k :: 0 <= k < |s| && s[k] != conn ==> s[k] in r
    ensures |r| <= |s|
  {
    if s == [] then []
    else (if s[0] == conn then [] else [s[0]]) + Without(s[1..], conn)
  }

  /** Keeping only other elements leaves a list free of `conn` as it was. */
  lemma {:induction false} WithoutAbsent<T>(s: seq<T>, conn: T)
    requires conn !in s
    ensures Without(s, conn) == s
  {
    if s != [] {
      WithoutAbsent(s[1..], conn);
      assert s == [s[0]] + s[1..];
    }
  }

  /** How `CrossingConnections::add` ends: `Ok`, the "already exists" error,
    * or the panic of its assertion that `conn` is not on the other side. */
  datatype AddResult = Added | SlotTaken | OppositeSidePanic

  /** The two maps of a crossing: which node is attached to each side, for
    * incoming and for outgoing streets. */
  class CrossingConnections<T(==)> {
    var input: map<Direction, T>
    var output: map<Direction, T>

    constructor ()
      ensures input == map[] && output == map[]
    {
      input := map[];
      output := map[];
    }

    /** The map of one side: `input` for IN, `output` for OUT. */
    function Side(t: InOut): map<Direction, T>
      reads this
    {
      if t == IN then input else output
    }

    /** `add(dir, conn_type, conn)`: panics if `conn` is already attached on
      * the other side; errors and changes nothing if the slot is taken;
      * otherwise attaches `conn` at `dir` in the chosen map only. */
    method Add(dir: Direction, connType: InOut, conn: T) returns (r: AddResult)
      modifies this
      ensures r == (if conn in old(Side(Opposite(connType))).Values then OppositeSidePanic
                    else if dir in old(Side(connType)) then SlotTaken
                    else Added)
      ensures r == Added ==> Side(connType) == old(Side(connType))[dir := conn]
      ensures Side(Opposite(connType)) == old(Side(Opposite(connType)))
      ensures r != Added ==> input == old(input) && output == old(output)
    {
      if IsConnected(Opposite(connType), conn) {
        return OppositeSidePanic;
      }
      if dir in Side(connType) {
        return SlotTaken;
      }
      if connType == IN {
        input := input[dir := conn];
      } else {
        output := output[dir := conn];
      }
      return Added;
    }

    /** `pop(dir, conn_type)`: detaches and returns the entry at `dir`, or
      * returns None when there is none. */
    method Pop(dir: Direction, connType: InOut) returns (r: Option<T>)
      modifies this
      ensures r == if dir in old(Side(connType)) then Some(old(Side(connType))[dir]) else None
      ensures Side(connType) == old(Side(connType)) - {dir}
      ensures Side(Opposite(connType)) == old(Side(Opposite(connType)))
    {
      r := if dir in Side(connType) then Some(Side(connType)[dir]) else None;
      if connType == IN {
        input := input - {dir};
      } else {
        output := output - {dir};
      }
    }

    /** `remove_connection(conn_type, conn)`: drops every entry of the chosen
      * map that points to `conn` and keeps the others. */
    method RemoveConnection(connType: InOut, conn: T)
      modifies this
      ensures Side(connType) == Retained(old(Side(connType)), conn)
      ensures Side(Opposite(connType)) == old(Side(Opposite(connType)))
    {
      if connType == IN {
        input := Retained(input, conn);
      } else {
        output := Retained(output, conn);
      }
    }

    /** `is_connected(conn_type, node)`: some entry of the chosen map points to `node`. */
    function IsConnected(connType: InOut, node: T): (r: bool)
      reads this
      ensures r <==> exists d :: d in Side(connType) && Side(connType)[d] == node
    {
      FindDirection(Side(connType), node).Some?
    }

    /** `get_direction_for_item(conn_type, item)`: a side whose entry is
      * `item`, or None when no entry is. */
    function GetDirectionForItem(connType: InOut, item: T): (r: Option<Direction>)
      reads this
      ensures r.Some? ==> r.value in Side(connType) && Side(connType)[r.value] == item
      ensures r.None? <==> item !in Side(connType).Values
    {
      FindDirection(Side(connType), item)
    }

    /** `has_connection(conn_type, dir)`: whether the slot is taken. */
    function HasConnection(connType: InOut, dir: Direction): (r: bool)
      reads this
      ensures r <==> dir in Side(connType)
    {
      dir in Side(connType)
    }
  }

  /** `Retained` keeps exactly the other entries. */
  lemma RetainedEntries<T>(m: map<Direction, T>, conn: T)
    ensures conn !in Retained(m, conn).Values
    ensures forall d :: d in m && m[d] != conn ==> d in Retained(m, conn) && Retained(m, conn)[d] == m[d]
    ensures Retained(m, conn).Keys <= m.Keys
  {
  }

  /** A builder as stored in the simulator builder: the shared cell of one
    * of the three kinds. */
  datatype NodeBuilder =
    | IONode(io: IONodeBuilder)
    | Crossing(crossing: CrossingBuilder)
    | Street(street: StreetBuilder)

  /** The objects that make up one builder. */
  function ObjectsOf(n: NodeBuilder): set<object>
  {
    match n
      case IONode(b) => {b}
      case Crossing(c) => {c, c.connections}
      case Street(s) => {s}
  }

  class StreetBuilder {
    var connOut: Option<NodeBuilder>
    var connIn: Option<NodeBuilder>
    var lanes: U8
    var laneLength: real
    var id: nat

    /** `StreetBuilder::new()`: unconnected, 1 lane of length 100, id 0. */
    constructor ()
      ensures connOut == None && connIn == None
      ensures lanes == 1 && laneLength == 100.0 && id == 0
    {
      connOut := None;
      connIn := None;
      lanes := 1;
      laneLength := 100.0;
      id := 0;
    }

    /** `connect(conn_type, other)`: sets the start (IN) or the end (OUT),
      * overwriting what was there. */
    method Connect(connType: InOut, other: NodeBuilder)
      modifies this
      ensures connType == IN ==> connIn == Some(other) && connOut == old(connOut)
      ensures connType == OUT ==> connOut == Some(other) && connIn == old(connIn)
      ensures lanes == old(lanes) && laneLength == old(laneLength) && id == old(id)
    {
      if connType == IN {
        connIn := Some(other);
      } else {
        connOut := Some(other);
      }
    }

    /** `remove_connection(conn)`: clears at most one end, the start being
      * checked before the end. */
    method RemoveConnection(conn: NodeBuilder)
      modifies this
      ensures old(connIn) == Some(conn) ==> connIn == None && connOut == old(connOut)
      ensures old(connIn) != Some(conn) && old(connOut) == Some(conn) ==> connOut == None && connIn == old(connIn)
      ensures old(connIn) != Some(conn) && old(connOut) != Some(conn) ==> connIn == old(connIn) && connOut == old(connOut)
      ensures lanes == old(lanes) && laneLength == old(laneLength) && id == old(id)
    {
      if connIn == Some(conn) {
        connIn := None;
        return;
      }
      if connOut == Some(conn) {
        connOut := None;
      }
    }

    /** `with_length(length)`: sets the lane length only. */
    method WithLength(length: real) returns (r: StreetBuilder)
      modifies this
      ensures r == this && laneLength == length
      ensures connIn == old(connIn) && connOut == old(connOut) && lanes == old(lanes) && id == old(id)
    {
      laneLength := length;
      r := this;
    }

    /** `with_lanes(lanes)`: sets the lane count only. */
    method WithLanes(lanes: U8) returns (r: StreetBuilder)
      modifies this
      ensures r == this && this.lanes == lanes
      ensures connIn == old(connIn) && connOut == old(connOut) && laneLength == old(laneLength) && id == old(id)
    {
      this.lanes := lanes;
      r := this;
    }

    /** `get_out_connections()`: the end, if there is one. */
    function GetOutConnections(): (r: seq<NodeBuilder>)
      reads this
      ensures |r| <= 1 && (r == [] <==> connOut.None?)
      ensures connOut.Some? ==> r == [connOut.value]
    {
      if connOut.Some? then [connOut.value] else []
    }

    /** `get_all_connections()`: the end, then the start. */
    function GetAllConnections(): (r: seq<NodeBuilder>)
      reads this
      ensures forall k :: 0 <= k < |r| ==> connOut == Some(r[k]) || connIn == Some(r[k])
      ensures connOut.Some? ==> connOut.value in r
      ensures connIn.Some? ==> connIn.value in r
      ensures |r| == (if connOut.Some? then 1 else 0) + (if connIn.Some? then 1 else 0)
      ensures r == (if connOut.Some? then [connOut.value] else []) + (if connIn.Some? then [connIn.value] else [])
    {
      GetOutConnections() + (if connIn.Some? then [connIn.value] else [])
    }

    /** `is_connected(other)`: whether the street ends in `other`. */
    function IsConnected(other: NodeBuilder): (r: bool)
      reads this
      ensures r <==> other in GetOutConnections()
    {
      connOut == Some(other)
    }
  }

  class IONodeBuilder {
    var connectionsOut: seq<NodeBuilder>
    var connectionsIn: seq<NodeBuilder>
    var spawnRate: real
    var id: nat

    /** `IONodeBuilder::new()`: no connections, spawn rate 1, id 0. */
    constructor ()
      ensures connectionsOut == [] && connectionsIn == []
      ensures spawnRate == 1.0 && id == 0
    {
      connectionsOut := [];
      connectionsIn := [];
      spawnRate := 1.0;
      id := 0;
    }

    /** `connect(in_out, n)`: appends `n` to the incoming or outgoing list. */
    method Connect(inOut: InOut, n: NodeBuilder)
      modifies this
      ensures inOut == IN ==> connectionsIn == old(connectionsIn) + [n] && connectionsOut == old(connectionsOut)
      ensures inOut == OUT ==> connectionsOut == old(connectionsOut) + [n] && connectionsIn == old(connectionsIn)
      ensures spawnRate == old(spawnRate) && id == old(id)
    {
      if inOut == IN {
        connectionsIn := connectionsIn + [n];
      } else {
        connectionsOut := connectionsOut + [n];
      }
    }

    /** `spawn_rate(rate)`: sets the spawn rate only. */
    method SetSpawnRate(rate: real) returns (r: IONodeBuilder)
      modifies this
      ensures r == this && spawnRate == rate
      ensures connectionsOut == old(connectionsOut) && connectionsIn == old(connectionsIn) && id == old(id)
    {
      spawnRate := rate;
      r := this;
    }

    /** `remove_connection(conn)`: removes every occurrence of `conn` from
      * both lists, keeping the order of the rest. */
    method RemoveConnection(conn: NodeBuilder)
      modifies this
      ensures connectionsOut == Without(old(connectionsOut), conn)
      ensures connectionsIn == Without(old(connectionsIn), conn)
      ensures spawnRate == old(spawnRate) && id == old(id)
    {
      connectionsOut := Without(connectionsOut, conn);
      connectionsIn := Without(connectionsIn, conn);
    }

    /** `get_out_connections()`: the outgoing list. */
    function GetOutConnections(): (r: seq<NodeBuilder>)
      reads this
      ensures r == connectionsOut
    {
      connectionsOut
    }

    /** `get_all_connections()`: the outgoing list followed by the incoming one. */
    function GetAllConnections(): (r: seq<NodeBuilder>)
      reads this
      ensures |r| == |connectionsOut| + |connectionsIn|
      ensures r[..|connectionsOut|] == connectionsOut && r[|connectionsOut|..] == connectionsIn
    {
      connectionsOut + connectionsIn
    }

    /** `is_connected(other)`: whether `other` is among the outgoing connections. */
    function IsConnected(other: NodeBuilder): (r: bool)
      reads this
      ensures r <==> exists k :: 0 <= k < |connectionsOut| && connectionsOut[k] == other
    {
      other in connectionsOut
    }
  }

  class CrossingBuilder {
    const connections: CrossingConnections<NodeBuilder>
    var length: real
    var id: nat

    /** `CrossingBuilder::new()`: no connections, side length 10, id 0. */
    constructor ()
      ensures fresh(connections)
      ensures connections.input == map[] && connections.output == map[]
      ensures length == 10.0 && id == 0
    {
      connections := new CrossingConnections();
      length := 10.0;
      id := 0;
    }

    /** `connect(dir, conn_type, other)`: `CrossingConnections::add`. */
    method Connect(dir: Direction, connType: InOut, other: NodeBuilder) returns (r: AddResult)
      modifies connections
      ensures r == (if other in old(connections.Side(Opposite(connType))).Values then OppositeSidePanic
                    else if dir in old(connections.Side(connType)) then SlotTaken
                    else Added)
      ensures r == Added ==> connections.Side(connType) == old(connections.Side(connType))[dir := other]
      ensures connections.Side(Opposite(connType)) == old(connections.Side(Opposite(connType)))
      ensures r != Added ==> connections.input == old(connections.input) && connections.output == old(connections.output)
    {
      r := connections.Add(dir, connType, other);
    }

    /** `with_length(length)`: sets the side length only. */
    method WithLength(length: real) returns (r: CrossingBuilder)
      modifies this
      ensures r == this && this.length == length && id == old(id)
    {
      this.length := length;
      r := this;
    }

    /** `has_connection(conn_type, dir)`. */
    function HasConnection(connType: InOut, dir: Direction): (r: bool)
      reads connections
      ensures r <==> dir in connections.Side(connType)
    {
      connections.HasConnection(connType, dir)
    }

    /** `remove_connection(conn)`: drops `conn` from the incoming and the
      * outgoing map. */
    method RemoveConnection(conn: NodeBuilder)
      modifies connections
      ensures connections.input == Retained(old(connections.input), conn)
      ensures connections.output == Retained(old(connections.output), conn)
    {
      connections.RemoveConnection(IN, conn);
      connections.RemoveConnection(OUT, conn);
    }

    /** `get_out_connections()`: the outgoing map's values. */
    function GetOutConnections(): (r: seq<NodeBuilder>)
      reads connections
      ensures forall k :: 0 <= k < |r| ==> r[k] in connections.output.Values
      ensures forall d :: d in connections.output ==> connections.output[d] in r
      ensures |r| == |connections.output.Keys|
    {
      ValuesInOrderComplete(connections.output);
      ValuesInOrder(connections.output)
    }

    /** `get_all_connections()`: the outgoing values followed by the incoming ones. */
    function GetAllConnections(): (r: seq<NodeBuilder>)
      reads connections
      ensures |r| == |connections.output.Keys| + |connections.input.Keys|
      ensures forall k :: 0 <= k < |connections.output.Keys| ==> r[k] in connections.output.Values
      ensures forall k :: |connections.output.Keys| <= k < |r| ==> r[k] in connections.input.Values
      ensures forall d :: d in connections.output ==> connections.output[d] in r[..|connections.output.Keys|]
      ensures forall d :: d in connections.input ==> connections.input[d] in r[|connections.output.Keys|..]
    {
      ValuesInOrderComplete(connections.output);
      ValuesInOrderComplete(connections.input);
      var outs, ins := ValuesInOrder(connections.output), ValuesInOrder(connections.input);
      assert (outs + ins)[..|outs|] == outs && (outs + ins)[|outs|..] == ins;
      outs + ins
    }

    /** `is_connected(other)`: whether an outgoing entry points to `other`. */
    function IsConnected(other: NodeBuilder): (r: bool)
      reads connections
      ensures r <==> other in connections.output.Values
    {
      connections.IsConnected(OUT, other)
    }
  }

  /** The connections of a builder as a value, for stating what a change did. */
  datatype ConnView =
    | IOView(outs: seq<NodeBuilder>, ins: seq<NodeBuilder>)
    | CrossingView(input: map<Direction, NodeBuilder>, output: map<Direction, NodeBuilder>)
    | StreetView(connIn: Option<NodeBuilder>, connOut: Option<NodeBuilder>)

  function View(n: NodeBuilder): ConnView
    reads ObjectsOf(n)
  {
    match n
      case IONode(b) => IOView(b.connectionsOut, b.connectionsIn)
      case Crossing(c) => CrossingView(c.connections.input, c.connections.output)
      case Street(s) => StreetView(s.connIn, s.connOut)
  }

  /** The connections after `remove_connection(conn)`, by kind. */
  function ViewWithout(v: ConnView, conn: NodeBuilder): ConnView
  {
    match v
      case IOView(outs, ins) => IOView(Without(outs, conn), Without(ins, conn))
      case CrossingView(i, o) => CrossingView(Retained(i, conn), Retained(o, conn))
      case StreetView(ci, co) =>
        if ci == Some(conn) then StreetView(None, co)
        else if co == Some(conn) then StreetView(ci, None)
        else v
  }

  /** The targets a connection view mentions. */
  function ViewTargets(v: ConnView): (r: seq<NodeBuilder>)
  {
    match v
      case IOView(outs, ins) => outs + ins
      case CrossingView(i, o) => ValuesInOrder(o) + ValuesInOrder(i)
      case StreetView(ci, co) => (if co.Some? then [co.value] else []) + (if ci.Some? then [ci.value] else [])
  }

  /** The id of any builder. */
  function IdOf(n: NodeBuilder): nat
    reads ObjectsOf(n)
  {
    match n
      case IONode(b) => b.id
      case Crossing(c) => c.id
      case Street(s) => s.id
  }

  /** What a builder holds besides its connections and id: a street's lane
    * count and lane length, an IO node's spawn rate, a crossing's side length. */
  datatype Settings =
    | IOSettings(spawnRate: real)
    | CrossingSettings(length: real)
    | StreetSettings(lanes: U8, laneLength: real)

  function SettingsOf(n: NodeBuilder): Settings
    reads ObjectsOf(n)
  {
    match n
      case IONode(b) => IOSettings(b.spawnRate)
      case Crossing(c) => CrossingSettings(c.length)
      case Street(s) => StreetSettings(s.lanes, s.laneLength)
  }

  /** `get_out_connections()` of any builder. */
  function OutConnections(n: NodeBuilder): (r: seq<NodeBuilder>)
    reads ObjectsOf(n)
  {
    match n
      case IONode(b) => b.GetOutConnections()
      case Crossing(c) => c.GetOutConnections()
      case Street(s) => s.GetOutConnections()
  }

  /** `get_all_connections()` of any builder. */
  function AllConnections(n: NodeBuilder): (r: seq<NodeBuilder>)
    reads ObjectsOf(n)
    ensures r == ViewTargets(View(n))
  {
    match n
      case IONode(b) => b.GetAllConnections()
      case Crossing(c) => c.GetAllConnections()
      case Street(s) => s.GetAllConnections()
  }

  /** `has_connection(node_a, node_b)`, which is `NodeBuilder::is_connected`:
    * whether `other` is among the outgoing connections of `n`. */
  function IsConnectedTo(n: NodeBuilder, other: NodeBuilder): (r: bool)
    reads ObjectsOf(n)
    ensures r <==> exists k :: 0 <= k < |OutConnections(n)| && OutConnections(n)[k] == other
  {
    other in OutConnections(n)
  }

  /** For every kind of builder the generic query agrees with the builder's own `is_connected`. */
  lemma IsConnectedAgrees(n: NodeBuilder, other: NodeBuilder)
    ensures n.IONode? ==> (IsConnectedTo(n, other) <==> n.io.IsConnected(other))
    ensures n.Crossing? ==> (IsConnectedTo(n, other) <==> n.crossing.IsConnected(other))
    ensures n.Street? ==> (IsConnectedTo(n, other) <==> n.street.IsConnected(other))
  {
  }

  /** `set_id(id)` of any builder. */
  method SetId(n: NodeBuilder, id: nat)
    modifies ObjectsOf(n)
    ensures IdOf(n) == id && View(n) == old(View(n))
    ensures SettingsOf(n) == old(SettingsOf(n))
  {
    match n
      case IONode(b) => b.id := id;
      case Crossing(c) => c.id := id;
      case Street(s) => s.id := id;
  }

  /** `remove_connection(conn)` of any builder. */
  method RemoveConnectionFrom(n: NodeBuilder, conn: NodeBuilder)
    modifies ObjectsOf(n)
    ensures View(n) == ViewWithout(old(View(n)), conn)
    ensures IdOf(n) == old(IdOf(n))
    ensures SettingsOf(n) == old(SettingsOf(n))
  {
    match n
      case IONode(b) => b.RemoveConnection(conn);
      case Crossing(c) => c.RemoveConnection(conn);
      case Street(s) => s.RemoveConnection(conn);
  }
}
