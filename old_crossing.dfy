/**
 * A crossing of the early simulator revision (simulator/src/crossing.rs).
 *
 * A crossing owns the list of its outgoing connections and an IO-node
 * flag.  `connect` appends one connection without looking for an existing
 * one; `get_connection` returns the first connection whose target is the
 * given crossing, compared by identity.
 */
module OldCrossing {
  import opened Wrappers
  import opened OldConnection

  class Crossing {
    var connections: seq<Connection<Crossing>>
    var isIoNode: bool

    /** `Crossing::new`: no connections. */
    constructor (isIoNode: bool)
      ensures connections == [] && this.isIoNode == isIoNode
    {
      connections := [];
      this.isIoNode := isIoNode;
    }

    /** `get_connection(other)`: the first connection that points at
      * `other` itself, or `None` when no connection does. */
    method GetConnection(other: Crossing) returns (r: Option<Connection<Crossing>>)
      ensures r.None? <==> forall k :: 0 <= k < |connections| ==> connections[k].crossing != other
      ensures r.Some? ==>
                exists i :: 0 <= i < |connections| && r.value == connections[i] && connections[i].crossing == other &&
                  forall j :: 0 <= j < i ==> connections[j].crossing != other
    {
      var i := 0;
      while i < |connections|
        invariant 0 <= i <= |connections|
        invariant forall j :: 0 <= j < i ==> connections[j].crossing != other
      {
        if connections[i].crossing == other {
          return Some(connections[i]);
        }
        i := i + 1;
      }
      r := None;
    }

    /** `connect(other, lane_count)`: appends one connection to `other` with
      * `lane_count` lanes, even when one to `other` exists already. */
    method Connect(other: Crossing, laneCount: U8)
      modifies this
      ensures connections == old(connections) + [Connection(other, laneCount)]
      ensures isIoNode == old(isIoNode)
    {
      connections := connections + [Connection(other, laneCount)];
    }
  }

  /** The `connect_crossings` test, and with `again` the
    * `connect_already_connected_crossings` one: c1 to c2 with one lane, c2
    * to c1 with three, and with `again` c1 to c2 once more.  The first lane
    * counts are 1 and 3 either way: a repeated connect appends a second
    * entry instead of adding lanes, so the second test's expectation of 2
    * fails, which is the panic that test expects. */
  method ConnectTwoCrossings(again: bool) returns (laneC1: U8, laneC2: U8, countC1: nat)
    ensures laneC1 == 1 && laneC2 == 3
    ensures countC1 == if again then 2 else 1
  {
    var c1 := new Crossing(false);
    var c2 := new Crossing(false);
    c1.Connect(c2, 1);
    c2.Connect(c1, 3);
    if again {
      c1.Connect(c2, 1);
    }
    laneC1 := c1.connections[0].lanes;
    laneC2 := c2.connections[0].lanes;
    countC1 := |c1.connections|;
  }

  /** The `get_connection` test: fifty fresh targets, then c2, then fifty
    * more; the connection found for c2 equals `Connection::new(c2)`. */
  method GetConnectionAmongMany() returns (c2: Crossing, r: Option<Connection<Crossing>>)
    ensures r.Some? && Eq(New(c2), r.value)
  {
    var c1 := new Crossing(false);
    c2 := new Crossing(false);
    var n := 0;
    while n < 50
      invariant 0 <= n <= 50 && |c1.connections| == n
      invariant forall k :: 0 <= k < n ==> c1.connections[k].crossing != c2
    {
      var c := new Crossing(false);
      c1.Connect(c, 1);
      n := n + 1;
    }
    c1.Connect(c2, 1);
    while n < 100
      invariant 50 <= n <= 100 && |c1.connections| == n + 1
      invariant c1.connections[50] == Connection(c2, 1)
      invariant forall k :: 0 <= k <= n && k != 50 ==> c1.connections[k].crossing != c2
    {
      var c := new Crossing(false);
      c1.Connect(c, 1);
      n := n + 1;
    }
    r := c1.GetConnection(c2);
  }

  /** Two distinct crossings with the same contents: connections made to
    * them by `new` are not equal, since equality is identity of the
    * target. */
  method EqualContentsNotEqual() returns (a: Crossing, b: Crossing)
    ensures a.connections == b.connections && a.isIoNode == b.isIoNode
    ensures !Eq(New(a), New(b)) && Ne(New(a), New(b))
  {
    a := new Crossing(false);
    b := new Crossing(false);
  }
}
