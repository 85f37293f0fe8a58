/**
 * The derived equality of the first simulator revision
 * (simulator/src/main.rs).
 *
 * In this revision a connection holds a strong reference to its target
 * and both `Connection` and `Crossing` derive their equality: two
 * connections are equal when their targets are equal crossings, compared
 * by contents, and their lane counts agree; two crossings are equal when
 * their connection lists are equal element by element and their IO-node
 * flags agree.  The comparison follows the connections, so on a network
 * with a cycle it may never end.  The other operations of this revision
 * (`Crossing::new`, `connect`, `get_connection` by `Rc::ptr_eq`,
 * `Connection::new`) behave as in the later revision and are those of
 * `OldCrossing` and `OldConnection`.
 *
 * The comparison is modelled with a fuel bound: the result is `Some(b)`
 * when the comparison ends with `b` before following more than `fuel`
 * connections in depth, and `None` otherwise.
 */
module OldMain {
  import opened Wrappers
  import opened OldConnection
  import opened OldCrossing

  /** Every crossing of u leads only to crossings of u. */
  predicate Closed(u: set<Crossing>)
    reads u
  {
    forall c :: c in u ==> forall k :: 0 <= k < |c.connections| ==> c.connections[k].crossing in u
  }

  /** The derived `Crossing` equality: connections first, then the flag. */
  function EqCrossing(u: set<Crossing>, fuel: nat, a: Crossing, b: Crossing): Option<bool>
    requires Closed(u) && a in u && b in u
    reads u
    decreases fuel, 3, 0
  {
    match EqConns(u, fuel, a.connections, b.connections)
      case None => None
      case Some(false) => Some(false)
      case Some(true) => Some(a.isIoNode == b.isIoNode)
  }

  /** Equality of two connection lists: the lengths, then the elements in
    * order until the first difference. */
  function EqConns(u: set<Crossing>, fuel: nat, xs: seq<Connection<Crossing>>, ys: seq<Connection<Crossing>>): Option<bool>
    requires Closed(u)
    requires forall k :: 0 <= k < |xs| ==> xs[k].crossing in u
    requires forall k :: 0 <= k < |ys| ==> ys[k].crossing in u
    reads u
    decreases fuel, 2, 0
  {
    if |xs| != |ys| then Some(false) else EqConnsFrom(u, fuel, xs, ys, 0)
  }

  function EqConnsFrom(u: set<Crossing>, fuel: nat, xs: seq<Connection<Crossing>>, ys: seq<Connection<Crossing>>, i: nat): Option<bool>
    requires Closed(u) && |xs| == |ys| && i <= |xs|
    requires forall k :: 0 <= k < |xs| ==> xs[k].crossing in u && ys[k].crossing in u
    reads u
    decreases fuel, 1, |xs| - i
  {
    if i == |xs| then Some(true)
    else
      match EqConnection(u, fuel, xs[i], ys[i])
        case None => None
        case Some(false) => Some(false)
        case Some(true) => EqConnsFrom(u, fuel, xs, ys, i + 1)
  }

  /** The derived `Connection` equality: the targets by contents, then the
    * lane counts; following the targets costs one unit of fuel. */
  function EqConnection(u: set<Crossing>, fuel: nat, x: Connection<Crossing>, y: Connection<Crossing>): Option<bool>
    requires Closed(u) && x.crossing in u && y.crossing in u
    reads u
    decreases fuel, 0, 0
  {
    if fuel == 0 then None
    else
      match EqCrossing(u, fuel - 1, x.crossing, y.crossing)
        case None => None
        case Some(false) => Some(false)
        case Some(true) => Some(x.lanes == y.lanes)
  }

  /** Comparing a crossing with itself never finds a difference: it reports
    * equal or does not finish. */
  lemma {:induction false} CrossingReflexive(u: set<Crossing>, fuel: nat, a: Crossing)
    requires Closed(u) && a in u
    ensures EqCrossing(u, fuel, a, a) != Some(false)
    decreases fuel, 3, 0
  {
    ConnsReflexive(u, fuel, a.connections, 0);
  }

  lemma {:induction false} ConnsReflexive(u: set<Crossing>, fuel: nat, xs: seq<Connection<Crossing>>, i: nat)
    requires Closed(u) && i <= |xs|
    requires forall k :: 0 <= k < |xs| ==> xs[k].crossing in u
    ensures EqConnsFrom(u, fuel, xs, xs, i) != Some(false)
    decreases fuel, 1, |xs| - i
  {
    if i < |xs| {
      ConnectionReflexive(u, fuel, xs[i]);
      ConnsReflexive(u, fuel, xs, i + 1);
    }
  }

  lemma {:induction false} ConnectionReflexive(u: set<Crossing>, fuel: nat, x: Connection<Crossing>)
    requires Closed(u) && x.crossing in u
    ensures EqConnection(u, fuel, x, x) != Some(false)
    decreases fuel, 0, 0
  {
    if fuel > 0 {
      CrossingReflexive(u, fuel - 1, x.crossing);
    }
  }

  /** The comparison looks at contents only: distinct crossings with the
    * same connections and flag compare like a crossing with itself, so
    * they are never found different. */
  lemma EqualContentsNotDifferent(u: set<Crossing>, fuel: nat, a: Crossing, b: Crossing)
    requires Closed(u) && a in u && b in u
    requires a.connections == b.connections && a.isIoNode == b.isIoNode
    ensures EqCrossing(u, fuel, a, b) == EqCrossing(u, fuel, a, a)
    ensures EqCrossing(u, fuel, a, b) != Some(false)
  {
    CrossingReflexive(u, fuel, a);
  }

  /** The `get_connection` test: c1 connected to c2 with one lane; the
    * connection found for c2 equals `Connection::new(c2)` under the
    * derived equality, which needs one level of comparison. */
  method GetConnectionTest() returns (found: Option<Connection<Crossing>>, verdict: Option<bool>)
    ensures found.Some? && verdict == Some(true)
  {
    var c1 := new Crossing(false);
    var c2 := new Crossing(false);
    c1.Connect(c2, 1);
    assert c1.connections[0].crossing == c2;
    found := c1.GetConnection(c2);
    assert found.value == Connection(c2, 1);
    var u := {c1, c2};
    assert EqConns(u, 0, c2.connections, c2.connections) == Some(true);
    assert EqCrossing(u, 0, c2, c2) == Some(true);
    verdict := EqConnection(u, 1, New(c2), found.value);
  }

  /** Two fresh unconnected crossings: the derived equality calls them
    * equal, while `get_connection`, which compares identities, does not
    * find a connection to the second among the first's targets. */
  method ValueVersusIdentity() returns (verdict: Option<bool>, found: Option<Connection<Crossing>>)
    ensures verdict == Some(true) && found.None?
  {
    var a := new Crossing(false);
    var b := new Crossing(false);
    var c := new Crossing(false);
    c.Connect(a, 1);
    var u := {a, b, c};
    assert EqConns(u, 0, a.connections, b.connections) == Some(true);
    assert EqCrossing(u, 0, a, b) == Some(true);
    verdict := EqConnection(u, 1, New(a), New(b));
    found := c.GetConnection(b);
  }

  /** The network of the `connect_crossings` test, c1 to c2 and c2 back to
    * c1: comparing either crossing with itself follows the cycle forever,
    * whatever the fuel. */
  lemma {:induction false} CycleNeverDecides(u: set<Crossing>, fuel: nat, c1: Crossing, c2: Crossing)
    requires Closed(u) && c1 in u && c2 in u
    requires c1.connections == [Connection(c2, 1)] && c2.connections == [Connection(c1, 3)]
    ensures EqCrossing(u, fuel, c1, c1).None? && EqCrossing(u, fuel, c2, c2).None?
    decreases fuel
  {
    if fuel > 0 {
      CycleNeverDecides(u, fuel - 1, c1, c2);
    }
    assert EqConnection(u, fuel, Connection(c2, 1), Connection(c2, 1)).None?;
    assert EqConnection(u, fuel, Connection(c1, 3), Connection(c1, 3)).None?;
    assert EqConnsFrom(u, fuel, c1.connections, c1.connections, 0).None?;
    assert EqConnsFrom(u, fuel, c2.connections, c2.connections, 0).None?;
  }

  /** The `connect_crossings` test builds that cycle; the lane counts it
    * checks are 1 and 3, and the derived equality of its crossings never
    * finishes. */
  method ConnectCrossingsTest() returns (c1: Crossing, c2: Crossing, laneC1: U8, laneC2: U8)
    ensures laneC1 == 1 && laneC2 == 3 && Closed({c1, c2})
    ensures forall fuel: nat :: EqCrossing({c1, c2}, fuel, c1, c1).None?
  {
    c1 := new Crossing(false);
    c2 := new Crossing(false);
    c1.Connect(c2, 1);
    c2.Connect(c1, 3);
    laneC1 := c1.connections[0].lanes;
    laneC2 := c2.connections[0].lanes;
    forall fuel: nat
      ensures EqCrossing({c1, c2}, fuel, c1, c1).None?
    {
      CycleNeverDecides({c1, c2}, fuel, c1, c2);
    }
  }
}
