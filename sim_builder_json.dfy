/**
 * The JSON form of a simulator builder (simulator/src/simulation_builder.rs,
 * the `Json*` records and the `Serialize`/`Deserialize` implementations).
 *
 * A record names its connections by node id. Serialising replaces every
 * connected builder by its id; deserialising first makes one unconnected
 * builder per record (the "unfinished builder") and then looks up every id
 * it mentions in the new list, taking the first builder with that id. The
 * records are modelled after parsing: reading and writing JSON text is not
 * part of this model.
 */
module SimBuilderJson {
  import opened Wrappers
  import opened SimNodeBuilder
  import opened SimCascade
  import opened SimSimulationBuilder

  datatype JsonCrossingConnections = JsonCrossingConnections(input: map<Direction, nat>, output: map<Direction, nat>)

  /** One record per builder; each kind carries its own settings and its id. */
  datatype JsonNode =
    | JsonCrossing(connected: JsonCrossingConnections, id: nat, length: real)
    | JsonIONode(connectedIn: seq<nat>, connectedOut: seq<nat>, spawnRate: real, id: nat)
    | JsonStreet(connIn: Option<nat>, connOut: Option<nat>, lanes: U8, length: real, id: nat)

  datatype JsonRepresentation = JsonRepresentation(nodes: seq<JsonNode>, nextId: nat, dt: real, delay: nat)

  /** The outcome of deserialising: the builder, or a panic of one of the
    * `unwrap`s (an id no record has) or of the crossing's assertion that a
    * node is not attached on both sides. */
  datatype Loaded = Loaded(builder: SimulatorBuilder) | LoadPanic

  /** The ids of the records, in order. */
  function JsonIds(recs: seq<JsonNode>): (r: seq<nat>)
    ensures |r| == |recs|
    ensures forall k :: 0 <= k < |recs| ==> r[k] == recs[k].id
  {
    if recs == [] then [] else [recs[0].id] + JsonIds(recs[1..])
  }

  // ---------------------------------------------------------------------
  // Ids and the builders they name.

  /** `ids` are the ids of `ns`: position by position, and one builder
    * always shows one id. */
  predicate Consistent(ns: seq<NodeBuilder>, ids: seq<nat>)
  {
    |ids| == |ns| &&
    forall p, q :: 0 <= p < |ns| && 0 <= q < |ns| && ns[p] == ns[q] ==> ids[p] == ids[q]
  }

  lemma IdsConsistent(ns: seq<NodeBuilder>)
    ensures Consistent(ns, IdsOf(ns))
  {
    forall p, q | 0 <= p < |ns| && 0 <= q < |ns| && ns[p] == ns[q]
      ensures IdsOf(ns)[p] == IdsOf(ns)[q]
    {
      IdsOfAt(ns, p);
      IdsOfAt(ns, q);
    }
  }

  /** The builder `find` returns for `id`: the first one carrying it. */
  function TargetOf(ns: seq<NodeBuilder>, ids: seq<nat>, id: nat): NodeBuilder
    requires |ids| == |ns| && id in ids
  {
    ns[FindId(ids, id).value]
  }

  /** The id serialisation writes for a listed builder. */
  function IdIn(ns: seq<NodeBuilder>, ids: seq<nat>, c: NodeBuilder): nat
    requires |ids| == |ns| && c in ns
  {
    ids[IndexOf(ns, c).value]
  }

  /** Looking an id up and writing the builder's id back gives the id. */
  lemma IdOfTarget(ns: seq<NodeBuilder>, ids: seq<nat>, id: nat)
    requires Consistent(ns, ids) && id in ids
    ensures TargetOf(ns, ids, id) in ns && IdIn(ns, ids, TargetOf(ns, ids, id)) == id
  {
  }

  predicate AllIn(xs: seq<nat>, ids: seq<nat>)
  {
    forall m :: 0 <= m < |xs| ==> xs[m] in ids
  }

  predicate MapIn(m: map<Direction, nat>, ids: seq<nat>)
  {
    forall d :: d in m ==> m[d] in ids
  }

  predicate OptIn(x: Option<nat>, ids: seq<nat>)
  {
    x.Some? ==> x.value in ids
  }

  function TargetsOf(ns: seq<NodeBuilder>, ids: seq<nat>, xs: seq<nat>): (r: seq<NodeBuilder>)
    requires |ids| == |ns| && AllIn(xs, ids)
    ensures |r| == |xs|
  {
    if xs == [] then [] else TargetsOf(ns, ids, xs[..|xs| - 1]) + [TargetOf(ns, ids, xs[|xs| - 1])]
  }

  function TargetMap(ns: seq<NodeBuilder>, ids: seq<nat>, m: map<Direction, nat>): (r: map<Direction, NodeBuilder>)
    requires |ids| == |ns| && MapIn(m, ids)
  {
    map d | d in m :: TargetOf(ns, ids, m[d])
  }

  function OptTarget(ns: seq<NodeBuilder>, ids: seq<nat>, x: Option<nat>): Option<NodeBuilder>
    requires |ids| == |ns| && OptIn(x, ids)
  {
    if x.Some? then Some(TargetOf(ns, ids, x.value)) else None
  }

  predicate AllListed(cs: seq<NodeBuilder>, ns: seq<NodeBuilder>)
  {
    forall m :: 0 <= m < |cs| ==> cs[m] in ns
  }

  predicate MapListed(m: map<Direction, NodeBuilder>, ns: seq<NodeBuilder>)
  {
    forall d :: d in m ==> m[d] in ns
  }

  function IdsIn(ns: seq<NodeBuilder>, ids: seq<nat>, cs: seq<NodeBuilder>): (r: seq<nat>)
    requires |ids| == |ns| && AllListed(cs, ns)
    ensures |r| == |cs|
  {
    if cs == [] then [] else IdsIn(ns, ids, cs[..|cs| - 1]) + [IdIn(ns, ids, cs[|cs| - 1])]
  }

  function MapIdsIn(ns: seq<NodeBuilder>, ids: seq<nat>, m: map<Direction, NodeBuilder>): (r: map<Direction, nat>)
    requires |ids| == |ns| && MapListed(m, ns)
  {
    map d | d in m :: IdIn(ns, ids, m[d])
  }

  function OptIdIn(ns: seq<NodeBuilder>, ids: seq<nat>, c: Option<NodeBuilder>): Option<nat>
    requires |ids| == |ns| && (c.Some? ==> c.value in ns)
  {
    if c.Some? then Some(IdIn(ns, ids, c.value)) else None
  }

  /** Resolving a list of ids and writing them back gives the same list. */
  lemma {:induction false} IdsOfTargets(ns: seq<NodeBuilder>, ids: seq<nat>, xs: seq<nat>)
    requires Consistent(ns, ids) && AllIn(xs, ids)
    ensures AllListed(TargetsOf(ns, ids, xs), ns)
    ensures IdsIn(ns, ids, TargetsOf(ns, ids, xs)) == xs
  {
    if xs != [] {
      var init := xs[..|xs| - 1];
      IdsOfTargets(ns, ids, init);
      IdOfTarget(ns, ids, xs[|xs| - 1]);
      var ts := TargetsOf(ns, ids, xs);
      assert ts[..|ts| - 1] == TargetsOf(ns, ids, init);
      assert xs == init + [xs[|xs| - 1]];
    }
  }

  /** Resolving a direction map of ids and writing it back gives the same map. */
  lemma MapIdsOfTargets(ns: seq<NodeBuilder>, ids: seq<nat>, m: map<Direction, nat>)
    requires Consistent(ns, ids) && MapIn(m, ids)
    ensures MapListed(TargetMap(ns, ids, m), ns)
    ensures MapIdsIn(ns, ids, TargetMap(ns, ids, m)) == m
  {
    forall d | d in m
      ensures TargetOf(ns, ids, m[d]) in ns && IdIn(ns, ids, TargetOf(ns, ids, m[d])) == m[d]
    {
      IdOfTarget(ns, ids, m[d]);
    }
  }

  /** A resolved id is attached on a side exactly when the id is among that
    * side's ids: the check of `add` on builders is the check on ids. */
  lemma TargetInValues(ns: seq<NodeBuilder>, ids: seq<nat>, m: map<Direction, nat>, id: nat)
    requires Consistent(ns, ids) && MapIn(m, ids) && id in ids
    ensures TargetOf(ns, ids, id) in TargetMap(ns, ids, m).Values <==> id in m.Values
  {
    var tm := TargetMap(ns, ids, m);
    if id in m.Values {
      var d :| d in m && m[d] == id;
      assert tm[d] == TargetOf(ns, ids, id);
    }
    if TargetOf(ns, ids, id) in tm.Values {
      var d :| d in tm && tm[d] == TargetOf(ns, ids, id);
      IdOfTarget(ns, ids, id);
      IdOfTarget(ns, ids, m[d]);
      assert m[d] == id;
    }
  }

  // ---------------------------------------------------------------------
  // Records of builders.

  /** Every connection of the view is to a listed builder: what serialising
    * needs to find an id for each. */
  predicate ListedView(v: ConnView, ns: seq<NodeBuilder>)
  {
    match v
      case IOView(outs, ins) => AllListed(outs, ns) && AllListed(ins, ns)
      case CrossingView(i, o) => MapListed(i, ns) && MapListed(o, ns)
      case StreetView(ci, co) => (ci.Some? ==> ci.value in ns) && (co.Some? ==> co.value in ns)
  }

  /** Every builder of the list is connected to listed builders only. */
  predicate Serialisable(ns: seq<NodeBuilder>)
    reads ObjectsOfAll(ns)
  {
    forall k :: 0 <= k < |ns| ==> ListedView(ViewsOf(ns)[k], ns)
  }

  /** A list closed under its connections can be serialised. */
  lemma ClosedSerialisable(ns: seq<NodeBuilder>)
    requires Closed(ViewsOf(ns), ns)
    ensures Serialisable(ns)
  {
    var views := ViewsOf(ns);
    forall k | 0 <= k < |ns|
      ensures ListedView(views[k], ns)
    {
      TargetsListed(views[k], ns);
    }
  }

  /** A view whose targets are all listed is listed. */
  lemma TargetsListed(v: ConnView, ns: seq<NodeBuilder>)
    requires forall j :: 0 <= j < |ViewTargets(v)| ==> ViewTargets(v)[j] in ns
    ensures ListedView(v, ns)
  {
    match v
      case IOView(outs, ins) =>
        assert ViewTargets(v) == outs + ins;
        ConcatListed(outs, ins, ns);
      case CrossingView(i, o) =>
        assert ViewTargets(v) == ValuesInOrder(o) + ValuesInOrder(i);
        ConcatListed(ValuesInOrder(o), ValuesInOrder(i), ns);
        ValuesListed(i, ns);
        ValuesListed(o, ns);
      case StreetView(ci, co) =>
        var ts := ViewTargets(v);
        if ci.Some? {
          assert ts[|ts| - 1] == ci.value;
        }
        if co.Some? {
          assert ts[0] == co.value;
        }
  }

  /** Both halves of a listed concatenation are listed. */
  lemma ConcatListed(a: seq<NodeBuilder>, b: seq<NodeBuilder>, ns: seq<NodeBuilder>)
    requires forall j :: 0 <= j < |a + b| ==> (a + b)[j] in ns
    ensures AllListed(a, ns) && AllListed(b, ns)
  {
    forall m | 0 <= m < |a|
      ensures a[m] in ns
    {
      assert (a + b)[m] == a[m];
    }
    forall m | 0 <= m < |b|
      ensures b[m] in ns
    {
      assert (a + b)[|a| + m] == b[m];
    }
  }

  /** A map whose values, in order, are listed is listed. */
  lemma ValuesListed(m: map<Direction, NodeBuilder>, ns: seq<NodeBuilder>)
    requires AllListed(ValuesInOrder(m), ns)
    ensures MapListed(m, ns)
  {
    forall d | d in m
      ensures m[d] in ns
    {
      ValuesInOrderCovers(m, d);
      var vs := ValuesInOrder(m);
      var k :| 0 <= k < |vs| && vs[k] == m[d];
    }
  }

  /** The record serialisation writes for one builder. */
  function RecordOf(n: NodeBuilder, ns: seq<NodeBuilder>, ids: seq<nat>): (r: JsonNode)
    reads ObjectsOf(n)
    requires |ids| == |ns| && ListedView(View(n), ns)
    ensures r.id == IdOf(n)
  {
    match n
      case IONode(b) =>
        JsonIONode(IdsIn(ns, ids, b.connectionsIn), IdsIn(ns, ids, b.connectionsOut), b.spawnRate, b.id)
      case Crossing(c) =>
        JsonCrossing(JsonCrossingConnections(MapIdsIn(ns, ids, c.connections.input),
                                             MapIdsIn(ns, ids, c.connections.output)), c.id, c.length)
      case Street(s) =>
        JsonStreet(OptIdIn(ns, ids, s.connIn), OptIdIn(ns, ids, s.connOut), s.lanes, s.laneLength, s.id)
  }

  function RecordsOf(ms: seq<NodeBuilder>, ns: seq<NodeBuilder>, ids: seq<nat>): (r: seq<JsonNode>)
    reads ObjectsOfAll(ms)
    requires |ids| == |ns| && forall k :: 0 <= k < |ms| ==> ListedView(ViewsOf(ms)[k], ns)
    ensures |r| == |ms| && JsonIds(r) == IdsOf(ms)
  {
    if ms == [] then []
    else
      assert ViewsOf(ms)[0] == View(ms[0]);
      assert forall k :: 0 <= k < |ms| - 1 ==> ViewsOf(ms[1..])[k] == ViewsOf(ms)[k + 1];
      var r := [RecordOf(ms[0], ns, ids)] + RecordsOf(ms[1..], ns, ids);
      assert r[1..] == RecordsOf(ms[1..], ns, ids);
      r
  }

  /** Builders carrying their records' settings, with the records'
    * connections resolved, serialise back to the records. */
  lemma {:induction false} RecordsOfResolved(ms: seq<NodeBuilder>, recs: seq<JsonNode>, ns: seq<NodeBuilder>, ids: seq<nat>)
    requires Consistent(ns, ids) && |ms| == |recs|
    requires forall k :: 0 <= k < |ms| ==> RefsIn(recs[k], ids)
    requires forall k :: 0 <= k < |ms| ==> Carries(ms[k], recs[k]) && View(ms[k]) == Resolved(recs[k], ns, ids)
    ensures forall k :: 0 <= k < |ms| ==> ListedView(ViewsOf(ms)[k], ns)
    ensures RecordsOf(ms, ns, ids) == recs
  {
    ResolvedListed(ms, recs, ns, ids);
    if ms != [] {
      var tl, rtl := ms[1..], recs[1..];
      assert forall k :: 0 <= k < |tl| ==> tl[k] == ms[k + 1] && rtl[k] == recs[k + 1];
      RecordOfResolved(ms[0], recs[0], ns, ids);
      RecordsOfResolved(tl, rtl, ns, ids);
      assert RecordsOf(ms, ns, ids) == [RecordOf(ms[0], ns, ids)] + RecordsOf(tl, ns, ids);
      assert recs == [recs[0]] + rtl;
    }
  }

  /** Builders with their records' connections resolved are listed. */
  lemma ResolvedListed(ms: seq<NodeBuilder>, recs: seq<JsonNode>, ns: seq<NodeBuilder>, ids: seq<nat>)
    requires Consistent(ns, ids) && |ms| == |recs|
    requires forall k :: 0 <= k < |ms| ==> RefsIn(recs[k], ids)
    requires forall k :: 0 <= k < |ms| ==> Carries(ms[k], recs[k]) && View(ms[k]) == Resolved(recs[k], ns, ids)
    ensures forall k :: 0 <= k < |ms| ==> ListedView(ViewsOf(ms)[k], ns)
  {
    forall k | 0 <= k < |ms|
      ensures ListedView(ViewsOf(ms)[k], ns)
    {
      ViewsOfAt(ms, k);
      RecordOfResolved(ms[k], recs[k], ns, ids);
    }
  }

  /** `serialize`: every builder becomes its record, each connection the id
    * of its target; the counter and the settings are copied. */
  function Serialize(b: SimulatorBuilder): (j: JsonRepresentation)
    reads b, ObjectsOfAll(b.nodes)
    requires Serialisable(b.nodes)
    ensures |j.nodes| == |b.nodes| && JsonIds(j.nodes) == IdsOf(b.nodes)
    ensures j.nextId == b.nextId && j.dt == b.dt && j.delay == b.delay
  {
    JsonRepresentation(RecordsOf(b.nodes, b.nodes, IdsOf(b.nodes)), b.nextId, b.dt, b.delay)
  }

  // ---------------------------------------------------------------------
  // Deserialising.

  /** The ids the record refers to all exist. */
  predicate RefsIn(rec: JsonNode, ids: seq<nat>)
  {
    match rec
      case JsonCrossing(c, _, _) => MapIn(c.input, ids) && MapIn(c.output, ids)
      case JsonIONode(ci, co, _, _) => AllIn(ci, ids) && AllIn(co, ids)
      case JsonStreet(ci, co, _, _, _) => OptIn(ci, ids) && OptIn(co, ids)
  }

  /** Reconnecting the record does not panic: every id it names exists and
    * no node is attached to a crossing both as input and as output. */
  predicate RecordLoadable(rec: JsonNode, ids: seq<nat>)
  {
    RefsIn(rec, ids) &&
    (rec.JsonCrossing? ==> rec.connected.input.Values !! rec.connected.output.Values)
  }

  predicate Loadable(j: JsonRepresentation)
  {
    forall k :: 0 <= k < |j.nodes| ==> RecordLoadable(j.nodes[k], JsonIds(j.nodes))
  }

  /** The connections a record stands for, once its ids are resolved in `ns`. */
  function Resolved(rec: JsonNode, ns: seq<NodeBuilder>, ids: seq<nat>): ConnView
    requires |ids| == |ns| && RefsIn(rec, ids)
  {
    match rec
      case JsonCrossing(c, _, _) => CrossingView(TargetMap(ns, ids, c.input), TargetMap(ns, ids, c.output))
      case JsonIONode(ci, co, _, _) => IOView(TargetsOf(ns, ids, co), TargetsOf(ns, ids, ci))
      case JsonStreet(ci, co, _, _, _) => StreetView(OptTarget(ns, ids, ci), OptTarget(ns, ids, co))
  }

  /** The connections of an unfinished builder: none. */
  function Unconnected(rec: JsonNode): ConnView
  {
    match rec
      case JsonCrossing(_, _, _) => CrossingView(map[], map[])
      case JsonIONode(_, _, _, _) => IOView([], [])
      case JsonStreet(_, _, _, _, _) => StreetView(None, None)
  }

  /** The builder is of the record's kind and has its id and settings. */
  predicate Carries(n: NodeBuilder, rec: JsonNode)
    reads ObjectsOf(n)
  {
    match rec
      case JsonCrossing(_, id, length) => n.Crossing? && n.crossing.id == id && n.crossing.length == length
      case JsonIONode(_, _, rate, id) => n.IONode? && n.io.id == id && n.io.spawnRate == rate
      case JsonStreet(_, _, lanes, length, id) =>
        n.Street? && n.street.id == id && n.street.lanes == lanes && n.street.laneLength == length
  }

  /** A builder with the record's settings and the record's connections
    * resolved serialises back to the record. */
  lemma RecordOfResolved(n: NodeBuilder, rec: JsonNode, ns: seq<NodeBuilder>, ids: seq<nat>)
    requires Consistent(ns, ids) && RefsIn(rec, ids)
    requires Carries(n, rec) && View(n) == Resolved(rec, ns, ids)
    ensures ListedView(View(n), ns) && RecordOf(n, ns, ids) == rec
  {
    match rec
      case JsonCrossing(c, _, _) =>
        MapIdsOfTargets(ns, ids, c.input);
        MapIdsOfTargets(ns, ids, c.output);
      case JsonIONode(ci, co, _, _) =>
        IdsOfTargets(ns, ids, ci);
        IdsOfTargets(ns, ids, co);
      case JsonStreet(ci, co, _, _, _) =>
        if ci.Some? {
          IdOfTarget(ns, ids, ci.value);
        }
        if co.Some? {
          IdOfTarget(ns, ids, co.value);
        }
  }

  /** `to_unfinished_builder`: a new builder of the record's kind with its
    * settings and id and no connections. */
  method ToUnfinishedBuilder(rec: JsonNode) returns (n: NodeBuilder)
    ensures forall o :: o in ObjectsOf(n) ==> fresh(o)
    ensures Carries(n, rec) && View(n) == Unconnected(rec)
  {
    match rec
      case JsonCrossing(_, id, length) =>
        var c := new CrossingBuilder();
        var _ := c.WithLength(length);
        c.id := id;
        n := Crossing(c);
      case JsonIONode(_, _, rate, id) =>
        var b := new IONodeBuilder();
        b.spawnRate := rate;
        b.id := id;
        n := IONode(b);
      case JsonStreet(_, _, lanes, length, id) =>
        var s := new StreetBuilder();
        var _ := s.WithLanes(lanes);
        var _ := s.WithLength(length);
        s.id := id;
        n := Street(s);
  }

  /** The first loop of `deserialize`: one unfinished builder per record. */
  method UnfinishedBuilders(recs: seq<JsonNode>) returns (ns: seq<NodeBuilder>)
    ensures |ns| == |recs| && Disjoint(ns)
    ensures forall o :: o in ObjectsOfAll(ns) ==> fresh(o)
    ensures forall k :: 0 <= k < |ns| ==> Carries(ns[k], recs[k]) && View(ns[k]) == Unconnected(recs[k])
  {
    ns := [];
    var i := 0;
    while i < |recs|
      invariant i <= |recs| && |ns| == i && Disjoint(ns)
      invariant forall o :: o in ObjectsOfAll(ns) ==> fresh(o)
      invariant forall k :: 0 <= k < i ==> Carries(ns[k], recs[k]) && View(ns[k]) == Unconnected(recs[k])
    {
      AllocatedObjects(ns);
      var n := ToUnfinishedBuilder(recs[i]);
      assert ObjectsOf(n) !! ObjectsOfAll(ns);
      AppendDisjoint(ns, n);
      ObjectsOfAllAppend(ns, n);
      ns := ns + [n];
      i := i + 1;
    }
  }

  /** Reconnecting one IONode: the incoming ids, then the outgoing ones, each
    * appended after looking it up. */
  method ConnectIONode(ns: seq<NodeBuilder>, ids: seq<nat>, b: IONodeBuilder, cin: seq<nat>, cout: seq<nat>)
    returns (ok: bool)
    requires |ids| == |ns|
    requires b.connectionsIn == [] && b.connectionsOut == []
    modifies b
    ensures ok == (AllIn(cin, ids) && AllIn(cout, ids))
    ensures ok ==> b.connectionsIn == TargetsOf(ns, ids, cin) && b.connectionsOut == TargetsOf(ns, ids, cout)
    ensures b.spawnRate == old(b.spawnRate) && b.id == old(b.id)
  {
    ok := ConnectSide(ns, ids, b, IN, cin);
    if !ok {
      return;
    }
    ok := ConnectSide(ns, ids, b, OUT, cout);
  }

  /** The side opposite `inOut`. */
  function Other(inOut: InOut): InOut
  {
    if inOut == IN then OUT else IN
  }

  /** The connections of an IONode builder on one side. */
  function Side(b: IONodeBuilder, inOut: InOut): seq<NodeBuilder>
    reads b
  {
    if inOut == IN then b.connectionsIn else b.connectionsOut
  }

  /** One loop of reconnecting an IONode: the ids `cs`, each looked up and
    * connected on side `inOut`; the other side is left alone. */
  method ConnectSide(ns: seq<NodeBuilder>, ids: seq<nat>, b: IONodeBuilder, inOut: InOut, cs: seq<nat>)
    returns (ok: bool)
    requires |ids| == |ns| && Side(b, inOut) == []
    modifies b
    ensures ok == AllIn(cs, ids)
    ensures ok ==> Side(b, inOut) == TargetsOf(ns, ids, cs)
    ensures Side(b, Other(inOut)) == old(Side(b, Other(inOut)))
    ensures b.spawnRate == old(b.spawnRate) && b.id == old(b.id)
  {
    var m := 0;
    while m < |cs|
      invariant m <= |cs| && AllIn(cs[..m], ids)
      invariant Side(b, inOut) == TargetsOf(ns, ids, cs[..m])
      invariant Side(b, Other(inOut)) == old(Side(b, Other(inOut)))
      invariant b.spawnRate == old(b.spawnRate) && b.id == old(b.id)
    {
      var found := FindId(ids, cs[m]);
      if found.None? {
        return false;
      }
      b.Connect(inOut, ns[found.value]);
      assert cs[..m + 1][..m] == cs[..m];
      m := m + 1;
    }
    assert cs[..m] == cs;
    ok := true;
  }

  /** Reconnecting one street: its start, then its end. */
  method ConnectStreet(ns: seq<NodeBuilder>, ids: seq<nat>, s: StreetBuilder, ci: Option<nat>, co: Option<nat>)
    returns (ok: bool)
    requires |ids| == |ns|
    modifies s
    ensures ok == (OptIn(ci, ids) && OptIn(co, ids))
    ensures ok ==> s.connIn == (if ci.Some? then OptTarget(ns, ids, ci) else old(s.connIn))
    ensures ok ==> s.connOut == (if co.Some? then OptTarget(ns, ids, co) else old(s.connOut))
    ensures s.lanes == old(s.lanes) && s.laneLength == old(s.laneLength) && s.id == old(s.id)
  {
    if ci.Some? {
      var found := FindId(ids, ci.value);
      if found.None? {
        return false;
      }
      s.Connect(IN, ns[found.value]);
    }
    if co.Some? {
      var found := FindId(ids, co.value);
      if found.None? {
        return false;
      }
      s.Connect(OUT, ns[found.value]);
    }
    ok := true;
  }

  /** The entries of `m` whose direction is no longer to be visited. */
  function Visited(m: map<Direction, nat>, todo: set<Direction>): map<Direction, nat>
  {
    map d | d in m && d !in todo :: m[d]
  }

  /** Visiting one more direction adds its entry, resolved. */
  lemma VisitOne(ns: seq<NodeBuilder>, ids: seq<nat>, m: map<Direction, nat>, todo: set<Direction>, d: Direction)
    requires |ids| == |ns| && d in todo && d in m && m[d] in ids && MapIn(Visited(m, todo), ids)
    ensures MapIn(Visited(m, todo - {d}), ids)
    ensures Visited(m, todo - {d}) == Visited(m, todo)[d := m[d]]
    ensures TargetMap(ns, ids, Visited(m, todo - {d})) == TargetMap(ns, ids, Visited(m, todo))[d := TargetOf(ns, ids, m[d])]
  {
    assert Visited(m, todo - {d}) == Visited(m, todo)[d := m[d]];
  }

  /** With nothing left to visit, every entry is visited. */
  lemma VisitedAll(m: map<Direction, nat>)
    ensures Visited(m, {}) == m
  {
  }

  /** Reconnecting one crossing: every incoming entry, then every outgoing
    * one; the outgoing `add`s panic on a node that is already an input. */
  method ConnectCrossing(ns: seq<NodeBuilder>, ids: seq<nat>, c: CrossingBuilder, input: map<Direction, nat>,
                         output: map<Direction, nat>)
    returns (ok: bool)
    requires Consistent(ns, ids)
    requires c.connections.input == map[] && c.connections.output == map[]
    modifies c.connections
    ensures ok == (MapIn(input, ids) && MapIn(output, ids) && input.Values !! output.Values)
    ensures ok ==> c.connections.input == TargetMap(ns, ids, input) && c.connections.output == TargetMap(ns, ids, output)
  {
    ok := ConnectInputs(ns, ids, c.connections, input);
    if ok {
      ok := ConnectOutputs(ns, ids, c.connections, input, output);
    }
  }

  /** The incoming entries of a crossing, in the unspecified order of the
    * map: none of them can panic or find its slot taken, since the
    * outgoing map is still empty and every direction comes once. */
  method ConnectInputs(ns: seq<NodeBuilder>, ids: seq<nat>, conns: CrossingConnections<NodeBuilder>,
                       input: map<Direction, nat>)
    returns (ok: bool)
    requires |ids| == |ns|
    requires conns.input == map[] && conns.output == map[]
    modifies conns
    ensures ok == MapIn(input, ids) && conns.output == map[]
    ensures ok ==> conns.input == TargetMap(ns, ids, input)
  {
    var todo := input.Keys;
    while todo != {}
      invariant todo <= input.Keys && MapIn(Visited(input, todo), ids)
      invariant conns.input == TargetMap(ns, ids, Visited(input, todo)) && conns.output == map[]
      decreases todo
    {
      var d :| d in todo;
      var found := FindId(ids, input[d]);
      if found.None? {
        assert !MapIn(input, ids);
        return false;
      }
      var added := conns.Add(d, IN, ns[found.value]);
      assert added == Added;
      VisitOne(ns, ids, input, todo, d);
      todo := todo - {d};
    }
    VisitedAll(input);
    ok := true;
  }

  /** The outgoing entries of a crossing, in the unspecified order of the
    * map: each panics if its node is already attached as an input. */
  method ConnectOutputs(ns: seq<NodeBuilder>, ids: seq<nat>, conns: CrossingConnections<NodeBuilder>,
                        input: map<Direction, nat>, output: map<Direction, nat>)
    returns (ok: bool)
    requires Consistent(ns, ids) && MapIn(input, ids)
    requires conns.input == TargetMap(ns, ids, input) && conns.output == map[]
    modifies conns
    ensures ok == (MapIn(output, ids) && input.Values !! output.Values)
    ensures conns.input == TargetMap(ns, ids, input)
    ensures ok ==> conns.output == TargetMap(ns, ids, output)
  {
    var todo := output.Keys;
    while todo != {}
      invariant todo <= output.Keys && MapIn(Visited(output, todo), ids)
      invariant conns.input == TargetMap(ns, ids, input)
      invariant conns.output == TargetMap(ns, ids, Visited(output, todo))
      invariant forall d :: d in output && d !in todo ==> output[d] !in input.Values
      decreases todo
    {
      var d :| d in todo;
      var found := FindId(ids, output[d]);
      if found.None? {
        assert !MapIn(output, ids);
        return false;
      }
      TargetInValues(ns, ids, input, output[d]);
      var added := conns.Add(d, OUT, ns[found.value]);
      if added == OppositeSidePanic {
        assert output[d] in input.Values && output[d] in output.Values;
        return false;
      }
      assert added == Added;
      VisitOne(ns, ids, output, todo, d);
      todo := todo - {d};
    }
    VisitedAll(output);
    ok := true;
  }

  /** The second loop of `deserialize` for one record. */
  method ConnectRecord(ns: seq<NodeBuilder>, ids: seq<nat>, n: NodeBuilder, rec: JsonNode) returns (ok: bool)
    requires Consistent(ns, ids)
    requires Carries(n, rec) && View(n) == Unconnected(rec)
    modifies ObjectsOf(n)
    ensures ok == RecordLoadable(rec, ids)
    ensures ok ==> View(n) == Resolved(rec, ns, ids)
    ensures Carries(n, rec)
  {
    match rec
      case JsonCrossing(conns, _, _) =>
        ok := ConnectCrossing(ns, ids, n.crossing, conns.input, conns.output);
      case JsonIONode(ci, co, _, _) =>
        ok := ConnectIONode(ns, ids, n.io, ci, co);
      case JsonStreet(ci, co, _, _, _) =>
        ok := ConnectStreet(ns, ids, n.street, ci, co);
  }

  /** Builders carrying their records have the records' ids. */
  lemma IdsOfCarried(ns: seq<NodeBuilder>, recs: seq<JsonNode>)
    requires |ns| == |recs| && forall k :: 0 <= k < |ns| ==> Carries(ns[k], recs[k])
    ensures IdsOf(ns) == JsonIds(recs)
  {
    forall k | 0 <= k < |ns|
      ensures IdsOf(ns)[k] == JsonIds(recs)[k]
    {
      IdsOfAt(ns, k);
    }
  }

  /** The state of one builder during the second loop: its settings, and
    * its connections either still none or already resolved. */
  predicate Reached(n: NodeBuilder, rec: JsonNode, ns: seq<NodeBuilder>, ids: seq<nat>, connected: bool)
    reads ObjectsOf(n)
  {
    Carries(n, rec) &&
    if connected then |ids| == |ns| && RefsIn(rec, ids) && View(n) == Resolved(rec, ns, ids)
    else View(n) == Unconnected(rec)
  }

  /** The second loop of `deserialize`: every record's connections, in order,
    * resolved among the new builders; the first panic ends it. */
  method ConnectRecords(ns: seq<NodeBuilder>, recs: seq<JsonNode>) returns (ok: bool)
    requires |ns| == |recs| && Disjoint(ns)
    requires forall k :: 0 <= k < |ns| ==> Carries(ns[k], recs[k]) && View(ns[k]) == Unconnected(recs[k])
    modifies ObjectsOfAll(ns)
    ensures ok == forall k :: 0 <= k < |recs| ==> RecordLoadable(recs[k], JsonIds(recs))
    ensures forall k :: 0 <= k < |ns| ==> Carries(ns[k], recs[k])
    ensures ok ==> forall k :: 0 <= k < |ns| ==> View(ns[k]) == Resolved(recs[k], ns, JsonIds(recs))
  {
    var ids := JsonIds(recs);
    var i := 0;
    while i < |ns|
      invariant i <= |ns|
      invariant forall k :: 0 <= k < i ==> RecordLoadable(recs[k], ids)
      invariant forall k :: 0 <= k < |ns| ==> Reached(ns[k], recs[k], ns, ids, k < i)
    {
      ok := ConnectAt(ns, recs, ids, i);
      if !ok {
        return;
      }
      i := i + 1;
    }
    ok := true;
  }

  /** One round of the second loop of `deserialize`: the record at `i` is
    * connected, or found not loadable; the other builders are untouched. */
  method ConnectAt(ns: seq<NodeBuilder>, recs: seq<JsonNode>, ids: seq<nat>, i: nat) returns (ok: bool)
    requires |ns| == |recs| && Disjoint(ns) && i < |ns| && ids == JsonIds(recs)
    requires forall k :: 0 <= k < |ns| ==> Reached(ns[k], recs[k], ns, ids, k < i)
    modifies ObjectsOfAll(ns)
    ensures ok == RecordLoadable(recs[i], ids)
    ensures Carries(ns[i], recs[i])
    ensures forall k :: 0 <= k < |ns| && (k != i || ok) ==> Reached(ns[k], recs[k], ns, ids, k <= i)
  {
    IdsOfCarried(ns, recs);
    IdsConsistent(ns);
    InObjectsOfAll(ns, i);
    forall k | 0 <= k < |ns| && k != i
      ensures ObjectsOf(ns[k]) !! ObjectsOf(ns[i])
    {
      DisjointApart(ns, i, k);
    }
    ok := ConnectRecord(ns, ids, ns[i], recs[i]);
    forall k | 0 <= k < |ns| && k != i
      ensures Reached(ns[k], recs[k], ns, ids, k <= i)
    {
      assert unchanged(ObjectsOf(ns[k]));
    }
  }

  /** `deserialize`: unfinished builders for all records, a new simulator
    * builder with the representation's delay, step and counter, then every
    * record reconnected by id. It panics exactly when a record is not
    * loadable; otherwise serialising the result gives back the
    * representation. */
  method Deserialize(j: JsonRepresentation) returns (r: Loaded)
    ensures r.Loaded? <==> Loadable(j)
    ensures r.Loaded? ==> fresh(r.builder) && forall o :: o in r.builder.Repr() ==> fresh(o)
    ensures r.Loaded? ==> r.builder.Owned() && |r.builder.nodes| == |j.nodes|
    ensures r.Loaded? ==> r.builder.nextId == j.nextId && r.builder.delay == j.delay && r.builder.dt == j.dt
    ensures r.Loaded? ==> r.builder.maxIter == None && IdsOf(r.builder.nodes) == JsonIds(j.nodes)
    ensures r.Loaded? ==> Serialisable(r.builder.nodes) && Serialize(r.builder) == j
  {
    var ns := UnfinishedBuilders(j.nodes);
    var b := NewBuilderFor(j);
    b.nodes := ns;
    NotInObjectsOfAll(ns, b);
    var ok := ConnectRecords(ns, j.nodes);
    if !ok {
      return LoadPanic;
    }
    var ids := JsonIds(j.nodes);
    IdsOfCarried(ns, j.nodes);
    IdsConsistent(ns);
    RecordsOfResolved(ns, j.nodes, ns, ids);
    r := Loaded(b);
  }

  /** `SimulatorBuilder::new()` with the representation's delay, step and
    * id counter, and no builders yet. */
  method NewBuilderFor(j: JsonRepresentation) returns (b: SimulatorBuilder)
    ensures fresh(b) && b.nodes == [] && b.maxIter == None
    ensures b.nextId == j.nextId && b.delay == j.delay && b.dt == j.dt
  {
    b := new SimulatorBuilder();
    var _ := b.WithDelay(j.delay);
    var _ := b.WithDt(j.dt);
    b.nextId := j.nextId;
  }
}
