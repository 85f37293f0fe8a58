/**
 * The street network of the early simulator revision
 * (simulator/src/street_data.rs).
 *
 * `from_json` works on the parsed records: it creates one crossing per
 * record, in order, and then, record by record and entry by entry,
 * connects crossing i to the crossing each entry names with the entry's
 * lane count.  An entry naming a crossing that does not exist, or one that
 * crossing i already leads to, ends the construction with an error.
 */
module OldStreetData {
  import opened Wrappers
  import opened OldConnection
  import opened OldCrossing

  /** One parsed record: the crossing's flags and its (target, lanes)
    * entries. */
  datatype JsonCrossing = JsonCrossing(trafficLights: bool, isIoNode: bool, connected: seq<(nat, U8)>)

  datatype JsonError = InvalidIndex | DuplicateConnection

  class StreetData {
    var crossings: seq<Crossing>

    constructor (crossings: seq<Crossing>)
      ensures this.crossings == crossings
    {
      this.crossings := crossings;
    }
  }

  datatype FromJsonResult = Loaded(data: StreetData) | Failed(error: JsonError)

  /** Entry j of a record of a network of n crossings is accepted: its
    * target exists and no earlier entry of the record names it. */
  predicate EntryOk(n: nat, conn: seq<(nat, U8)>, j: nat)
    requires j < |conn|
  {
    conn[j].0 < n && forall k :: 0 <= k < j ==> conn[k].0 != conn[j].0
  }

  predicate RecordOk(n: nat, conn: seq<(nat, U8)>)
  {
    forall j :: 0 <= j < |conn| ==> EntryOk(n, conn, j)
  }

  /** Every target index is a crossing of the network and no record names a
    * target twice. */
  predicate WellFormed(recs: seq<JsonCrossing>)
  {
    forall i :: 0 <= i < |recs| ==> RecordOk(|recs|, recs[i].connected)
  }

  /** The error of the first rejected entry of a record from entry j on. */
  function RecordVerdict(n: nat, conn: seq<(nat, U8)>, j: nat): Option<JsonError>
    requires j <= |conn|
    decreases |conn| - j
  {
    if j == |conn| then None
    else if conn[j].0 >= n then Some(InvalidIndex)
    else if exists k :: 0 <= k < j && conn[k].0 == conn[j].0 then Some(DuplicateConnection)
    else RecordVerdict(n, conn, j + 1)
  }

  /** The error of the first rejected entry from record i on, records and
    * entries in order. */
  function Verdict(recs: seq<JsonCrossing>, i: nat): Option<JsonError>
    requires i <= |recs|
    decreases |recs| - i
  {
    if i == |recs| then None
    else
      match RecordVerdict(|recs|, recs[i].connected, 0)
        case Some(e) => Some(e)
        case None => Verdict(recs, i + 1)
  }

  lemma {:induction false} RecordVerdictNone(n: nat, conn: seq<(nat, U8)>, j: nat)
    requires j <= |conn|
    ensures RecordVerdict(n, conn, j).None? <==> forall j' :: j <= j' < |conn| ==> EntryOk(n, conn, j')
    decreases |conn| - j
  {
    if j < |conn| {
      RecordVerdictNone(n, conn, j + 1);
      assert EntryOk(n, conn, j) <==> !(conn[j].0 >= n) && !(exists k :: 0 <= k < j && conn[k].0 == conn[j].0);
    }
  }

  lemma {:induction false} VerdictNone(recs: seq<JsonCrossing>, i: nat)
    requires i <= |recs|
    ensures Verdict(recs, i).None? <==> forall i' :: i <= i' < |recs| ==> RecordOk(|recs|, recs[i'].connected)
    decreases |recs| - i
  {
    if i < |recs| {
      RecordVerdictNone(|recs|, recs[i].connected, 0);
      VerdictNone(recs, i + 1);
    }
  }

  /** `from_json` accepts exactly the well-formed record lists. */
  lemma VerdictWellFormed(recs: seq<JsonCrossing>)
    ensures Verdict(recs, 0).None? <==> WellFormed(recs)
  {
    VerdictNone(recs, 0);
  }

  /** The connections crossing i holds after its entries `conn` are
    * connected within the crossing list `cs`. */
  function Conns(cs: seq<Crossing>, conn: seq<(nat, U8)>): seq<Connection<Crossing>>
  {
    if |conn| == 0 then []
    else
      var last := conn[|conn| - 1];
      Conns(cs, conn[..|conn| - 1]) + (if last.0 < |cs| then [Connection(cs[last.0], last.1)] else [])
  }

  predicate InRange(conn: seq<(nat, U8)>, n: nat)
  {
    forall k :: 0 <= k < |conn| ==> conn[k].0 < n
  }

  /** With every target in range, entry k becomes connection k, to the
    * crossing the entry names, with the entry's lanes. */
  lemma {:induction false} ConnsAt(cs: seq<Crossing>, conn: seq<(nat, U8)>)
    requires InRange(conn, |cs|)
    ensures |Conns(cs, conn)| == |conn|
    ensures forall k :: 0 <= k < |conn| ==> Conns(cs, conn)[k] == Connection(cs[conn[k].0], conn[k].1)
  {
    if |conn| > 0 {
      var front := conn[..|conn| - 1];
      assert InRange(front, |cs|) by {
        forall k | 0 <= k < |front| ensures front[k].0 < |cs| {
          assert front[k] == conn[k];
        }
      }
      ConnsAt(cs, front);
      forall k | 0 <= k < |front| ensures Conns(cs, conn)[k] == Connection(cs[conn[k].0], conn[k].1) {
        assert front[k] == conn[k];
      }
    }
  }

  /** The crossings are pairwise different objects. */
  predicate Distinct(cs: seq<Crossing>)
  {
    forall a, b :: 0 <= a < b < |cs| ==> cs[a] != cs[b]
  }

  /** Among distinct crossings, a crossing already leads to crossing x
    * exactly when one of its entries so far names x. */
  lemma ConnsReach(cs: seq<Crossing>, conn: seq<(nat, U8)>, x: nat)
    requires Distinct(cs) && InRange(conn, |cs|) && x < |cs|
    ensures (exists k :: 0 <= k < |Conns(cs, conn)| && Conns(cs, conn)[k].crossing == cs[x]) <==>
              exists k :: 0 <= k < |conn| && conn[k].0 == x
  {
    ConnsAt(cs, conn);
    if exists k :: 0 <= k < |Conns(cs, conn)| && Conns(cs, conn)[k].crossing == cs[x] {
      var k :| 0 <= k < |Conns(cs, conn)| && Conns(cs, conn)[k].crossing == cs[x];
      assert cs[conn[k].0] == cs[x];
    }
  }

  /** Crossing c in the state it has for record `rec`: the record's flag,
    * and its connections when the record is done, none before. */
  predicate State(c: Crossing, rec: JsonCrossing, cs: seq<Crossing>, done: bool)
    reads c
  {
    c.isIoNode == rec.isIoNode && c.connections == (if done then Conns(cs, rec.connected) else [])
  }

  /** The records before i are connected, the others not yet. */
  predicate Progress(cs: seq<Crossing>, recs: seq<JsonCrossing>, i: nat)
    reads set k | 0 <= k < |cs| :: cs[k]
  {
    |cs| == |recs| && Distinct(cs) && forall k :: 0 <= k < |cs| ==> State(cs[k], recs[k], cs, k < i)
  }

  /** `from_json` on the parsed records: the first rejected entry, in
    * record and entry order, decides the error; otherwise crossing i has
    * record i's flag and one connection per entry, in order, to the
    * crossing the entry names. */
  method FromJson(recs: seq<JsonCrossing>) returns (r: FromJsonResult)
    ensures r.Failed? <==> Verdict(recs, 0).Some?
    ensures r.Failed? ==> Verdict(recs, 0) == Some(r.error)
    ensures r.Loaded? ==> |r.data.crossings| == |recs| && Distinct(r.data.crossings)
    ensures r.Loaded? ==>
              forall k :: 0 <= k < |recs| ==>
                r.data.crossings[k].isIoNode == recs[k].isIoNode &&
                r.data.crossings[k].connections == Conns(r.data.crossings, recs[k].connected)
  {
    var cs := NewCrossings(recs);
    var i := 0;
    while i < |recs|
      invariant 0 <= i <= |recs|
      invariant Progress(cs, recs, i) && forall k :: 0 <= k < |cs| ==> fresh(cs[k])
      invariant Verdict(recs, 0) == Verdict(recs, i)
    {
      var e := ConnectRecord(cs, recs, i);
      if e.Some? {
        return Failed(e.value);
      }
      i := i + 1;
    }
    var data := new StreetData(cs);
    r := Loaded(data);
    assert forall k :: 0 <= k < |recs| ==> State(cs[k], recs[k], cs, true);
  }

  /** The first loop: one fresh crossing per record, with its flag. */
  method NewCrossings(recs: seq<JsonCrossing>) returns (cs: seq<Crossing>)
    ensures Progress(cs, recs, 0)
    ensures forall k :: 0 <= k < |cs| ==> fresh(cs[k])
  {
    cs := [];
    var i := 0;
    while i < |recs|
      invariant 0 <= i <= |recs| && |cs| == i && Distinct(cs)
      invariant forall k :: 0 <= k < i ==> fresh(cs[k]) && State(cs[k], recs[k], cs, false)
    {
      var c := new Crossing(recs[i].isIoNode);
      cs := cs + [c];
      i := i + 1;
    }
  }

  /** Record i: its entries connected to crossing i, nothing else
    * changed. */
  method ConnectRecord(cs: seq<Crossing>, recs: seq<JsonCrossing>, i: nat) returns (e: Option<JsonError>)
    requires i < |recs| && Progress(cs, recs, i)
    modifies cs[i]
    ensures e == RecordVerdict(|recs|, recs[i].connected, 0)
    ensures e.None? ==> Progress(cs, recs, i + 1)
  {
    var c1 := cs[i];
    assert State(c1, recs[i], cs, false);
    e := ConnectEntries(cs, c1, recs[i].connected);
    if e.None? {
      forall k | 0 <= k < |cs|
        ensures State(cs[k], recs[k], cs, k < i + 1)
      {
        if k != i {
          assert cs[k] != c1 && unchanged(cs[k]);
        }
      }
    }
  }

  /** The loop over the entries of one record. */
  method ConnectEntries(cs: seq<Crossing>, c1: Crossing, conn: seq<(nat, U8)>) returns (e: Option<JsonError>)
    requires Distinct(cs) && c1.connections == []
    modifies c1
    ensures c1.isIoNode == old(c1.isIoNode)
    ensures e == RecordVerdict(|cs|, conn, 0)
    ensures e.None? ==> c1.connections == Conns(cs, conn)
  {
    var j := 0;
    assert conn[..0] == [];
    while j < |conn|
      invariant 0 <= j <= |conn| && InRange(conn[..j], |cs|)
      invariant c1.connections == Conns(cs, conn[..j]) && c1.isIoNode == old(c1.isIoNode)
      invariant RecordVerdict(|cs|, conn, 0) == RecordVerdict(|cs|, conn, j)
    {
      e := ConnectEntry(cs, c1, conn, j);
      if e.Some? {
        return;
      }
      j := j + 1;
    }
    assert conn[..j] == conn;
    e := None;
  }

  /** One entry: the target must exist and must not be connected yet; then
    * c1 is connected to it. */
  method ConnectEntry(cs: seq<Crossing>, c1: Crossing, conn: seq<(nat, U8)>, j: nat) returns (e: Option<JsonError>)
    requires j < |conn| && Distinct(cs) && InRange(conn[..j], |cs|)
    requires c1.connections == Conns(cs, conn[..j])
    modifies c1
    ensures c1.isIoNode == old(c1.isIoNode)
    ensures e.None? ==> RecordVerdict(|cs|, conn, j) == RecordVerdict(|cs|, conn, j + 1)
    ensures e.None? ==> InRange(conn[..j + 1], |cs|) && c1.connections == Conns(cs, conn[..j + 1])
    ensures e.Some? ==> e == RecordVerdict(|cs|, conn, j)
  {
    var idx := conn[j].0;
    if idx >= |cs| {
      return Some(InvalidIndex);
    }
    var c2 := cs[idx];
    var found := c1.GetConnection(c2);
    ConnsReach(cs, conn[..j], idx);
    assert (exists k :: 0 <= k < j && conn[k].0 == idx) <==> exists k :: 0 <= k < j && conn[..j][k].0 == idx;
    if found.Some? {
      return Some(DuplicateConnection);
    }
    c1.Connect(c2, conn[j].1);
    assert conn[..j + 1][..j] == conn[..j];
    e := None;
  }

  /** The records of the `street_data_from_json` test. */
  const TEST_RECORDS := [
    JsonCrossing(false, false, [(1, 1)]),
    JsonCrossing(false, false, [(0, 1), (2, 1), (3, 1), (4, 1)]),
    JsonCrossing(false, false, [(1, 1), (3, 1), (4, 1), (5, 1)]),
    JsonCrossing(false, false, [(2, 1), (1, 1)]),
    JsonCrossing(false, false, [(1, 1), (2, 1)]),
    JsonCrossing(false, true, [(2, 1)])
  ]

  /** The test's network loads: six crossings, the last an IO node, and
    * crossing 1 leads to crossings 0, 2, 3 and 4. */
  method StreetDataFromJsonTest() returns (r: FromJsonResult)
    ensures r.Loaded? && |r.data.crossings| == 6 && r.data.crossings[5].isIoNode
    ensures r.Loaded? ==> |r.data.crossings[1].connections| == 4
  {
    assert WellFormed(TEST_RECORDS) by {
      forall i | 0 <= i < |TEST_RECORDS| ensures RecordOk(6, TEST_RECORDS[i].connected) {
        var conn := TEST_RECORDS[i].connected;
        assert forall j :: 0 <= j < |conn| ==> EntryOk(6, conn, j);
      }
    }
    VerdictWellFormed(TEST_RECORDS);
    r := FromJson(TEST_RECORDS);
    ConnsAt(r.data.crossings, TEST_RECORDS[1].connected);
  }
}
