/**
 * Crossings with lane-count edges and the waypoint search of the Python
 * editor (editor/street_data.py).
 *
 * A `Crossing` keeps a list of `[crossing, lanes]` entries.  Entries are
 * matched by object identity (the class defines no `__eq__`), which the
 * model gets from Dafny's reference equality.
 */
module EditorStreetData {
  import opened Wrappers

  /** The `lanes` argument of `connect_both_ways`/`disconnect`, which the
    * source inspects with `isinstance`. */
  datatype LaneArg = IntArg(n: int) | ListArg(items: seq<LaneArg>) | OtherArg

  /** How a call ends: normally, or with the exception Python raises. */
  datatype Outcome = Done | ValueError | IndexError

  /** One `[crossing, number_of_lanes]` entry. */
  datatype Entry = Entry(other: Crossing, lanes: int)

  /** The index of the first entry for `other`, if there is one. */
  function FirstMatch(entries: seq<Entry>, other: Crossing): (r: Option<nat>)
    ensures r.None? <==> forall k :: 0 <= k < |entries| ==> entries[k].other != other
    ensures r.Some? ==> r.value < |entries| && entries[r.value].other == other
    ensures r.Some? ==> forall k :: 0 <= k < r.value ==> entries[k].other != other
  {
    if entries == [] then None
    else if entries[0].other == other then Some(0)
    else match FirstMatch(entries[1..], other)
      case None => None
      case Some(k) => Some(k + 1)
  }

  /** What `is_connected` returns: the first matching entry's lane count, or 0. */
  function FirstLanes(entries: seq<Entry>, other: Crossing): int
  {
    match FirstMatch(entries, other)
      case None => 0
      case Some(k) => entries[k].lanes
  }

  /** Every entry for `other` gets `f` applied to its lane count; the others stay. */
  function MapMatching(entries: seq<Entry>, other: Crossing, f: int -> int): (r: seq<Entry>)
    ensures |r| == |entries|
    ensures forall k :: 0 <= k < |r| ==>
      r[k] == if entries[k].other == other then Entry(other, f(entries[k].lanes)) else entries[k]
  {
    if entries == [] then []
    else [if entries[0].other == other then Entry(other, f(entries[0].lanes)) else entries[0]]
         + MapMatching(entries[1..], other, f)
  }

  /** Every entry for `other` gains `lanes` lanes; the others stay. */
  function AddLanes(entries: seq<Entry>, other: Crossing, lanes: int): (r: seq<Entry>)
    ensures |r| == |entries|
    ensures forall k :: 0 <= k < |r| ==>
      r[k] == if entries[k].other == other then Entry(other, entries[k].lanes + lanes) else entries[k]
  {
    MapMatching(entries, other, n => n + lanes)
  }

  /** The entry list after `connect(other, lanes)`, as the code is written:
    * a target whose first entry has 0 lanes counts as not connected. */
  function Connected(entries: seq<Entry>, other: Crossing, lanes: int): seq<Entry>
  {
    if FirstLanes(entries, other) == 0 then entries + [Entry(other, lanes)]
    else AddLanes(entries, other, lanes)
  }

  /** The entry list after `disconnect(other, lanes)` with an int `lanes`. */
  function Disconnected(entries: seq<Entry>, other: Crossing, lanes: int): seq<Entry>
  {
    MapMatching(entries, other, n => n - (if lanes < n then lanes else n))
  }

  /** No crossing appears in two entries. */
  predicate NoDuplicateTargets(entries: seq<Entry>)
  {
    forall i, j :: 0 <= i < j < |entries| ==> entries[i].other != entries[j].other
  }

  /** `connect` on a target that is not connected appends exactly one entry. */
  lemma ConnectUnconnected(entries: seq<Entry>, other: Crossing, lanes: int)
    requires FirstLanes(entries, other) == 0
    ensures Connected(entries, other, lanes) == entries + [Entry(other, lanes)]
  {
  }

  /** `connect` on a connected target adds `lanes` to every entry for it and
    * appends nothing. */
  lemma ConnectConnected(entries: seq<Entry>, other: Crossing, lanes: int, k: nat)
    requires FirstLanes(entries, other) != 0 && k < |entries|
    ensures |Connected(entries, other, lanes)| == |entries|
    ensures Connected(entries, other, lanes)[k] ==
      if entries[k].other == other then Entry(other, entries[k].lanes + lanes) else entries[k]
  {
  }

  /** An entry reduced to 0 lanes no longer counts as a connection, so a
    * later `connect` adds a second entry for the same target. */
  lemma ZeroLaneEntryIsDuplicated(c: Crossing, lanes: int)
    ensures Connected([Entry(c, 0)], c, lanes) == [Entry(c, 0), Entry(c, lanes)]
    ensures !NoDuplicateTargets(Connected([Entry(c, 0)], c, lanes))
  {
    assert FirstMatch([Entry(c, 0)], c) == Some(0);
    var r := Connected([Entry(c, 0)], c, lanes);
    assert r[0].other == r[1].other;
  }

  /** `connect` with the check the docstring describes ("if exists, adds
    * lanes"): the target is looked up by presence, not by lane count. */
  function ConnectedIntended(entries: seq<Entry>, other: Crossing, lanes: int): seq<Entry>
  {
    if FirstMatch(entries, other).None? then entries + [Entry(other, lanes)]
    else AddLanes(entries, other, lanes)
  }

  /** The intended `connect` keeps at most one entry per target, also after
    * a `disconnect` brought the lane count down to 0. */
  lemma ConnectedIntendedNoDuplicates(entries: seq<Entry>, other: Crossing, lanes: int, dl: int)
    requires NoDuplicateTargets(entries)
    ensures NoDuplicateTargets(ConnectedIntended(entries, other, lanes))
    ensures NoDuplicateTargets(ConnectedIntended(Disconnected(entries, other, dl), other, lanes))
  {
    var d := Disconnected(entries, other, dl);
    assert NoDuplicateTargets(d) by {
      forall i, j | 0 <= i < j < |d| ensures d[i].other != d[j].other {
        assert d[i].other == entries[i].other && d[j].other == entries[j].other;
      }
    }
    ConnectedIntendedStep(entries, other, lanes);
    ConnectedIntendedStep(d, other, lanes);
  }

  lemma ConnectedIntendedStep(entries: seq<Entry>, other: Crossing, lanes: int)
    requires NoDuplicateTargets(entries)
    ensures NoDuplicateTargets(ConnectedIntended(entries, other, lanes))
  {
    var r := ConnectedIntended(entries, other, lanes);
    if FirstMatch(entries, other).Some? {
      forall i, j | 0 <= i < j < |r| ensures r[i].other != r[j].other {
        assert r[i].other == entries[i].other && r[j].other == entries[j].other;
      }
    }
  }

  /** `disconnect` never leaves a negative lane count, keeps every entry
    * (also at 0 lanes) and removes at most `lanes` from a matching entry. */
  lemma DisconnectedLanes(entries: seq<Entry>, other: Crossing, lanes: int, k: nat)
    requires k < |entries| && entries[k].other == other
    ensures |Disconnected(entries, other, lanes)| == |entries|
    ensures Disconnected(entries, other, lanes)[k].other == other
    ensures Disconnected(entries, other, lanes)[k].lanes >= 0
    ensures lanes >= 0 && entries[k].lanes >= 0 ==>
      Disconnected(entries, other, lanes)[k].lanes == if lanes < entries[k].lanes then entries[k].lanes - lanes else 0
  {
  }

  class Crossing {
    var position: seq<int>
    var connected: seq<Entry>
    var trafficLights: bool

    /** `Crossing(position, connected, traffic_lights)`. */
    constructor (position: seq<int>, connected: seq<Entry>, trafficLights: bool)
      ensures this.position == position && this.connected == connected
      ensures this.trafficLights == trafficLights
    {
      this.position := position;
      this.connected := connected;
      this.trafficLights := trafficLights;
    }

    /** `is_connected(other)`: the lane count of the first entry for `other`,
      * or 0 when there is none. */
    method IsConnected(other: Crossing) returns (n: int)
      ensures (forall k :: 0 <= k < |connected| ==> connected[k].other != other) ==> n == 0
      ensures forall i :: (0 <= i < |connected| && connected[i].other == other &&
                           forall k :: 0 <= k < i ==> connected[k].other != other) ==> n == connected[i].lanes
      ensures n == FirstLanes(connected, other)
    {
      var i := 0;
      while i < |connected|
        invariant 0 <= i <= |connected|
        invariant forall k :: 0 <= k < i ==> connected[k].other != other
      {
        if connected[i].other == other {
          return connected[i].lanes;
        }
        i := i + 1;
      }
      return 0;
    }

    /** `connect(other, lanes)`: one-way; appends `[other, lanes]` if
      * `is_connected` is 0, otherwise adds `lanes` to every entry for `other`. */
    method Connect(other: Crossing, lanes: int)
      modifies this
      ensures connected == Connected(old(connected), other, lanes)
      ensures position == old(position) && trafficLights == old(trafficLights)
    {
      var n := IsConnected(other);
      if n == 0 {
        connected := connected + [Entry(other, lanes)];
      } else {
        var i := 0;
        while i < |connected|
          invariant 0 <= i <= |connected| == |old(connected)|
          invariant position == old(position) && trafficLights == old(trafficLights)
          invariant forall k :: 0 <= k < i ==>
            connected[k] == AddLanes(old(connected), other, lanes)[k]
          invariant forall k :: i <= k < |connected| ==> connected[k] == old(connected)[k]
        {
          if connected[i].other == other {
            connected := connected[i := Entry(connected[i].other, connected[i].lanes + lanes)];
          }
          i := i + 1;
        }
      }
    }

    /** `connect_both_ways(other, lanes)`: with an int, appends `[other, n]`
      * here and `[self, n]` at `other`, never merging; with a list, its first
      * two elements are the lane counts of the two directions; anything else,
      * or a non-int element, raises ValueError.  An element missing from a
      * too short list raises IndexError. */
    method ConnectBothWays(other: Crossing, lanes: LaneArg) returns (r: Outcome)
      modifies this, other
      ensures r == BothWaysOutcome(lanes)
      ensures r != Done ==> connected == old(connected) && other.connected == old(other.connected)
      ensures r == Done && other != this ==>
        connected == old(connected) + [Entry(other, ForwardLanes(lanes))] &&
        other.connected == old(other.connected) + [Entry(this, BackwardLanes(lanes))]
      ensures r == Done && other == this ==>
        connected == old(connected) + [Entry(other, ForwardLanes(lanes)), Entry(this, BackwardLanes(lanes))]
      ensures position == old(position) && other.position == old(other.position)
      ensures trafficLights == old(trafficLights) && other.trafficLights == old(other.trafficLights)
    {
      match lanes {
        case ListArg(items) =>
          if |items| == 0 {
            return IndexError;
          }
          if !items[0].IntArg? {
            return ValueError;
          }
          if |items| == 1 {
            return IndexError;
          }
          if !items[1].IntArg? {
            return ValueError;
          }
          connected := connected + [Entry(other, items[0].n)];
          other.connected := other.connected + [Entry(this, items[1].n)];
          return Done;
        case IntArg(n) =>
          connected := connected + [Entry(other, n)];
          other.connected := other.connected + [Entry(this, n)];
          return Done;
        case OtherArg =>
          return ValueError;
      }
    }

    /** `disconnect(other, lanes)`: one-way; every entry for `other` loses
      * `min(lanes, n)` lanes and stays in the list; a non-int `lanes`
      * raises ValueError. */
    method Disconnect(other: Crossing, lanes: LaneArg) returns (r: Outcome)
      modifies this
      ensures r == (if lanes.IntArg? then Done else ValueError)
      ensures connected == if lanes.IntArg? then Disconnected(old(connected), other, lanes.n) else old(connected)
      ensures position == old(position) && trafficLights == old(trafficLights)
    {
      if !lanes.IntArg? {
        return ValueError;
      }
      var l := lanes.n;
      var i := 0;
      while i < |connected|
        invariant 0 <= i <= |connected| == |old(connected)|
        invariant position == old(position) && trafficLights == old(trafficLights)
        invariant forall k :: 0 <= k < i ==> connected[k] == Disconnected(old(connected), other, l)[k]
        invariant forall k :: i <= k < |connected| ==> connected[k] == old(connected)[k]
      {
        if connected[i].other == other {
          var n := connected[i].lanes;
          connected := connected[i := Entry(connected[i].other, n - (if l < n then l else n))];
        }
        i := i + 1;
      }
      return Done;
    }
  }

  /** How `connect_both_ways` ends for a given `lanes` argument. */
  function BothWaysOutcome(lanes: LaneArg): Outcome
  {
    match lanes
      case IntArg(_) => Done
      case OtherArg => ValueError
      case ListArg(items) =>
        if |items| == 0 then IndexError
        else if !items[0].IntArg? then ValueError
        else if |items| == 1 then IndexError
        else if !items[1].IntArg? then ValueError
        else Done
  }

  /** Lane count of the self→other direction of a valid `lanes` argument. */
  function ForwardLanes(lanes: LaneArg): int
    requires BothWaysOutcome(lanes) == Done
  {
    if lanes.IntArg? then lanes.n else lanes.items[0].n
  }

  /** Lane count of the other→self direction of a valid `lanes` argument. */
  function BackwardLanes(lanes: LaneArg): int
    requires BothWaysOutcome(lanes) == Done
  {
    if lanes.IntArg? then lanes.n else lanes.items[1].n
  }

  /** The outcomes `get_nearest` can reach as written: `(None, None)`, or the
    * IndexError of an odd coordinate list.  Its final `return` of a distance
    * and a street is unreachable, so it has no variant. */
  datatype Nearest = NoneNone | RaisedIndexError

  /** The smallest squared distance from (x, y) to a waypoint of any street,
    * with the first street that has it: what `get_nearest` evidently
    * computes, without its square root. */
  function NearestWaypoint(streets: seq<seq<int>>, x: int, y: int): (r: Option<(int, nat)>)
    requires forall s :: 0 <= s < |streets| ==> |streets[s]| % 2 == 0
    ensures r.None? <==> forall s :: 0 <= s < |streets| ==> streets[s] == []
    ensures r.Some? ==> r.value.1 < |streets| && WaypointAt(streets[r.value.1], x, y, r.value.0)
    ensures r.Some? ==> forall s, i :: 0 <= s < |streets| && 0 <= i < |streets[s]| / 2 ==>
              r.value.0 <= DistSqr(streets[s], i, x, y)
    decreases |streets|
  {
    if streets == [] then None
    else
      var rest := NearestWaypoint(streets[1..], x, y);
      var here := MinDist(streets[0], x, y);
      if here.None? then
        (match rest case None => None case Some(p) => Some((p.0, p.1 + 1)))
      else if rest.None? || here.value <= rest.value.0 then Some((here.value, 0))
      else Some((rest.value.0, rest.value.1 + 1))
  }

  /** The street NearestWaypoint names is the first one holding the
    * nearest waypoint: every street before it is strictly farther. */
  lemma {:induction false} NearestWaypointFirst(streets: seq<seq<int>>, x: int, y: int)
    requires forall s :: 0 <= s < |streets| ==> |streets[s]| % 2 == 0
    ensures var r := NearestWaypoint(streets, x, y);
      r.Some? ==> forall s, i :: 0 <= s < r.value.1 && 0 <= i < |streets[s]| / 2 ==>
        r.value.0 < DistSqr(streets[s], i, x, y)
    decreases |streets|
  {
    if streets != [] {
      var tail := streets[1..];
      NearestWaypointFirst(tail, x, y);
      var r, rest := NearestWaypoint(streets, x, y), NearestWaypoint(tail, x, y);
      if r.Some? && r.value.1 > 0 {
        assert rest.Some? && r.value == (rest.value.0, rest.value.1 + 1);
        forall s, i | 0 <= s < r.value.1 && 0 <= i < |streets[s]| / 2
          ensures r.value.0 < DistSqr(streets[s], i, x, y)
        {
          if s > 0 {
            assert streets[s] == tail[s - 1];
          }
        }
      }
    }
  }

  /** The squared distance from (x, y) to waypoint `i` of a flat point list. */
  function DistSqr(points: seq<int>, i: nat, x: int, y: int): int
    requires 2 * i + 1 < |points|
  {
    (points[2 * i] - x) * (points[2 * i] - x) + (points[2 * i + 1] - y) * (points[2 * i + 1] - y)
  }

  /** Some waypoint of `points` is at squared distance `d`. */
  predicate WaypointAt(points: seq<int>, x: int, y: int, d: int)
    requires |points| % 2 == 0
  {
    exists i :: 0 <= i < |points| / 2 && DistSqr(points, i, x, y) == d
  }

  /** The smallest squared distance to a waypoint of one street. */
  function MinDist(points: seq<int>, x: int, y: int): (r: Option<int>)
    requires |points| % 2 == 0
    ensures r.None? <==> points == []
    ensures r.Some? ==> WaypointAt(points, x, y, r.value)
    ensures r.Some? ==> forall i :: 0 <= i < |points| / 2 ==> r.value <= DistSqr(points, i, x, y)
  {
    MinDistFrom(points, 0, x, y)
  }

  /** The smallest squared distance to waypoints `k`, `k + 1`, ... of one street. */
  function MinDistFrom(points: seq<int>, k: nat, x: int, y: int): (r: Option<int>)
    requires |points| % 2 == 0 && k <= |points| / 2
    ensures r.None? <==> k == |points| / 2
    ensures r.Some? ==> exists i :: k <= i < |points| / 2 && DistSqr(points, i, x, y) == r.value
    ensures r.Some? ==> forall i :: k <= i < |points| / 2 ==> r.value <= DistSqr(points, i, x, y)
    decreases |points| / 2 - k
  {
    if k == |points| / 2 then None
    else
      var d := DistSqr(points, k, x, y);
      var rest := MinDistFrom(points, k + 1, x, y);
      if rest.None? || d <= rest.value then Some(d) else rest
  }

  class StreetData {
    /** Each street's waypoints as a flat `[x0, y0, x1, y1, ...]` list. */
    var streets: seq<seq<int>>

    constructor ()
      ensures streets == []
    {
      streets := [];
    }

    /** `get_nearest(x, y)` as written: whichever streets there are, it
      * answers `(None, None)` (the inner loop's `else` returns after the
      * first street, the outer loop's `else` when there is none), unless the
      * first street has an odd number of coordinates, where reading the
      * missing `y` raises IndexError.  The final `return` is never reached. */
    method GetNearest(x: int, y: int) returns (r: Nearest)
      ensures r == if |streets| > 0 && |streets[0]| % 2 == 1 then RaisedIndexError else NoneNone
    {
      var nearest: Option<nat> := None;
      var minDistSqr: Option<int> := None;
      // The body of the loop over the streets ends in `return` on its first
      // pass, so the loop runs at most once.
      if |streets| > 0 {
        var s := 0;
        var points := streets[s];
        var i := 0;
        while i < |points|
          invariant 0 <= i <= |points| && i % 2 == 0
        {
          if i + 1 >= |points| {
            return RaisedIndexError;
          }
          var d := (points[i] - x) * (points[i] - x) + (points[i + 1] - y) * (points[i + 1] - y);
          if minDistSqr.None? || d < minDistSqr.value {
            nearest := Some(s);
            minDistSqr := Some(d);
          }
          i := i + 2;
        }
        return NoneNone;
      }
      return NoneNone;
    }
  }

  /** The waypoint search gives up for a street list where the nearest
    * waypoint exists: one street with the waypoint (0, 0), searched from there. */
  lemma NearestExistsForOneWaypoint()
    ensures NearestWaypoint([[0, 0]], 0, 0) == Some((0, 0))
  {
    assert MinDist([0, 0], 0, 0) == Some(0) by {
      assert [0, 0][2..] == [];
    }
    assert [[0, 0]][1..] == [];
  }
}
