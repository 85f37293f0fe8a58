/**
 * The runtime nodes of the simulator (simulator/src/node.rs): the crossing
 * with its traffic-light table, its neural-network inputs and its network
 * slot; the IONode that spawns, absorbs and records cars; and the street
 * whose lanes are addressed by one flat car index.
 *
 * Nodes refer to each other by node id; ids are the positions in the
 * simulator's node list and are unique there.
 */
module SimNode {
  import opened Wrappers
  import opened SimNodeBuilder
  import opened ArtInt

  /** A car as far as the nodes see it: its id and the node ids still to be
    * visited, the next one last. */
  datatype Car = Car(id: nat, path: seq<nat>)

  /** What a node reports about one of its cars. */
  datatype MovableStatus = MovableStatus(position: real, laneIndex: nat, movableId: nat, delete: bool)

  /** A car on a lane, with the distance it has travelled on that lane. */
  datatype LaneSlot = LaneSlot(car: Car, position: real)

  // ---------------------------------------------------------------------
  // The traffic-light table
  // ---------------------------------------------------------------------

  datatype TrafficLightState = S0 | S1 | S2 | S3

  /** The passages each phase allows, as (input side, output side) pairs. */
  function PassageSet(state: TrafficLightState): set<(Direction, Direction)>
  {
    match state
      case S0 => {(N, S), (N, W), (S, N), (S, E)}
      case S1 => {(W, S), (W, E), (E, W), (E, N)}
      case S2 => {(N, E), (S, W)}
      case S3 => {(W, N), (E, S)}
  }

  /** The nested decision of `can_out_node_be_reached` once both sides are
    * known: it agrees with the passage table, never allows a U-turn, and
    * lets cars in from only the two sides its phase serves. */
  function CanPass(state: TrafficLightState, from: Direction, to: Direction): (r: bool)
    ensures r <==> (from, to) in PassageSet(state)
    ensures r ==> from != to
    ensures r && (state == S0 || state == S2) ==> from == N || from == S
    ensures r && (state == S1 || state == S3) ==> from == W || from == E
  {
    match state
      case S0 =>
        if from == N then to == S || to == W
        else if from == S then to == N || to == E
        else false
      case S1 =>
        if from == W then to == S || to == E
        else if from == E then to == W || to == N
        else false
      case S2 =>
        if from == N then to == E
        else if from == S then to == W
        else false
      case S3 =>
        if from == W then to == N
        else if from == E then to == S
        else false
  }

  /** `can_out_node_be_reached` on the two connection maps: None where the
    * source panics because a node is not connected on that side, otherwise
    * the table entry at the sides the two nodes occupy. */
  function Reach(input: map<Direction, nat>, output: map<Direction, nat>, state: TrafficLightState,
                 inNode: nat, outNode: nat): (r: Option<bool>)
    ensures r.None? <==> inNode !in input.Values || outNode !in output.Values
    ensures r.Some? ==> exists di, dout :: di in input && input[di] == inNode &&
                                          dout in output && output[dout] == outNode &&
                                          (r.value <==> (di, dout) in PassageSet(state))
  {
    match FindDirection(input, inNode)
      case None => None
      case Some(di) =>
        match FindDirection(output, outNode)
          case None => None
          case Some(dout) => Some(CanPass(state, di, dout))
  }

  /** When each node occupies one side only, the answer is exactly the table
    * entry at those sides. */
  lemma ReachUnique(input: map<Direction, nat>, output: map<Direction, nat>, state: TrafficLightState,
                    di: Direction, dout: Direction)
    requires di in input && dout in output
    requires forall d :: d in input && input[d] == input[di] ==> d == di
    requires forall d :: d in output && output[d] == output[dout] ==> d == dout
    ensures Reach(input, output, state, input[di], output[dout]) == Some((di, dout) in PassageSet(state))
  {
    FindDirectionUnique(input, di);
    FindDirectionUnique(output, dout);
  }

  lemma FindDirectionUnique(m: map<Direction, nat>, d: Direction)
    requires d in m
    requires forall e :: e in m && m[e] == m[d] ==> e == d
    ensures FindDirection(m, m[d]) == Some(d)
  {
    assert m[d] in m.Values;
  }

  // ---------------------------------------------------------------------
  // The crossing
  // ---------------------------------------------------------------------

  /** Input block `k` (N, E, S, W) of the network inputs has its entry `o`
    * set: a street enters from side k, the car at its end heads for a node,
    * and that node is the crossing's output on side o (the first such side
    * in N, E, S, W order where several outputs lead to it). */
  predicate NnInputSet(input: map<Direction, nat>, output: map<Direction, nat>,
                       targetAtEnd: nat -> Option<nat>, k: nat, o: nat)
  {
    k < 4 && o < 4 && DIRECTIONS[k] in input &&
    match targetAtEnd(input[DIRECTIONS[k]])
      case None => false
      case Some(t) => FindDirection(output, t) == Some(DIRECTIONS[o])
  }

  /** Input side `k` leads a car to a node that is no output of the crossing:
    * the output lookup of `calculate_nn_inputs` panics. */
  predicate TargetMissing(input: map<Direction, nat>, output: map<Direction, nat>,
                          targetAtEnd: nat -> Option<nat>, k: nat)
  {
    k < 4 && DIRECTIONS[k] in input &&
    match targetAtEnd(input[DIRECTIONS[k]])
      case None => false
      case Some(t) => t !in output.Values
  }

  /** Each input block has at most one entry set, and an entry is set only
    * towards a side whose output is the car's target. */
  lemma NnInputsOnePerBlock(input: map<Direction, nat>, output: map<Direction, nat>,
                            targetAtEnd: nat -> Option<nat>, k: nat, o1: nat, o2: nat)
    requires NnInputSet(input, output, targetAtEnd, k, o1) && NnInputSet(input, output, targetAtEnd, k, o2)
    ensures o1 == o2
    ensures DIRECTIONS[o1] in output && Some(output[DIRECTIONS[o1]]) == targetAtEnd(input[DIRECTIONS[k]])
  {
  }

  /** A side without an input street contributes four zeros. */
  lemma NnInputsUnconnected(input: map<Direction, nat>, output: map<Direction, nat>,
                            targetAtEnd: nat -> Option<nat>, k: nat, o: nat)
    requires k < 4 && DIRECTIONS[k] !in input
    ensures !NnInputSet(input, output, targetAtEnd, k, o)
    ensures !TargetMissing(input, output, targetAtEnd, k)
  {
  }

  /** A connected side whose end car heads for an output sets exactly one
    * entry of its block. */
  lemma NnInputsConnected(input: map<Direction, nat>, output: map<Direction, nat>,
                          targetAtEnd: nat -> Option<nat>, k: nat)
    requires k < 4 && DIRECTIONS[k] in input
    requires targetAtEnd(input[DIRECTIONS[k]]).Some? && !TargetMissing(input, output, targetAtEnd, k)
    ensures exists o :: o < 4 && NnInputSet(input, output, targetAtEnd, k, o)
  {
    var t := targetAtEnd(input[DIRECTIONS[k]]).value;
    var d := FindDirection(output, t).value;
    var o := if d == N then 0 else if d == E then 1 else if d == S then 2 else 3;
    assert NnInputSet(input, output, targetAtEnd, k, o);
  }

  class Crossing {
    var input: map<Direction, nat>
    var output: map<Direction, nat>
    var id: nat
    var trafficLightState: TrafficLightState
    var nn: Option<Network>
    var carLane: seq<LaneSlot>

    /** `Crossing::new`: no connections, no cars, id 0, phase S0, no
      * network. */
    constructor ()
      ensures input == map[] && output == map[] && id == 0
      ensures trafficLightState == S0 && nn == None && carLane == []
    {
      input := map[];
      output := map[];
      id := 0;
      trafficLightState := S0;
      nn := None;
      carLane := [];
    }

    /** `get_car_status`: the statuses of the cars on the crossing's lane,
      * all on lane 0. */
    function CarStatus(): (r: seq<MovableStatus>)
      reads this
      ensures |r| == |carLane|
      ensures forall k :: 0 <= k < |r| ==> r[k].movableId == carLane[k].car.id && r[k].laneIndex == 0
    {
      LaneStatuses(carLane, 0)
    }

    /** `can_out_node_be_reached` for this crossing's connections and phase. */
    function CanOutNodeBeReached(inNode: nat, outNode: nat): (r: Option<bool>)
      reads this
    {
      Reach(input, output, trafficLightState, inNode, outNode)
    }

    /** `calculate_nn_inputs`: sixteen values, four per input side in N, E,
      * S, W order; entry 4k+o is 1 exactly when the car at the end of the
      * street entering from side k heads for the output on side o. None
      * where the source panics because that target is no output.
      * `targetAtEnd` gives, for an input street's id, the node the car at
      * its end wants to reach next. */
    method CalculateNnInputs(targetAtEnd: nat -> Option<nat>) returns (r: Option<seq<real>>)
      ensures r.None? <==> exists k :: 0 <= k < 4 && TargetMissing(input, output, targetAtEnd, k)
      ensures r.Some? ==> |r.value| == 16
      ensures r.Some? ==> forall i :: 0 <= i < 16 ==>
        r.value[i] == if NnInputSet(input, output, targetAtEnd, i / 4, i % 4) then 1.0 else 0.0
    {
      var carsAtEnd := new real[16](_ => 0.0);
      var k := 0;
      while k < 4
        invariant 0 <= k <= 4
        invariant forall k' :: 0 <= k' < k ==> !TargetMissing(input, output, targetAtEnd, k')
        invariant forall b, o :: 0 <= b < k && 0 <= o < 4 ==>
          carsAtEnd[4 * b + o] == if NnInputSet(input, output, targetAtEnd, b, o) then 1.0 else 0.0
        invariant forall i :: 4 * k <= i < 16 ==> carsAtEnd[i] == 0.0
      {
        var dir := DIRECTIONS[k];
        if dir in input {
          var target := targetAtEnd(input[dir]);
          if target.Some? {
            var dirOut := FindDirection(output, target.value);
            if dirOut.None? {
              assert TargetMissing(input, output, targetAtEnd, k);
              return None;
            }
            var offset := match dirOut.value case N => 0 case E => 1 case S => 2 case W => 3;
            assert DIRECTIONS[offset] == dirOut.value;
            assert forall o :: 0 <= o < 4 ==> (NnInputSet(input, output, targetAtEnd, k, o) <==> o == offset);
            carsAtEnd[4 * k + offset] := 1.0;
          }
        }
        k := k + 1;
      }
      forall i | 0 <= i < 16
        ensures carsAtEnd[i] == if NnInputSet(input, output, targetAtEnd, i / 4, i % 4) then 1.0 else 0.0
      {
        assert i == 4 * (i / 4) + i % 4;
      }
      r := Some(carsAtEnd[..]);
    }

    /** `set_neural_network`: accepted (ok) exactly when the first neuron of
      * the first layer reads sixteen inputs; the source asserts this and
      * panics otherwise, leaving the slot as it was. */
    method SetNeuralNetwork(net: Network) returns (ok: bool)
      modifies this
      ensures ok <==> AcceptsNnInputs(net)
      ensures nn == if ok then Some(net) else old(nn)
      ensures input == old(input) && output == old(output) && id == old(id)
      ensures trafficLightState == old(trafficLightState) && carLane == old(carLane)
    {
      ok := AcceptsNnInputs(net);
      if ok {
        nn := Some(net);
      }
    }

    /** `remove_neural_network`: hands out the network it held (None for the
      * source's error when there was none) and is left without one. */
    method RemoveNeuralNetwork() returns (r: Option<Network>)
      modifies this
      ensures r == old(nn) && nn == None
      ensures input == old(input) && output == old(output) && id == old(id)
      ensures trafficLightState == old(trafficLightState) && carLane == old(carLane)
    {
      r := nn;
      nn := None;
    }
  }

  /** The network reads the sixteen crossing inputs: its first layer's first
    * neuron has sixteen weights. */
  predicate AcceptsNnInputs(net: Network)
  {
    |net.layers| > 0 && |net.layers[0].neurons| > 0 && |net.layers[0].neurons[0].weights| == 16
  }

  // ---------------------------------------------------------------------
  // The IONode
  // ---------------------------------------------------------------------

  /** The status an IONode reports for a car it absorbed: at position 0 on
    * lane 0, to be deleted from the display. */
  function AbsorbedStatus(car: Car): (s: MovableStatus)
    ensures s.movableId == car.id && s.delete
  {
    MovableStatus(0.0, 0, car.id, true)
  }

  /** One delete status per absorbed car, in the order of the cars. */
  function AbsorbedStatuses(cars: seq<Car>): (r: seq<MovableStatus>)
    ensures |r| == |cars| && forall k :: 0 <= k < |cars| ==> r[k] == AbsorbedStatus(cars[k])
  {
    seq(|cars|, k requires 0 <= k < |cars| => AbsorbedStatus(cars[k]))
  }

  class IONode {
    var connections: seq<nat>
    var absorbedCars: nat
    var record: bool
    var recordedCars: seq<Car>
    var cached: map<nat, Car>
    var numCarsSpawned: nat
    var id: nat

    /** Every cached car sits under a key below the spawn counter, so the
      * next spawned car never overwrites one. */
    predicate Valid()
      reads this
    {
      forall k :: k in cached ==> k < numCarsSpawned
    }

    /** `IONode::new`: unconnected, nothing absorbed, cached or recorded,
      * recording off. */
    constructor ()
      ensures Valid()
      ensures connections == [] && absorbedCars == 0 && !record && recordedCars == []
      ensures cached == map[] && numCarsSpawned == 0 && id == 0
    {
      connections := [];
      absorbedCars := 0;
      record := false;
      recordedCars := [];
      cached := map[];
      numCarsSpawned := 0;
      id := 0;
    }

    /** `connect`: appends the node to the connections. */
    method Connect(n: nat)
      modifies this
      ensures connections == old(connections) + [n]
      ensures absorbedCars == old(absorbedCars) && record == old(record) && recordedCars == old(recordedCars)
      ensures cached == old(cached) && numCarsSpawned == old(numCarsSpawned) && id == old(id)
    {
      connections := connections + [n];
    }

    /** `add_car`: one more absorbed car; the car is kept iff recording. */
    method AddCar(car: Car)
      modifies this
      ensures absorbedCars == old(absorbedCars) + 1
      ensures recordedCars == if record then old(recordedCars) + [car] else old(recordedCars)
      ensures connections == old(connections) && record == old(record)
      ensures cached == old(cached) && numCarsSpawned == old(numCarsSpawned) && id == old(id)
    {
      absorbedCars := absorbedCars + 1;
      if record {
        recordedCars := recordedCars + [car];
      }
    }

    /** `set_car_recording`. */
    method SetCarRecording(on: bool)
      modifies this
      ensures record == on
      ensures connections == old(connections) && absorbedCars == old(absorbedCars)
      ensures recordedCars == old(recordedCars)
      ensures cached == old(cached) && numCarsSpawned == old(numCarsSpawned) && id == old(id)
    {
      record := on;
    }

    /** `get_car_status`: drains the recorded cars, one delete status per
      * car in recording order. */
    method GetCarStatus() returns (r: seq<MovableStatus>)
      modifies this
      ensures r == AbsorbedStatuses(old(recordedCars))
      ensures recordedCars == []
      ensures connections == old(connections) && absorbedCars == old(absorbedCars) && record == old(record)
      ensures cached == old(cached) && numCarsSpawned == old(numCarsSpawned) && id == old(id)
    {
      r := AbsorbedStatuses(recordedCars);
      recordedCars := [];
    }

    /** `update_cars`: when the spawn draw succeeds and the movable server
      * delivers a car, it is cached under the spawn counter, whose value is
      * returned as the new car's index, and the counter advances; otherwise
      * nothing changes. `spawn` is the random draw, `generated` the server's
      * answer (None for its error). */
    method UpdateCars(spawn: bool, generated: Option<Car>) returns (r: seq<nat>)
      requires Valid()
      modifies this
      ensures Valid()
      ensures spawn && generated.Some? ==>
        r == [old(numCarsSpawned)] && old(numCarsSpawned) !in old(cached) &&
        cached == old(cached)[old(numCarsSpawned) := generated.value] &&
        numCarsSpawned == old(numCarsSpawned) + 1
      ensures !(spawn && generated.Some?) ==>
        r == [] && cached == old(cached) && numCarsSpawned == old(numCarsSpawned)
      ensures connections == old(connections) && absorbedCars == old(absorbedCars)
      ensures record == old(record) && recordedCars == old(recordedCars) && id == old(id)
    {
      r := [];
      if spawn {
        match generated {
          case Some(car) =>
            cached := cached[numCarsSpawned := car];
            r := [numCarsSpawned];
            numCarsSpawned := numCarsSpawned + 1;
          case None =>
        }
      }
    }

    /** `remove_car` on an IONode: takes the cached car at index `i` out of
      * the cache; None where the source's unwrap panics on a missing key. */
    method RemoveCar(i: nat) returns (r: Option<Car>)
      modifies this
      ensures r.None? <==> i !in old(cached)
      ensures r.Some? ==> r.value == old(cached)[i]
      ensures cached == old(cached) - {i}
      ensures old(Valid()) ==> Valid()
      ensures connections == old(connections) && absorbedCars == old(absorbedCars) && record == old(record)
      ensures recordedCars == old(recordedCars) && numCarsSpawned == old(numCarsSpawned) && id == old(id)
    {
      if i in cached {
        r := Some(cached[i]);
        cached := cached - {i};
      } else {
        r := None;
      }
    }
  }

  // ---------------------------------------------------------------------
  // The street and its flat car index
  // ---------------------------------------------------------------------

  /** The number of cars on each lane. */
  function Counts(lanes: seq<seq<LaneSlot>>): (c: seq<nat>)
    ensures |c| == |lanes| && forall l :: 0 <= l < |lanes| ==> c[l] == |lanes[l]|
  {
    seq(|lanes|, l requires 0 <= l < |lanes| => |lanes[l]|)
  }

  /** The number of cars on the lanes before lane `l`. */
  function Prefix(counts: seq<nat>, l: nat): nat
    requires l <= |counts|
  {
    if l == 0 then 0 else Prefix(counts, l - 1) + counts[l - 1]
  }

  function Total(counts: seq<nat>): nat
  {
    Prefix(counts, |counts|)
  }

  lemma {:induction false} PrefixMonotone(counts: seq<nat>, l1: nat, l2: nat)
    requires l1 <= l2 <= |counts|
    ensures Prefix(counts, l1) <= Prefix(counts, l2)
    ensures l1 < l2 ==> Prefix(counts, l1) + counts[l1] <= Prefix(counts, l2)
  {
    if l1 < l2 {
      PrefixMonotone(counts, l1, l2 - 1);
    }
  }

  /** The lane and the position on it of flat index `index`, counting the
    * cars lane by lane from lane `from` on; None past the last car. */
  function LocateFrom(counts: seq<nat>, from: nat, index: nat): Option<(nat, nat)>
    requires from <= |counts|
    decreases |counts| - from
  {
    if from == |counts| then None
    else if index < counts[from] then Some((from, index))
    else LocateFrom(counts, from + 1, index - counts[from])
  }

  /** The lane walk of `remove_car`: subtract each lane's count until the
    * index falls inside a lane. */
  function Locate(counts: seq<nat>, index: nat): Option<(nat, nat)>
  {
    LocateFrom(counts, 0, index)
  }

  lemma {:induction false} LocateFromSpec(counts: seq<nat>, from: nat, index: nat, l: nat, j: nat)
    requires from <= |counts|
    ensures LocateFrom(counts, from, index) == Some((l, j)) <==>
            from <= l < |counts| && j < counts[l] && Prefix(counts, from) + index == Prefix(counts, l) + j
    ensures LocateFrom(counts, from, index).None? <==> Prefix(counts, from) + index >= Total(counts)
    decreases |counts| - from
  {
    if from < |counts| {
      if index >= counts[from] {
        LocateFromSpec(counts, from + 1, index - counts[from], l, j);
      }
      if from < l < |counts| {
        PrefixMonotone(counts, from + 1, l);
      }
      if l < from {
        PrefixMonotone(counts, l, from);
      }
      PrefixMonotone(counts, from, |counts|);
    }
  }

  /** The flat index of the j-th car on lane l is the number of cars on the
    * earlier lanes plus j, and every index below the total is one car's;
    * Locate is the inverse of that numbering. */
  lemma LocateSpec(counts: seq<nat>, index: nat, l: nat, j: nat)
    ensures Locate(counts, index) == Some((l, j)) <==>
            l < |counts| && j < counts[l] && index == Prefix(counts, l) + j
    ensures Locate(counts, index).None? <==> index >= Total(counts)
  {
    LocateFromSpec(counts, 0, index, l, j);
  }

  /** Removes the element at position j, keeping the others in order. */
  function RemoveAt<T>(s: seq<T>, j: nat): (r: seq<T>)
    requires j < |s|
    ensures |r| == |s| - 1
    ensures forall k :: 0 <= k < j ==> r[k] == s[k]
    ensures forall k :: j <= k < |r| ==> r[k] == s[k + 1]
  {
    s[..j] + s[j + 1..]
  }

  /** The status a lane reports for one of its cars, with the lane number
    * truncated to a byte as `i as u8` does. */
  function LaneStatus(slot: LaneSlot, lane: nat): MovableStatus
  {
    MovableStatus(slot.position, lane % 256, slot.car.id, false)
  }

  /** `get_car_by_index` as written: the lane is found by the flat index,
    * but the car is then taken from it at the flat index itself rather than
    * at the index within the lane. None for the source's panics. */
  function GetCarByIndexAsWritten(lanes: seq<seq<LaneSlot>>, i: nat): Option<Car>
  {
    match Locate(Counts(lanes), i)
      case None => None
      case Some((l, _)) => if l < |lanes| && i < |lanes[l]| then Some(lanes[l][i].car) else None
  }

  /** `get_car_by_index` as the numbering of `update_movables` intends it:
    * the car with flat index `i`, the same one `remove_car(i)` removes. */
  function GetCarByIndex(lanes: seq<seq<LaneSlot>>, i: nat): (r: Option<Car>)
    ensures r.None? <==> i >= Total(Counts(lanes))
    ensures r.Some? ==> exists l: nat, j: nat :: (l < |lanes| && j < |lanes[l]| &&
                                      i == Prefix(Counts(lanes), l) + j && r.value == lanes[l][j].car)
  {
    LocateSpec(Counts(lanes), i, 0, 0);
    match Locate(Counts(lanes), i)
      case None => None
      case Some((l, j)) =>
        LocateSpec(Counts(lanes), i, l, j);
        Some(lanes[l][j].car)
  }

  /** On lanes [[a], [b, c]], flat index 1 is b, the first car of the second
    * lane, but the code as written returns c. */
  lemma GetCarByIndexMisses()
    ensures var a, b, c := Car(0, []), Car(1, []), Car(2, []);
            var lanes := [[LaneSlot(a, 0.0)], [LaneSlot(b, 0.0), LaneSlot(c, 0.0)]];
            GetCarByIndex(lanes, 1) == Some(b) && GetCarByIndexAsWritten(lanes, 1) == Some(c)
  {
    var a, b, c := Car(0, []), Car(1, []), Car(2, []);
    var lanes := [[LaneSlot(a, 0.0)], [LaneSlot(b, 0.0), LaneSlot(c, 0.0)]];
    assert Counts(lanes) == [1, 2];
    assert Locate([1, 2], 1) == Some((1, 0));
  }

  /** Shifts every index of a lane's list by the cars on the earlier lanes. */
  function Shift(ms: seq<nat>, offset: nat): (r: seq<nat>)
    ensures |r| == |ms| && forall m :: 0 <= m < |ms| ==> r[m] == ms[m] + offset
  {
    seq(|ms|, m requires 0 <= m < |ms| => ms[m] + offset)
  }

  /** The flat indices of the cars that reached the end, lane `from` on. */
  function FlatFrom(ended: seq<seq<nat>>, counts: seq<nat>, from: nat): seq<nat>
    requires |ended| == |counts| && from <= |counts|
    decreases |counts| - from
  {
    if from == |counts| then [] else Shift(ended[from], Prefix(counts, from)) + FlatFrom(ended, counts, from + 1)
  }

  /** One lane of `update_movables`: appending lane `l`'s shifted report
    * keeps the collected list a prefix of the whole answer. */
  lemma FlatFromStep(ended: seq<seq<nat>>, counts: seq<nat>, l: nat, done: seq<nat>)
    requires |ended| == |counts| && l < |counts|
    requires done + FlatFrom(ended, counts, l) == FlatFrom(ended, counts, 0)
    ensures (done + Shift(ended[l], Prefix(counts, l))) + FlatFrom(ended, counts, l + 1) == FlatFrom(ended, counts, 0)
  {
    assert FlatFrom(ended, counts, l) == Shift(ended[l], Prefix(counts, l)) + FlatFrom(ended, counts, l + 1);
  }

  /** Every flat index the lanes report names, through Locate, a car on the
    * lane that reported it, at the position that lane reported. */
  lemma {:induction false} FlatFromLocates(ended: seq<seq<nat>>, counts: seq<nat>, from: nat, x: nat)
    requires |ended| == |counts| && from <= |counts|
    requires forall l, m :: 0 <= l < |ended| && 0 <= m < |ended[l]| ==> ended[l][m] < counts[l]
    requires x in FlatFrom(ended, counts, from)
    ensures exists l :: from <= l < |counts| && match Locate(counts, x)
      case None => false
      case Some(p) => p.0 == l && p.1 in ended[l]
    decreases |counts| - from
  {
    var here := Shift(ended[from], Prefix(counts, from));
    if x in here {
      var m :| 0 <= m < |here| && here[m] == x;
      LocateSpec(counts, x, from, ended[from][m]);
    } else {
      FlatFromLocates(ended, counts, from + 1, x);
    }
  }

  class Street {
    var connIn: Option<nat>
    var connOut: Option<nat>
    var lanes: seq<seq<LaneSlot>>
    var id: nat

    /** `Street::new`: one empty lane, unconnected, id 0. */
    constructor ()
      ensures connIn == None && connOut == None && lanes == [[]] && id == 0
    {
      connIn := None;
      connOut := None;
      lanes := [[]];
      id := 0;
    }

    /** `connect`: overwrites the one slot of the given side. */
    method Connect(side: InOut, other: nat)
      modifies this
      ensures side == IN ==> connIn == Some(other) && connOut == old(connOut)
      ensures side == OUT ==> connOut == Some(other) && connIn == old(connIn)
      ensures lanes == old(lanes) && id == old(id)
    {
      if side == IN {
        connIn := Some(other);
      } else {
        connOut := Some(other);
      }
    }

    /** `update_movables` with the lanes' own reports given: `ended[l]` are
      * the positions on lane l of the cars that reached its end. The result
      * lists them lane by lane, each raised by the cars on earlier lanes. */
    method UpdateMovables(ended: seq<seq<nat>>) returns (r: seq<nat>)
      requires |ended| == |lanes|
      ensures r == FlatFrom(ended, Counts(lanes), 0)
    {
      var counts := Counts(lanes);
      var offset := 0;
      var movables: seq<nat> := [];
      var l := 0;
      while l < |lanes|
        invariant 0 <= l <= |lanes|
        invariant offset == Prefix(counts, l)
        invariant movables + FlatFrom(ended, counts, l) == FlatFrom(ended, counts, 0)
      {
        FlatFromStep(ended, counts, l, movables);
        movables := AppendShifted(movables, ended[l], offset);
        offset := offset + counts[l];
        l := l + 1;
      }
      r := movables;
    }

    /** `remove_car`: the car with flat index `index` comes off its lane,
      * the others keeping their order; None where the source panics with
      * "Invalid Index!" because the index is past the last car. */
    method RemoveCar(index: nat) returns (r: Option<Car>)
      modifies this
      ensures r.None? <==> index >= Total(Counts(old(lanes)))
      ensures r.None? ==> lanes == old(lanes)
      ensures r.Some? ==> exists l: nat, j: nat :: (l < |old(lanes)| && j < |old(lanes)[l]| &&
        index == Prefix(Counts(old(lanes)), l) + j && r.value == old(lanes)[l][j].car &&
        lanes == old(lanes)[l := RemoveAt(old(lanes)[l], j)])
      ensures connIn == old(connIn) && connOut == old(connOut) && id == old(id)
    {
      ghost var counts := Counts(lanes);
      LocateSpec(counts, index, 0, 0);
      var elementIndex: nat := index;
      r := None;
      var l := 0;
      while l < |lanes|
        invariant 0 <= l <= |lanes| && lanes == old(lanes)
        invariant LocateFrom(counts, l, elementIndex) == Locate(counts, index)
      {
        var numM := |lanes[l]|;
        if elementIndex < numM {
          LocateSpec(counts, index, l, elementIndex);
          r := Some(lanes[l][elementIndex].car);
          lanes := lanes[l := RemoveAt(lanes[l], elementIndex)];
          return;
        }
        elementIndex := elementIndex - numM;
        l := l + 1;
      }
      r := None;
    }

    /** `add_movable`: the car enters the first lane at its start; false
      * where the source panics because the street has no lane. */
    method AddMovable(car: Car) returns (ok: bool)
      modifies this
      ensures ok <==> |old(lanes)| > 0
      ensures ok ==> lanes == old(lanes)[0 := old(lanes)[0] + [LaneSlot(car, 0.0)]]
      ensures !ok ==> lanes == old(lanes)
      ensures connIn == old(connIn) && connOut == old(connOut) && id == old(id)
    {
      ok := |lanes| > 0;
      if ok {
        lanes := lanes[0 := lanes[0] + [LaneSlot(car, 0.0)]];
      }
    }

    /** `get_car_status`: one status per car, lane by lane, at that car's
      * flat index, carrying the lane number as a byte. */
    method GetCarStatus() returns (r: seq<MovableStatus>)
      ensures r == StatusFrom(lanes, 0)
      ensures |r| == Total(Counts(lanes))
      ensures forall l, j :: 0 <= l < |lanes| && 0 <= j < |lanes[l]| ==> StatusAt(r, lanes, l, j)
    {
      r := StreetStatuses(lanes);
      StatusIndexed(lanes, r);
    }
  }

  /** The statuses of all lanes, built lane by lane. */
  method StreetStatuses(ls: seq<seq<LaneSlot>>) returns (r: seq<MovableStatus>)
    ensures r == StatusFrom(ls, 0)
  {
    r := [];
    var l := 0;
    while l < |ls|
      invariant 0 <= l <= |ls|
      invariant r + StatusFrom(ls, l) == StatusFrom(ls, 0)
    {
      var here := LaneStatuses(ls[l], l);
      var rest := StatusFrom(ls, l + 1);
      assert StatusFrom(ls, l) == here + rest;
      assert (r + here) + rest == r + (here + rest);
      r := AppendStatuses(r, ls[l], l);
      l := l + 1;
    }
  }

  /** Entry `Prefix(l) + j` of the statuses is the status of the j-th car of
    * lane l. */
  predicate StatusAt(r: seq<MovableStatus>, lanes: seq<seq<LaneSlot>>, l: nat, j: nat)
    requires l < |lanes| && j < |lanes[l]|
  {
    Prefix(Counts(lanes), l) + j < |r| && r[Prefix(Counts(lanes), l) + j] == LaneStatus(lanes[l][j], l)
  }

  /** The street's statuses sit at the flat indices of their cars. */
  lemma StatusIndexed(lanes: seq<seq<LaneSlot>>, r: seq<MovableStatus>)
    requires r == StatusFrom(lanes, 0)
    ensures |r| == Total(Counts(lanes))
    ensures forall l, j :: 0 <= l < |lanes| && 0 <= j < |lanes[l]| ==> StatusAt(r, lanes, l, j)
  {
    StatusFromLength(lanes, 0);
    assert Prefix(Counts(lanes), 0) == 0;
    forall l, j | 0 <= l < |lanes| && 0 <= j < |lanes[l]|
      ensures StatusAt(r, lanes, l, j)
    {
      StatusFromAt(lanes, 0, l, j);
    }
  }

  /** Appends the indices of one lane, each raised by `offset`. */
  method AppendShifted(acc: seq<nat>, ms: seq<nat>, offset: nat) returns (r: seq<nat>)
    ensures r == acc + Shift(ms, offset)
  {
    r := acc;
    var m := 0;
    while m < |ms|
      invariant 0 <= m <= |ms|
      invariant r == acc + Shift(ms[..m], offset)
    {
      r := r + [ms[m] + offset];
      m := m + 1;
      assert Shift(ms[..m], offset) == Shift(ms[..m - 1], offset) + [ms[m - 1] + offset];
    }
    assert ms[..m] == ms;
  }

  /** Appends the statuses of lane `l`'s cars. */
  method AppendStatuses(acc: seq<MovableStatus>, lane: seq<LaneSlot>, l: nat) returns (r: seq<MovableStatus>)
    ensures r == acc + LaneStatuses(lane, l)
  {
    r := acc;
    var j := 0;
    while j < |lane|
      invariant 0 <= j <= |lane|
      invariant r == acc + LaneStatuses(lane[..j], l)
    {
      r := r + [LaneStatus(lane[j], l)];
      j := j + 1;
      assert LaneStatuses(lane[..j], l) == LaneStatuses(lane[..j - 1], l) + [LaneStatus(lane[j - 1], l)];
    }
    assert lane[..j] == lane;
  }

  /** The statuses of one lane's cars, in lane order. */
  function LaneStatuses(lane: seq<LaneSlot>, l: nat): (r: seq<MovableStatus>)
    ensures |r| == |lane| && forall j :: 0 <= j < |lane| ==> r[j] == LaneStatus(lane[j], l)
  {
    seq(|lane|, j requires 0 <= j < |lane| => LaneStatus(lane[j], l))
  }

  /** The statuses of the cars on lanes `from` on, lane by lane. */
  function StatusFrom(lanes: seq<seq<LaneSlot>>, from: nat): seq<MovableStatus>
    requires from <= |lanes|
    decreases |lanes| - from
  {
    if from == |lanes| then [] else LaneStatuses(lanes[from], from) + StatusFrom(lanes, from + 1)
  }

  lemma {:induction false} StatusFromLength(lanes: seq<seq<LaneSlot>>, from: nat)
    requires from <= |lanes|
    ensures Prefix(Counts(lanes), from) + |StatusFrom(lanes, from)| == Total(Counts(lanes))
    decreases |lanes| - from
  {
    if from < |lanes| {
      StatusFromLength(lanes, from + 1);
    }
  }

  lemma {:induction false} StatusFromAt(lanes: seq<seq<LaneSlot>>, from: nat, l: nat, j: nat)
    requires from <= l < |lanes| && j < |lanes[l]|
    ensures Prefix(Counts(lanes), from) <= Prefix(Counts(lanes), l)
    ensures Prefix(Counts(lanes), l) + j - Prefix(Counts(lanes), from) < |StatusFrom(lanes, from)|
    ensures StatusFrom(lanes, from)[Prefix(Counts(lanes), l) + j - Prefix(Counts(lanes), from)] == LaneStatus(lanes[l][j], l)
    decreases l - from
  {
    var c := Counts(lanes);
    if from < l {
      StatusFromAt(lanes, from + 1, l, j);
      var k := Prefix(c, l) + j - Prefix(c, from + 1);
      StatusFromTail(lanes, from, k);
    } else {
      assert StatusFrom(lanes, from) == LaneStatuses(lanes[from], from) + StatusFrom(lanes, from + 1);
    }
  }

  /** Past lane `from`'s own statuses come those of the later lanes. */
  lemma StatusFromTail(lanes: seq<seq<LaneSlot>>, from: nat, k: nat)
    requires from < |lanes| && k < |StatusFrom(lanes, from + 1)|
    ensures Prefix(Counts(lanes), from + 1) == Prefix(Counts(lanes), from) + |lanes[from]|
    ensures |lanes[from]| + k < |StatusFrom(lanes, from)|
    ensures StatusFrom(lanes, from)[|lanes[from]| + k] == StatusFrom(lanes, from + 1)[k]
  {
    var here := LaneStatuses(lanes[from], from);
    assert StatusFrom(lanes, from) == here + StatusFrom(lanes, from + 1);
  }
}
