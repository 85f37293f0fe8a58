/**
 * The grid layout of the simulator (simulator/src/build_grid.rs): an
 * n-by-n grid of nodes added row by row, IONodes on the border and
 * crossings inside, then one-lane streets between neighbours, each laid by
 * `connect_with_street` and unwrapped with `expect`.
 *
 * The streets each cell asks for are the pure `CellStreets`; `GridPlan`
 * is all of them in the order the loops visit the cells. The proof that no
 * `expect` fires rests on ownership: every crossing slot a street uses is
 * "owned" by exactly one cell, the one whose turn lays it, so no slot is
 * asked for twice.
 */
module SimBuildGrid {
  import opened Wrappers
  import opened SimNodeBuilder
  import opened SimCascade
  import opened SimSimulationBuilder

  /** One call of `connect_with_street`: start id and side, end id and side. */
  datatype StreetRequest = StreetRequest(start: nat, startDir: Direction, end: nat, endDir: Direction)

  /** The index of cell (i, j) in row-major order. */
  function Flat(n: nat, i: nat, j: nat): nat
  {
    i * n + j
  }

  lemma FlatBound(n: nat, i: nat, j: nat)
    requires i < n && j < n
    ensures Flat(n, i, j) < n * n
  {
    assert i * n <= (n - 1) * n;
  }

  /** The cell above (i, j) is n places earlier. */
  lemma FlatUp(n: nat, i: nat, j: nat)
    requires 0 < i
    ensures Flat(n, i - 1, j) + n == Flat(n, i, j)
  {
  }

  predicate IsCorner(n: nat, i: nat, j: nat)
  {
    (i == 0 || i == n - 1) && (j == 0 || j == n - 1)
  }

  predicate OnBorder(n: nat, i: nat, j: nat)
  {
    i == 0 || j == 0 || i == n - 1 || j == n - 1
  }

  /** A border cell of the last column that is not a corner. */
  predicate RightEdge(n: nat, i: nat, j: nat)
  {
    j == n - 1 && i != 0 && i != n - 1
  }

  /** A border cell of the last row that is not a corner. */
  predicate BottomEdge(n: nat, i: nat, j: nat)
  {
    i == n - 1 && j != 0 && j != n - 1
  }

  /** The streets the second loop lays at cell (i, j), in call order. */
  function CellStreets(n: nat, i: nat, j: nat): (r: seq<StreetRequest>)
    requires i < n && j < n
  {
    if IsCorner(n, i, j) then []
    else if OnBorder(n, i, j) then
      if RightEdge(n, i, j) then
        [StreetRequest(Flat(n, i, j), W, Flat(n, i, j - 1), E),
         StreetRequest(Flat(n, i, j - 1), E, Flat(n, i, j), W)]
      else if BottomEdge(n, i, j) then
        [StreetRequest(Flat(n, i, j), N, Flat(n, i - 1, j), S),
         StreetRequest(Flat(n, i - 1, j), S, Flat(n, i, j), N)]
      else []
    else
      [StreetRequest(Flat(n, i, j), W, Flat(n, i, j - 1), E),
       StreetRequest(Flat(n, i, j), N, Flat(n, i - 1, j), S),
       StreetRequest(Flat(n, i, j - 1), E, Flat(n, i, j), W),
       StreetRequest(Flat(n, i - 1, j), S, Flat(n, i, j), N)]
  }

  /** The streets of the first `j` cells of row `i`. */
  function RowPlan(n: nat, i: nat, j: nat): seq<StreetRequest>
    requires i < n && j <= n
  {
    if j == 0 then [] else RowPlan(n, i, j - 1) + CellStreets(n, i, j - 1)
  }

  /** The streets of the first `i` rows. */
  function PlanRows(n: nat, i: nat): seq<StreetRequest>
    requires i <= n
  {
    if i == 0 then [] else PlanRows(n, i - 1) + RowPlan(n, i - 1, n)
  }

  /** Every street `build_grid_sim` lays, in order. */
  function GridPlan(n: nat): seq<StreetRequest>
  {
    PlanRows(n, n)
  }

  /** The cell whose turn uses the outgoing slot `d` of node `a`: W and N
    * slots belong to the node's own cell, E to the cell right of it, S to
    * the cell below it. */
  function OutOwner(n: nat, a: nat, d: Direction): nat
  {
    match d
      case W => a
      case N => a
      case E => a + 1
      case S => a + n
  }

  /** The cell whose turn uses the incoming slot `d` of node `b`. */
  function InOwner(n: nat, b: nat, d: Direction): nat
  {
    match d
      case W => b
      case N => b
      case E => b + 1
      case S => b + n
  }

  /** Every street of cell (i, j) uses slots the cell owns, and the sides it
    * uses at its start differ from street to street, as do those at its end. */
  lemma CellOwns(n: nat, i: nat, j: nat)
    requires i < n && j < n
    ensures forall t :: 0 <= t < |CellStreets(n, i, j)| ==>
      OutOwner(n, CellStreets(n, i, j)[t].start, CellStreets(n, i, j)[t].startDir) == Flat(n, i, j) &&
      InOwner(n, CellStreets(n, i, j)[t].end, CellStreets(n, i, j)[t].endDir) == Flat(n, i, j)
    ensures forall t, u :: 0 <= t < u < |CellStreets(n, i, j)| ==>
      CellStreets(n, i, j)[t].startDir != CellStreets(n, i, j)[u].startDir &&
      CellStreets(n, i, j)[t].endDir != CellStreets(n, i, j)[u].endDir
  {
    if 0 < i {
      FlatUp(n, i, j);
    }
  }

  /** Every street of the first `j` cells of row `i` is owned by one of them. */
  lemma {:induction false} RowOwners(n: nat, i: nat, j: nat)
    requires i < n && j <= n
    ensures forall q :: 0 <= q < |RowPlan(n, i, j)| ==>
      Flat(n, i, 0) <= OutOwner(n, RowPlan(n, i, j)[q].start, RowPlan(n, i, j)[q].startDir) < Flat(n, i, j) &&
      Flat(n, i, 0) <= InOwner(n, RowPlan(n, i, j)[q].end, RowPlan(n, i, j)[q].endDir) < Flat(n, i, j)
  {
    if j > 0 {
      RowOwners(n, i, j - 1);
      CellOwns(n, i, j - 1);
      var a, b := RowPlan(n, i, j - 1), CellStreets(n, i, j - 1);
      assert RowPlan(n, i, j) == a + b;
      assert forall q :: |a| <= q < |a| + |b| ==> (a + b)[q] == b[q - |a|];
    }
  }

  /** Every street of the first `i` rows is owned by a cell of those rows. */
  lemma {:induction false} RowsOwners(n: nat, i: nat)
    requires i <= n
    ensures forall q :: 0 <= q < |PlanRows(n, i)| ==>
      OutOwner(n, PlanRows(n, i)[q].start, PlanRows(n, i)[q].startDir) < Flat(n, i, 0) &&
      InOwner(n, PlanRows(n, i)[q].end, PlanRows(n, i)[q].endDir) < Flat(n, i, 0)
  {
    if i > 0 {
      RowsOwners(n, i - 1);
      RowOwners(n, i - 1, n);
      assert Flat(n, i - 1, n) == Flat(n, i, 0);
      var a, b := PlanRows(n, i - 1), RowPlan(n, i - 1, n);
      assert forall q :: |a| <= q < |a| + |b| ==> (a + b)[q] == b[q - |a|];
    }
  }

  /** The street laid the other way. */
  function Reverse(r: StreetRequest): StreetRequest
  {
    StreetRequest(r.end, r.endDir, r.start, r.startDir)
  }

  /** A street between grid neighbours, from a side to the facing side:
    * the W side of a node to the E side of the node before it, E to the W
    * side of the next one, N to the S side of the node a row up, S to the
    * N side of the node a row down. */
  predicate Neighbours(n: nat, r: StreetRequest)
  {
    (r.start == r.end + 1 && r.startDir == W && r.endDir == E) ||
    (r.start + 1 == r.end && r.startDir == E && r.endDir == W) ||
    (r.start == r.end + n && r.startDir == N && r.endDir == S) ||
    (r.start + n == r.end && r.startDir == S && r.endDir == N)
  }

  /** Every street joins neighbours and is laid both ways. */
  predicate TwoWayNeighbours(n: nat, plan: seq<StreetRequest>)
  {
    forall q :: 0 <= q < |plan| ==> Neighbours(n, plan[q]) && Reverse(plan[q]) in plan
  }

  lemma TwoWayConcat(n: nat, a: seq<StreetRequest>, b: seq<StreetRequest>)
    requires TwoWayNeighbours(n, a) && TwoWayNeighbours(n, b)
    ensures TwoWayNeighbours(n, a + b)
  {
    forall q | 0 <= q < |a + b|
      ensures Neighbours(n, (a + b)[q]) && Reverse((a + b)[q]) in a + b
    {
      if q < |a| {
        assert (a + b)[q] == a[q];
      } else {
        assert (a + b)[q] == b[q - |a|];
      }
    }
  }

  lemma {:induction false} RowTwoWay(n: nat, i: nat, j: nat)
    requires i < n && j <= n
    ensures TwoWayNeighbours(n, RowPlan(n, i, j))
  {
    if j > 0 {
      RowTwoWay(n, i, j - 1);
      if 0 < i {
        FlatUp(n, i, j - 1);
      }
      TwoWayConcat(n, RowPlan(n, i, j - 1), CellStreets(n, i, j - 1));
    }
  }

  /** `build_grid_sim` joins only grid neighbours, each pair with one street
    * each way. */
  lemma {:induction false} GridTwoWay(n: nat, i: nat)
    requires i <= n
    ensures TwoWayNeighbours(n, PlanRows(n, i))
  {
    if i > 0 {
      GridTwoWay(n, i - 1);
      RowTwoWay(n, i - 1, n);
      TwoWayConcat(n, PlanRows(n, i - 1), RowPlan(n, i - 1, n));
    }
  }

  lemma {:induction false} MulMono(n: nat, a: nat, b: nat)
    requires a <= b
    ensures a * n <= b * n
  {
    if a < b {
      MulMono(n, a, b - 1);
      assert (b - 1) * n + n == b * n;
    }
  }

  /** Distinct cells have distinct row-major indices. */
  lemma FlatInjective(n: nat, i: nat, j: nat, i2: nat, j2: nat)
    requires j < n && j2 < n && Flat(n, i, j) == Flat(n, i2, j2)
    ensures i == i2 && j == j2
  {
    if i < i2 {
      assert (i + 1) * n == i * n + n;
      MulMono(n, i + 1, i2);
    } else if i2 < i {
      assert (i2 + 1) * n == i2 * n + n;
      MulMono(n, i2 + 1, i);
    }
  }

  /** No street of `plan` starts or ends at a corner of the grid. */
  predicate AvoidsCorners(n: nat, plan: seq<StreetRequest>)
  {
    forall q :: 0 <= q < |plan| ==>
      (forall i, j :: 0 <= i < n && 0 <= j < n && IsCorner(n, i, j) ==>
        plan[q].start != Flat(n, i, j) && plan[q].end != Flat(n, i, j))
  }

  lemma CellAvoidsCorners(n: nat, i: nat, j: nat)
    requires i < n && j < n
    ensures AvoidsCorners(n, CellStreets(n, i, j))
  {
    var cell := CellStreets(n, i, j);
    forall q, i2, j2 | 0 <= q < |cell| && 0 <= i2 < n && 0 <= j2 < n && IsCorner(n, i2, j2)
      ensures cell[q].start != Flat(n, i2, j2) && cell[q].end != Flat(n, i2, j2)
    {
      if cell[q].start == Flat(n, i2, j2) || cell[q].end == Flat(n, i2, j2) {
        if !OnBorder(n, i, j) || RightEdge(n, i, j) {
          if Flat(n, i, j - 1) == Flat(n, i2, j2) {
            FlatInjective(n, i, j - 1, i2, j2);
          }
        }
        if !OnBorder(n, i, j) || BottomEdge(n, i, j) {
          if Flat(n, i - 1, j) == Flat(n, i2, j2) {
            FlatInjective(n, i - 1, j, i2, j2);
          }
        }
        if Flat(n, i, j) == Flat(n, i2, j2) {
          FlatInjective(n, i, j, i2, j2);
        }
      }
    }
  }

  lemma AvoidsCornersConcat(n: nat, a: seq<StreetRequest>, b: seq<StreetRequest>)
    requires AvoidsCorners(n, a) && AvoidsCorners(n, b)
    ensures AvoidsCorners(n, a + b)
  {
    forall q | 0 <= q < |a + b|
      ensures (a + b)[q] == if q < |a| then a[q] else b[q - |a|]
    {
    }
  }

  lemma {:induction false} RowAvoidsCorners(n: nat, i: nat, j: nat)
    requires i < n && j <= n
    ensures AvoidsCorners(n, RowPlan(n, i, j))
  {
    if j > 0 {
      RowAvoidsCorners(n, i, j - 1);
      CellAvoidsCorners(n, i, j - 1);
      AvoidsCornersConcat(n, RowPlan(n, i, j - 1), CellStreets(n, i, j - 1));
    }
  }

  /** The corner IONodes of the grid get no street. */
  lemma {:induction false} GridAvoidsCorners(n: nat, i: nat)
    requires i <= n
    ensures AvoidsCorners(n, PlanRows(n, i))
  {
    if i > 0 {
      GridAvoidsCorners(n, i - 1);
      RowAvoidsCorners(n, i - 1, n);
      AvoidsCornersConcat(n, PlanRows(n, i - 1), RowPlan(n, i - 1, n));
    }
  }

  /** The slots already used at the start and at the end of streets. */
  function FromSlots(done: seq<StreetRequest>): set<(nat, Direction)>
  {
    set q | 0 <= q < |done| :: (done[q].start, done[q].startDir)
  }

  function ToSlots(done: seq<StreetRequest>): set<(nat, Direction)>
  {
    set q | 0 <= q < |done| :: (done[q].end, done[q].endDir)
  }

  /** The plan up to street `t` of cell (i, j). */
  function PlanBefore(n: nat, i: nat, j: nat, t: nat): seq<StreetRequest>
    requires i < n && j < n && t <= |CellStreets(n, i, j)|
  {
    PlanRows(n, i) + RowPlan(n, i, j) + CellStreets(n, i, j)[..t]
  }

  /** Street `t` of cell (i, j) asks for slots no earlier street used: this
    * is why no `expect` of `build_grid_sim` fires on a taken slot. */
  lemma SlotsFree(n: nat, i: nat, j: nat, t: nat)
    requires i < n && j < n && t < |CellStreets(n, i, j)|
    ensures var r := CellStreets(n, i, j)[t];
      (r.start, r.startDir) !in FromSlots(PlanBefore(n, i, j, t)) &&
      (r.end, r.endDir) !in ToSlots(PlanBefore(n, i, j, t))
  {
    var r := CellStreets(n, i, j)[t];
    var rows, row, cell := PlanRows(n, i), RowPlan(n, i, j), CellStreets(n, i, j)[..t];
    var done := rows + row + cell;
    RowsOwners(n, i);
    RowOwners(n, i, j);
    CellOwns(n, i, j);
    forall q | 0 <= q < |done|
      ensures (done[q].start, done[q].startDir) != (r.start, r.startDir)
      ensures (done[q].end, done[q].endDir) != (r.end, r.endDir)
    {
      if q < |rows| {
        assert done[q] == rows[q];
      } else if q < |rows| + |row| {
        assert done[q] == row[q - |rows|];
      } else {
        assert done[q] == CellStreets(n, i, j)[q - |rows| - |row|];
      }
    }
  }

  /** The ends of every street of a cell are two different grid nodes. */
  lemma CellEnds(n: nat, i: nat, j: nat)
    requires i < n && j < n
    ensures forall t :: 0 <= t < |CellStreets(n, i, j)| ==>
      CellStreets(n, i, j)[t].start < n * n && CellStreets(n, i, j)[t].end < n * n &&
      CellStreets(n, i, j)[t].start != CellStreets(n, i, j)[t].end
  {
    FlatBound(n, i, j);
    if 0 < i {
      FlatUp(n, i, j);
    }
  }

  /** `s` is attached where a street starting at side `d` of a node with
    * connections `v` is linked: in an IONode's outgoing list, or in the
    * outgoing slot `d` of a crossing. */
  predicate LinkedFrom(v: ConnView, d: Direction, s: NodeBuilder)
  {
    match v
      case IOView(outs, _) => s in outs
      case CrossingView(_, o) => d in o && o[d] == s
      case StreetView(_, _) => false
  }

  /** `s` is attached where a street ending at side `d` is linked: an IONode
    * lists it as outgoing (as `connect_with_street` does), a crossing holds
    * it in the incoming slot `d`. */
  predicate LinkedTo(v: ConnView, d: Direction, s: NodeBuilder)
  {
    match v
      case IOView(outs, _) => s in outs
      case CrossingView(i, _) => d in i && i[d] == s
      case StreetView(_, _) => false
  }

  /** A grid node is no street, and the crossing slots in use are those the
    * laid streets asked for. */
  predicate GridNode(v: ConnView, m: nat, done: seq<StreetRequest>)
  {
    !v.StreetView? &&
    (v.CrossingView? ==>
      (forall d :: d in v.output ==> (m, d) in FromSlots(done)) &&
      (forall d :: d in v.input ==> (m, d) in ToSlots(done)))
  }

  /** Street `q` of `done` sits after the grid, runs from its start node to
    * its end node, and is linked into both. */
  predicate StreetLaid(nodes: seq<NodeBuilder>, views: seq<ConnView>, n: nat, done: seq<StreetRequest>, q: nat)
    requires |nodes| == |views| == n * n + |done| && q < |done|
  {
    var r, s := done[q], nodes[n * n + q];
    r.start < n * n && r.end < n * n && r.start != r.end &&
    views[n * n + q] == StreetView(Some(nodes[r.start]), Some(nodes[r.end])) &&
    LinkedFrom(views[r.start], r.startDir, s) && LinkedTo(views[r.end], r.endDir, s)
  }

  /** The state after the streets `done` are laid on the n-by-n grid, over
    * the list of builders, their connections and their ids: ids are the
    * positions, the grid comes first, the streets follow in order. */
  predicate Laid(nodes: seq<NodeBuilder>, views: seq<ConnView>, ids: seq<nat>, n: nat, done: seq<StreetRequest>)
  {
    |nodes| == n * n + |done| && |views| == |nodes| && |ids| == |nodes| &&
    (forall k :: 0 <= k < |ids| ==> ids[k] == k) &&
    (forall m :: 0 <= m < n * n ==> GridNode(views[m], m, done)) &&
    (forall q :: 0 <= q < |done| ==> StreetLaid(nodes, views, n, done, q))
  }

  lemma FromSlotsAppend(done: seq<StreetRequest>, r: StreetRequest)
    ensures FromSlots(done + [r]) == FromSlots(done) + {(r.start, r.startDir)}
    ensures ToSlots(done + [r]) == ToSlots(done) + {(r.end, r.endDir)}
  {
    var d := done + [r];
    assert forall q :: 0 <= q < |done| ==> d[q] == done[q];
    assert d[|done|] == r;
  }

  /** A street whose slots are free, linked between two different grid
    * nodes and appended, extends what is laid by one request. */
  lemma LaidStep(nodes: seq<NodeBuilder>, views: seq<ConnView>, ids: seq<nat>, n: nat,
                 done: seq<StreetRequest>, r: StreetRequest, s: NodeBuilder)
    requires Laid(nodes, views, ids, n, done)
    requires r.start < n * n && r.end < n * n && r.start != r.end
    requires (r.start, r.startDir) !in FromSlots(done) && (r.end, r.endDir) !in ToSlots(done)
    ensures Laid(nodes + [s],
                 views[r.start := LinkedAtStart(views[r.start], r.startDir, s)]
                      [r.end := LinkedAtEnd(views[r.end], r.endDir, s)]
                   + [StreetView(Some(nodes[r.start]), Some(nodes[r.end]))],
                 ids + [|ids|], n, done + [r])
  {
    var nodes', done' := nodes + [s], done + [r];
    var views' := views[r.start := LinkedAtStart(views[r.start], r.startDir, s)]
                       [r.end := LinkedAtEnd(views[r.end], r.endDir, s)]
                    + [StreetView(Some(nodes[r.start]), Some(nodes[r.end]))];
    FromSlotsAppend(done, r);
    forall m | 0 <= m < n * n
      ensures GridNode(views'[m], m, done')
    {
      assert GridNode(views[m], m, done);
    }
    forall q | 0 <= q < |done'|
      ensures StreetLaid(nodes', views', n, done', q)
    {
      if q < |done| {
        assert StreetLaid(nodes, views, n, done, q);
        var rq := done[q];
        assert done'[q] == rq && nodes'[n * n + q] == nodes[n * n + q];
        assert (rq.start, rq.startDir) in FromSlots(done);
        assert (rq.end, rq.endDir) in ToSlots(done);
      }
    }
  }

  /** Before a street whose slots are free is laid, the search of
    * `connect_with_street` finds both ends at their ids and links both. */
  lemma Ready(nodes: seq<NodeBuilder>, views: seq<ConnView>, ids: seq<nat>, n: nat,
              done: seq<StreetRequest>, r: StreetRequest)
    requires Laid(nodes, views, ids, n, done)
    requires r.start < n * n && r.end < n * n && r.start != r.end
    requires (r.start, r.startDir) !in FromSlots(done) && (r.end, r.endDir) !in ToSlots(done)
    ensures LocateEnds(ids, r.start, r.end) == (Some(r.start), Some(r.end))
    ensures StageOf(views[r.start], r.startDir, views[r.end], r.endDir) == BothLinked
  {
    LocateEndsSpec(ids, r.start, r.end);
    assert ids[r.start] == r.start && ids[r.end] == r.end;
    assert GridNode(views[r.start], r.start, done) && GridNode(views[r.end], r.end, done);
  }

  /** `connect_with_street((a, da), (b, db), 1, streetLen)` when both ends
    * are found at their ids and both slots are free: the street is made,
    * linked into both ends and appended with the next id. */
  method ConnectFree(sim: SimulatorBuilder, a: nat, da: Direction, b: nat, db: Direction, streetLen: real)
    returns (street: NodeBuilder)
    requires sim.Owned() && a < |sim.nodes| && b < |sim.nodes|
    requires LocateEnds(IdsOf(sim.nodes), a, b) == (Some(a), Some(b))
    requires StageOf(ViewsOf(sim.nodes)[a], da, ViewsOf(sim.nodes)[b], db) == BothLinked
    modifies sim, sim.Repr()
    ensures sim.Owned() && sim.nodes == old(sim.nodes) + [street]
    ensures street.Street? && street.street.lanes == 1 && street.street.laneLength == streetLen
    ensures StreetsKept(old(sim.nodes), {a, b})
    ensures ViewsOf(sim.nodes) ==
      old(ViewsOf(sim.nodes))[a := LinkedAtStart(old(ViewsOf(sim.nodes))[a], da, street)]
                             [b := LinkedAtEnd(old(ViewsOf(sim.nodes))[b], db, street)]
        + [StreetView(Some(old(sim.nodes)[a]), Some(old(sim.nodes)[b]))]
    ensures IdsOf(sim.nodes) == old(IdsOf(sim.nodes)) + [old(sim.nextId)]
    ensures sim.nextId == old(sim.nextId) + 1
    ensures sim.maxIter == old(sim.maxIter) && sim.delay == old(sim.delay)
    ensures forall o :: o in sim.Repr() ==> o in old(sim.Repr()) || fresh(o)
  {
    ghost var ns, views := sim.nodes, ViewsOf(sim.nodes);
    forall k | 0 <= k < |ns|
      ensures views[k] == View(ns[k])
    {
      ViewsOfAt(ns, k);
    }
    var r := sim.ConnectWithStreet((a, da), (b, db), 1, streetLen);
    street := r.street;
    forall k | 0 <= k < |ns|
      ensures ViewsOf(ns)[k] == View(ns[k])
    {
      ViewsOfAt(ns, k);
    }
    assert ViewsOf(ns) == views[a := LinkedAtStart(views[a], da, street)]
                                [b := LinkedAtEnd(views[b], db, street)];
    ViewsOfConcat(ns, [street]);
    IdsOfAppend(ns, street);
    ObjectsOfAllAppend(ns, street);
  }

  /** Every builder of the list from index `from` on is a street with one
    * lane of length `streetLen`. */
  predicate OneLaneStreets(nodes: seq<NodeBuilder>, from: nat, streetLen: real)
    reads StreetObjects(nodes)
  {
    forall k :: from <= k < |nodes| ==>
      nodes[k].Street? && nodes[k].street.lanes == 1 && nodes[k].street.laneLength == streetLen
  }

  /** A street `r` can be laid after `done`: its ends are two different
    * grid nodes and the slots it asks for are still free. */
  predicate Fits(n: nat, done: seq<StreetRequest>, r: StreetRequest)
  {
    r.start < n * n && r.end < n * n && r.start != r.end &&
    (r.start, r.startDir) !in FromSlots(done) && (r.end, r.endDir) !in ToSlots(done)
  }

  /** Each street of cell (i, j) fits after the streets laid before it. */
  lemma CellFits(n: nat, i: nat, j: nat)
    requires i < n && j < n
    ensures var cell, base := CellStreets(n, i, j), PlanRows(n, i) + RowPlan(n, i, j);
      forall t :: 0 <= t < |cell| ==> Fits(n, base + cell[..t], cell[t])
  {
    var cell, base := CellStreets(n, i, j), PlanRows(n, i) + RowPlan(n, i, j);
    CellEnds(n, i, j);
    forall t | 0 <= t < |cell|
      ensures Fits(n, base + cell[..t], cell[t])
    {
      SlotsFree(n, i, j, t);
    }
  }

  /** One `connect_with_street(...).expect(..)` of `build_grid_sim`, with
    * one lane. The street fits, so the call connects and the `expect` does
    * not fire. */
  method Lay(sim: SimulatorBuilder, n: nat, ghost done: seq<StreetRequest>, req: StreetRequest, streetLen: real)
    requires sim.Owned() && sim.nextId == |sim.nodes|
    requires Laid(sim.nodes, ViewsOf(sim.nodes), IdsOf(sim.nodes), n, done) && Fits(n, done, req)
    requires OneLaneStreets(sim.nodes, n * n, streetLen)
    modifies sim, sim.Repr()
    ensures sim.Owned() && sim.nextId == |sim.nodes|
    ensures Laid(sim.nodes, ViewsOf(sim.nodes), IdsOf(sim.nodes), n, done + [req])
    ensures OneLaneStreets(sim.nodes, n * n, streetLen)
    ensures |sim.nodes| == |old(sim.nodes)| + 1 && sim.nodes[..|old(sim.nodes)|] == old(sim.nodes)
    ensures sim.maxIter == old(sim.maxIter) && sim.delay == old(sim.delay)
    ensures forall o :: o in sim.Repr() ==> o in old(sim.Repr()) || fresh(o)
  {
    ghost var ns, views, ids := sim.nodes, ViewsOf(sim.nodes), IdsOf(sim.nodes);
    Ready(ns, views, ids, n, done, req);
    var street := ConnectFree(sim, req.start, req.startDir, req.end, req.endDir, streetLen);
    LaidStep(ns, views, ids, n, done, req, street);
    forall k | n * n <= k < |sim.nodes|
      ensures sim.nodes[k].Street? && sim.nodes[k].street.lanes == 1 && sim.nodes[k].street.laneLength == streetLen
    {
      if k < |ns| {
        assert sim.nodes[k] == ns[k];
      }
    }
  }

  /** The calls of one cell in order; each street fits after the ones laid
    * before it. */
  method LayStreets(sim: SimulatorBuilder, n: nat, ghost done: seq<StreetRequest>, reqs: seq<StreetRequest>, streetLen: real)
    requires sim.Owned() && sim.nextId == |sim.nodes|
    requires Laid(sim.nodes, ViewsOf(sim.nodes), IdsOf(sim.nodes), n, done)
    requires forall t :: 0 <= t < |reqs| ==> Fits(n, done + reqs[..t], reqs[t])
    requires OneLaneStreets(sim.nodes, n * n, streetLen)
    modifies sim, sim.Repr()
    ensures sim.Owned() && sim.nextId == |sim.nodes|
    ensures Laid(sim.nodes, ViewsOf(sim.nodes), IdsOf(sim.nodes), n, done + reqs)
    ensures OneLaneStreets(sim.nodes, n * n, streetLen)
    ensures |sim.nodes| >= |old(sim.nodes)| && sim.nodes[..|old(sim.nodes)|] == old(sim.nodes)
    ensures sim.maxIter == old(sim.maxIter) && sim.delay == old(sim.delay)
    ensures forall o :: o in sim.Repr() ==> o in old(sim.Repr()) || fresh(o)
  {
    var t := 0;
    assert done + reqs[..t] == done;
    while t < |reqs|
      invariant t <= |reqs|
      invariant sim.Owned() && sim.nextId == |sim.nodes|
      invariant Laid(sim.nodes, ViewsOf(sim.nodes), IdsOf(sim.nodes), n, done + reqs[..t])
      invariant OneLaneStreets(sim.nodes, n * n, streetLen)
      invariant |sim.nodes| >= |old(sim.nodes)| && sim.nodes[..|old(sim.nodes)|] == old(sim.nodes)
      invariant sim.maxIter == old(sim.maxIter) && sim.delay == old(sim.delay)
      invariant forall o :: o in sim.Repr() ==> o in old(sim.Repr()) || fresh(o)
    {
      ghost var before := sim.nodes;
      Lay(sim, n, done + reqs[..t], reqs[t], streetLen);
      PrefixTrans(old(sim.nodes), before, sim.nodes);
      assert done + reqs[..t + 1] == done + reqs[..t] + [reqs[t]] by {
        assert reqs[..t + 1] == reqs[..t] + [reqs[t]];
      }
      t := t + 1;
    }
    assert reqs[..t] == reqs;
  }

  /** The streets of cell (i, j), as `build_grid_sim` lays them: nothing at
    * a corner, at the top or at the left border; both ways to the left
    * neighbour at the right border; both ways to the node above at the
    * bottom border; both ways to both inside. */
  method LayCell(sim: SimulatorBuilder, n: nat, i: nat, j: nat, streetLen: real)
    requires i < n && j < n
    requires sim.Owned() && sim.nextId == |sim.nodes|
    requires Laid(sim.nodes, ViewsOf(sim.nodes), IdsOf(sim.nodes), n, PlanRows(n, i) + RowPlan(n, i, j))
    requires OneLaneStreets(sim.nodes, n * n, streetLen)
    modifies sim, sim.Repr()
    ensures sim.Owned() && sim.nextId == |sim.nodes|
    ensures Laid(sim.nodes, ViewsOf(sim.nodes), IdsOf(sim.nodes), n, PlanRows(n, i) + RowPlan(n, i, j + 1))
    ensures OneLaneStreets(sim.nodes, n * n, streetLen)
    ensures |sim.nodes| >= |old(sim.nodes)| && sim.nodes[..|old(sim.nodes)|] == old(sim.nodes)
    ensures sim.maxIter == old(sim.maxIter) && sim.delay == old(sim.delay)
    ensures forall o :: o in sim.Repr() ==> o in old(sim.Repr()) || fresh(o)
  {
    ghost var base := PlanRows(n, i) + RowPlan(n, i, j);
    assert PlanRows(n, i) + RowPlan(n, i, j + 1) == base + CellStreets(n, i, j);
    CellFits(n, i, j);
    if IsCorner(n, i, j) {
      assert base + [] == base;
      return;
    }
    if OnBorder(n, i, j) {
      if RightEdge(n, i, j) {
        LayStreets(sim, n, base,
          [StreetRequest(Flat(n, i, j), W, Flat(n, i, j - 1), E),
           StreetRequest(Flat(n, i, j - 1), E, Flat(n, i, j), W)], streetLen);
      } else if BottomEdge(n, i, j) {
        LayStreets(sim, n, base,
          [StreetRequest(Flat(n, i, j), N, Flat(n, i - 1, j), S),
           StreetRequest(Flat(n, i - 1, j), S, Flat(n, i, j), N)], streetLen);
      } else {
        assert base + [] == base;
      }
    } else {
      LayStreets(sim, n, base,
        [StreetRequest(Flat(n, i, j), W, Flat(n, i, j - 1), E),
         StreetRequest(Flat(n, i, j), N, Flat(n, i - 1, j), S),
         StreetRequest(Flat(n, i, j - 1), E, Flat(n, i, j), W),
         StreetRequest(Flat(n, i - 1, j), S, Flat(n, i, j), N)], streetLen);
    }
  }

  lemma PrefixTrans<T>(a: seq<T>, b: seq<T>, c: seq<T>)
    requires |a| <= |b| <= |c| && b[..|a|] == a && c[..|b|] == b
    ensures c[..|a|] == a
  {
    assert c[..|a|] == c[..|b|][..|a|];
  }

  /** The connections of a node just made: none. */
  function Blank(io: bool): ConnView
  {
    if io then IOView([], []) else CrossingView(map[], map[])
  }

  /** Whether each node of the first `j` cells of row `i` is an IONode. */
  function KindRow(n: nat, i: nat, j: nat): (r: seq<bool>)
    requires j <= n
    ensures |r| == j
  {
    if j == 0 then [] else KindRow(n, i, j - 1) + [OnBorder(n, i, j - 1)]
  }

  /** Whether each node of the first `i` rows is an IONode. */
  function KindRows(n: nat, i: nat): (r: seq<bool>)
    requires i <= n
    ensures |r| == i * n
  {
    if i == 0 then [] else KindRows(n, i - 1) + KindRow(n, i - 1, n)
  }

  lemma {:induction false} KindRowAt(n: nat, i: nat, j: nat, c: nat)
    requires c < j <= n
    ensures KindRow(n, i, j)[c] == OnBorder(n, i, c)
  {
    if c < j - 1 {
      KindRowAt(n, i, j - 1, c);
    }
  }

  /** The node at the row-major index of cell (i, j) is an IONode exactly
    * when the cell is on the border. */
  lemma {:induction false} KindRowsAt(n: nat, r: nat, i: nat, j: nat)
    requires i < r <= n && j < n
    ensures Flat(n, i, j) < |KindRows(n, r)| && KindRows(n, r)[Flat(n, i, j)] == OnBorder(n, i, j)
  {
    if i < r - 1 {
      KindRowsAt(n, r - 1, i, j);
    } else {
      KindRowAt(n, i, n, j);
    }
  }

  /** A node of `kinds` added to the grid: the next id, no connections. */
  predicate Placed(nodes: seq<NodeBuilder>, views: seq<ConnView>, ids: seq<nat>, kinds: seq<bool>)
  {
    |nodes| == |views| == |ids| == |kinds| &&
    forall k :: 0 <= k < |kinds| ==>
      nodes[k].IONode? == kinds[k] && nodes[k].Crossing? == !kinds[k] &&
      views[k] == Blank(kinds[k]) && ids[k] == k
  }

  /** `sim.add_node(NodeBuilder::IONode(IONodeBuilder::new()))` when `io`,
    * else the same with `CrossingBuilder::new()`. */
  method AddBlank(sim: SimulatorBuilder, io: bool)
    requires sim.Owned()
    modifies sim
    ensures sim.Owned() && sim.nextId == old(sim.nextId) + 1
    ensures |sim.nodes| == |old(sim.nodes)| + 1 && sim.nodes[..|old(sim.nodes)|] == old(sim.nodes)
    ensures sim.nodes[|old(sim.nodes)|].IONode? == io && sim.nodes[|old(sim.nodes)|].Crossing? == !io
    ensures ViewsOf(sim.nodes) == old(ViewsOf(sim.nodes)) + [Blank(io)]
    ensures IdsOf(sim.nodes) == old(IdsOf(sim.nodes)) + [old(sim.nextId)]
    ensures sim.maxIter == old(sim.maxIter) && sim.delay == old(sim.delay)
    ensures forall o :: o in sim.Repr() ==> o in old(sim.Repr()) || fresh(o)
  {
    ghost var ns, views, ids := sim.nodes, ViewsOf(sim.nodes), IdsOf(sim.nodes);
    AllocatedObjects(ns);
    var node: NodeBuilder;
    if io {
      var b := new IONodeBuilder();
      node := IONode(b);
    } else {
      var c := new CrossingBuilder();
      node := Crossing(c);
    }
    forall k | 0 <= k < |ns|
      ensures views[k] == View(ns[k]) && ids[k] == IdOf(ns[k])
    {
      ViewsOfAt(ns, k);
      IdsOfAt(ns, k);
    }
    var _ := sim.AddNode(node);
    forall k | 0 <= k < |ns|
      ensures ViewsOf(ns)[k] == View(ns[k]) && IdsOf(ns)[k] == IdOf(ns[k])
    {
      ViewsOfAt(ns, k);
      IdsOfAt(ns, k);
    }
    assert ViewsOf(ns) == views && IdsOf(ns) == ids;
    ViewsOfConcat(ns, [node]);
    IdsOfAppend(ns, node);
    ObjectsOfAllAppend(ns, node);
  }

  /** One iteration of the first loop of `build_grid_sim`: at a corner an
    * IONode is added and the iteration ends (`continue`); elsewhere an
    * IONode on the border, a crossing inside. */
  method PlaceCell(sim: SimulatorBuilder, n: nat, i: nat, j: nat, ghost kinds: seq<bool>)
    requires i < n && j < n
    requires sim.Owned() && sim.nextId == |sim.nodes|
    requires Placed(sim.nodes, ViewsOf(sim.nodes), IdsOf(sim.nodes), kinds)
    modifies sim
    ensures sim.Owned() && sim.nextId == |sim.nodes|
    ensures Placed(sim.nodes, ViewsOf(sim.nodes), IdsOf(sim.nodes), kinds + [OnBorder(n, i, j)])
    ensures sim.maxIter == old(sim.maxIter) && sim.delay == old(sim.delay)
    ensures forall o :: o in sim.Repr() ==> o in old(sim.Repr()) || fresh(o)
  {
    ghost var ns, views, ids := sim.nodes, ViewsOf(sim.nodes), IdsOf(sim.nodes);
    if IsCorner(n, i, j) {
      AddBlank(sim, true);
      PlacedStep(ns, views, ids, kinds, sim.nodes, true);
      return;
    }
    if OnBorder(n, i, j) {
      AddBlank(sim, true);
    } else {
      AddBlank(sim, false);
    }
    PlacedStep(ns, views, ids, kinds, sim.nodes, OnBorder(n, i, j));
  }

  /** Row `i` of the first loop of `build_grid_sim`. */
  method PlaceRow(sim: SimulatorBuilder, n: nat, i: nat)
    requires i < n
    requires sim.Owned() && sim.nextId == |sim.nodes|
    requires Placed(sim.nodes, ViewsOf(sim.nodes), IdsOf(sim.nodes), KindRows(n, i))
    modifies sim
    ensures sim.Owned() && sim.nextId == |sim.nodes|
    ensures Placed(sim.nodes, ViewsOf(sim.nodes), IdsOf(sim.nodes), KindRows(n, i + 1))
    ensures sim.maxIter == old(sim.maxIter) && sim.delay == old(sim.delay)
    ensures forall o :: o in sim.Repr() ==> o in old(sim.Repr()) || fresh(o)
  {
    ghost var kinds := KindRows(n, i);
    var j := 0;
    while j < n
      invariant j <= n && kinds == KindRows(n, i) + KindRow(n, i, j)
      invariant sim.Owned() && sim.nextId == |sim.nodes|
      invariant Placed(sim.nodes, ViewsOf(sim.nodes), IdsOf(sim.nodes), kinds)
      invariant sim.maxIter == old(sim.maxIter) && sim.delay == old(sim.delay)
      invariant forall o :: o in sim.Repr() ==> o in old(sim.Repr()) || fresh(o)
    {
      PlaceCell(sim, n, i, j, kinds);
      kinds := kinds + [OnBorder(n, i, j)];
      j := j + 1;
    }
  }

  lemma PlacedStep(ns: seq<NodeBuilder>, views: seq<ConnView>, ids: seq<nat>, kinds: seq<bool>,
                   ns': seq<NodeBuilder>, io: bool)
    requires Placed(ns, views, ids, kinds)
    requires |ns'| == |ns| + 1 && ns'[..|ns|] == ns && ns'[|ns|].IONode? == io && ns'[|ns|].Crossing? == !io
    ensures Placed(ns', views + [Blank(io)], ids + [|ids|], kinds + [io])
  {
    assert forall k :: 0 <= k < |ns| ==> ns'[k] == ns[k];
  }

  /** The first loop of `build_grid_sim`: the n * n nodes, row by row. */
  method PlaceGrid(sim: SimulatorBuilder, n: nat)
    requires sim.Owned() && sim.nodes == [] && sim.nextId == 0
    modifies sim
    ensures sim.Owned() && sim.nextId == |sim.nodes|
    ensures Placed(sim.nodes, ViewsOf(sim.nodes), IdsOf(sim.nodes), KindRows(n, n))
    ensures sim.maxIter == old(sim.maxIter) && sim.delay == old(sim.delay)
    ensures forall o :: o in sim.Repr() ==> fresh(o)
  {
    var i := 0;
    while i < n
      invariant i <= n
      invariant sim.Owned() && sim.nextId == |sim.nodes|
      invariant Placed(sim.nodes, ViewsOf(sim.nodes), IdsOf(sim.nodes), KindRows(n, i))
      invariant sim.maxIter == old(sim.maxIter) && sim.delay == old(sim.delay)
      invariant forall o :: o in sim.Repr() ==> fresh(o)
    {
      PlaceRow(sim, n, i);
      i := i + 1;
    }
  }

  /** Row `i` of the second loop of `build_grid_sim`. */
  method LayRow(sim: SimulatorBuilder, n: nat, i: nat, streetLen: real)
    requires i < n
    requires sim.Owned() && sim.nextId == |sim.nodes|
    requires Laid(sim.nodes, ViewsOf(sim.nodes), IdsOf(sim.nodes), n, PlanRows(n, i))
    requires OneLaneStreets(sim.nodes, n * n, streetLen)
    modifies sim, sim.Repr()
    ensures sim.Owned() && sim.nextId == |sim.nodes|
    ensures Laid(sim.nodes, ViewsOf(sim.nodes), IdsOf(sim.nodes), n, PlanRows(n, i + 1))
    ensures OneLaneStreets(sim.nodes, n * n, streetLen)
    ensures |sim.nodes| >= |old(sim.nodes)| && sim.nodes[..|old(sim.nodes)|] == old(sim.nodes)
    ensures sim.maxIter == old(sim.maxIter) && sim.delay == old(sim.delay)
    ensures forall o :: o in sim.Repr() ==> o in old(sim.Repr()) || fresh(o)
  {
    var j := 0;
    assert PlanRows(n, i) + RowPlan(n, i, 0) == PlanRows(n, i);
    while j < n
      invariant j <= n
      invariant sim.Owned() && sim.nextId == |sim.nodes|
      invariant Laid(sim.nodes, ViewsOf(sim.nodes), IdsOf(sim.nodes), n, PlanRows(n, i) + RowPlan(n, i, j))
      invariant OneLaneStreets(sim.nodes, n * n, streetLen)
      invariant |sim.nodes| >= |old(sim.nodes)| && sim.nodes[..|old(sim.nodes)|] == old(sim.nodes)
      invariant sim.maxIter == old(sim.maxIter) && sim.delay == old(sim.delay)
      invariant forall o :: o in sim.Repr() ==> o in old(sim.Repr()) || fresh(o)
    {
      ghost var before := sim.nodes;
      LayCell(sim, n, i, j, streetLen);
      PrefixTrans(old(sim.nodes), before, sim.nodes);
      j := j + 1;
    }
  }

  /** The second loop of `build_grid_sim`: the streets of every cell, row
    * by row. */
  method LayGrid(sim: SimulatorBuilder, n: nat, streetLen: real)
    requires sim.Owned() && sim.nextId == |sim.nodes|
    requires Laid(sim.nodes, ViewsOf(sim.nodes), IdsOf(sim.nodes), n, [])
    modifies sim, sim.Repr()
    ensures sim.Owned() && sim.nextId == |sim.nodes|
    ensures Laid(sim.nodes, ViewsOf(sim.nodes), IdsOf(sim.nodes), n, GridPlan(n))
    ensures OneLaneStreets(sim.nodes, n * n, streetLen)
    ensures |sim.nodes| >= |old(sim.nodes)| && sim.nodes[..|old(sim.nodes)|] == old(sim.nodes)
    ensures sim.maxIter == old(sim.maxIter) && sim.delay == old(sim.delay)
    ensures forall o :: o in sim.Repr() ==> o in old(sim.Repr()) || fresh(o)
  {
    var i := 0;
    while i < n
      invariant i <= n
      invariant sim.Owned() && sim.nextId == |sim.nodes|
      invariant Laid(sim.nodes, ViewsOf(sim.nodes), IdsOf(sim.nodes), n, PlanRows(n, i))
      invariant OneLaneStreets(sim.nodes, n * n, streetLen)
      invariant |sim.nodes| >= |old(sim.nodes)| && sim.nodes[..|old(sim.nodes)|] == old(sim.nodes)
      invariant sim.maxIter == old(sim.maxIter) && sim.delay == old(sim.delay)
      invariant forall o :: o in sim.Repr() ==> o in old(sim.Repr()) || fresh(o)
    {
      ghost var before := sim.nodes;
      LayRow(sim, n, i, streetLen);
      PrefixTrans(old(sim.nodes), before, sim.nodes);
      i := i + 1;
    }
  }

  /** With no streets yet, freshly placed nodes are a laid grid. */
  lemma PlacedIsLaid(nodes: seq<NodeBuilder>, views: seq<ConnView>, ids: seq<nat>, n: nat)
    requires Placed(nodes, views, ids, KindRows(n, n))
    ensures Laid(nodes, views, ids, n, [])
  {
    forall m | 0 <= m < n * n
      ensures GridNode(views[m], m, [])
    {
    }
  }

  /** `build_grid_sim(n, street_len)`: an n-by-n grid added row by row, the
    * node of cell (i, j) at index and id i * n + j, IONodes on the border
    * and crossings inside; then the streets of `GridPlan(n)` in order, each
    * with one lane, every call connecting. */
  method BuildGridSim(n: nat, streetLen: real) returns (sim: SimulatorBuilder)
    ensures fresh(sim) && sim.Owned()
    ensures sim.maxIter == Some(10000) && sim.delay == 0
    ensures |sim.nodes| == n * n + |GridPlan(n)| && sim.nextId == |sim.nodes|
    ensures forall i, j :: 0 <= i < n && 0 <= j < n ==>
      Flat(n, i, j) < n * n &&
      (sim.nodes[Flat(n, i, j)].IONode? <==> OnBorder(n, i, j)) &&
      (sim.nodes[Flat(n, i, j)].Crossing? <==> !OnBorder(n, i, j))
    ensures Laid(sim.nodes, ViewsOf(sim.nodes), IdsOf(sim.nodes), n, GridPlan(n))
    ensures forall k :: n * n <= k < |sim.nodes| ==>
      sim.nodes[k].Street? && sim.nodes[k].street.lanes == 1 && sim.nodes[k].street.laneLength == streetLen
  {
    sim := new SimulatorBuilder();
    var built := sim.WithDelay(0);
    built := built.WithMaxIter(Some(10000));
    PlaceGrid(sim, n);
    ghost var grid := sim.nodes;
    PlacedIsLaid(grid, ViewsOf(grid), IdsOf(grid), n);
    LayGrid(sim, n, streetLen);
    forall i, j | 0 <= i < n && 0 <= j < n
      ensures Flat(n, i, j) < n * n && sim.nodes[Flat(n, i, j)] == grid[Flat(n, i, j)]
      ensures grid[Flat(n, i, j)].IONode? == OnBorder(n, i, j) && grid[Flat(n, i, j)].Crossing? == !OnBorder(n, i, j)
    {
      KindRowsAt(n, n, i, j);
      assert sim.nodes[..|grid|][Flat(n, i, j)] == grid[Flat(n, i, j)];
    }
  }
}
