/**
 * The editing systems of the Rust editor (editor-rs/src/tool_systems.rs).
 *
 * The `run_if_*` gates decide from the tool bar which tool's systems run.
 * The Add Street tool works in two stages: in `SelectingOutput` the
 * hovered crossing shows a connector for every free outgoing side and a
 * click on one starts a street and locks the tool bar; in `SelectingInput`
 * the hovered crossing shows a connector for every free incoming side and
 * a click on one asks the simulator builder for the street and unlocks the
 * tool bar.  Entities of the game engine are identified by numbers; the
 * queries' answers (what is under the cursor, whether a click happened)
 * are parameters.  The builder's answer to `connect_with_street` is a
 * parameter too, because the builder revision this file calls is not the
 * one modelled in this project.
 */
module ErsToolSystems {
  import opened Wrappers
  import opened ErsToolbar
  import opened SimNodeBuilder

  // ---------------------------------------------------------------------
  // Tool gates
  // ---------------------------------------------------------------------

  datatype ShouldRun = Yes | No

  /** The shared shape of the gates: run exactly when a tool is selected and
    * it is of type `x`. */
  function Gate(tb: Toolbar, x: ToolType): ShouldRun
    reads tb
    requires tb.Valid()
  {
    match tb.GetSelected()
      case None => No
      case Some(t) => if GetType(t) == x then Yes else No
  }

  /** `run_if_delete_node`. */
  function RunIfDeleteNode(tb: Toolbar): (r: ShouldRun)
    reads tb
    requires tb.Valid()
    ensures r == Yes <==> tb.GetTooltype() == DeleteNode
  {
    Gate(tb, DeleteNode)
  }

  /** `run_if_select`. */
  function RunIfSelect(tb: Toolbar): (r: ShouldRun)
    reads tb
    requires tb.Valid()
    ensures r == Yes <==> tb.GetTooltype() == Select
  {
    Gate(tb, Select)
  }

  /** `run_if_add_street`. */
  function RunIfAddStreet(tb: Toolbar): (r: ShouldRun)
    reads tb
    requires tb.Valid()
    ensures r == Yes <==> tb.GetTooltype() == AddStreet
  {
    Gate(tb, AddStreet)
  }

  /** `run_if_add_crossing`. */
  function RunIfAddCrossing(tb: Toolbar): (r: ShouldRun)
    reads tb
    requires tb.Valid()
    ensures r == Yes <==> tb.GetTooltype() == AddCrossing
  {
    Gate(tb, AddCrossing)
  }

  /** `run_if_add_ionode`. */
  function RunIfAddIONode(tb: Toolbar): (r: ShouldRun)
    reads tb
    requires tb.Valid()
    ensures r == Yes <==> tb.GetTooltype() == AddIONode
  {
    Gate(tb, AddIONode)
  }

  /** At most one tool's systems run in a frame, none when nothing is
    * selected, and exactly one when a non-Pan tool is selected. */
  lemma GatesExclusive(tb: Toolbar)
    requires tb.Valid()
    ensures var gates := [RunIfDeleteNode(tb), RunIfSelect(tb), RunIfAddStreet(tb), RunIfAddCrossing(tb), RunIfAddIONode(tb)];
      (forall i, j :: 0 <= i < j < |gates| ==> gates[i] == No || gates[j] == No) &&
      (tb.selected.None? ==> forall i :: 0 <= i < |gates| ==> gates[i] == No) &&
      (tb.GetTooltype() != Pan && tb.selected.Some? ==> exists i :: 0 <= i < |gates| && gates[i] == Yes)
  {
    var gates := [RunIfDeleteNode(tb), RunIfSelect(tb), RunIfAddStreet(tb), RunIfAddCrossing(tb), RunIfAddIONode(tb)];
    if tb.selected.Some? && tb.GetTooltype() != Pan {
      match tb.GetTooltype()
        case DeleteNode => assert gates[0] == Yes;
        case Select => assert gates[1] == Yes;
        case AddStreet => assert gates[2] == Yes;
        case AddCrossing => assert gates[3] == Yes;
        case AddIONode => assert gates[4] == Yes;
    }
  }

  // ---------------------------------------------------------------------
  // Connectors
  // ---------------------------------------------------------------------

  /** The kind a node's entity is tagged with (editor-rs/src/lib.rs). */
  datatype NodeType = CROSSING | IONODE | STREET

  datatype AddStreetStage = SelectingOutput | SelectingInput

  /** An `OutputCircle` or `InputCircle`: the middle of an IO node or one
    * side of a crossing. */
  datatype Circle = Middle | AtSide(dir: Direction)

  /** The sides in the order the connectors are generated. */
  const CONNECTOR_SIDES: seq<Direction> := [N, S, W, E]

  /** The sides of `dirs`, in order, whose `t` slot is free on crossing `c`. */
  function FreeSides(c: CrossingBuilder, t: InOut, dirs: seq<Direction>): (r: seq<Direction>)
    reads c.connections
    ensures |r| <= |dirs|
  {
    if |dirs| == 0 then []
    else (if c.HasConnection(t, dirs[0]) then [] else [dirs[0]]) + FreeSides(c, t, dirs[1..])
  }

  /** A side is listed exactly when it is among `dirs` and its slot is free. */
  lemma {:induction false} FreeSidesMembers(c: CrossingBuilder, t: InOut, dirs: seq<Direction>)
    ensures forall d :: d in FreeSides(c, t, dirs) <==> d in dirs && !c.HasConnection(t, d)
  {
    if |dirs| > 0 {
      FreeSidesMembers(c, t, dirs[1..]);
      assert forall d :: d in dirs <==> d == dirs[0] || d in dirs[1..];
    }
  }

  function SideCircles(ds: seq<Direction>): (r: seq<Circle>)
    ensures |r| == |ds| && forall i :: 0 <= i < |ds| ==> r[i] == AtSide(ds[i])
  {
    if |ds| == 0 then [] else [AtSide(ds[0])] + SideCircles(ds[1..])
  }

  /** What `generate_connectors` does: nothing, a panic, or connectors
    * spawned as children of the hovered node, which is then marked as
    * showing connectors. */
  datatype ConnectorResult = Skipped | Panicked | Spawned(circles: seq<Circle>)

  /** The connectors a node gets in a stage: the middle of an IO node, the
    * free sides of a crossing, nothing for a street. */
  function ConnectorsOf(nbr: NodeBuilder, t: InOut): (r: ConnectorResult)
    reads ObjectsOf(nbr)
    ensures nbr.Street? <==> r == Skipped
    ensures nbr.IONode? ==> r == Spawned([Middle])
    ensures nbr.Crossing? ==>
              r.Spawned? && |r.circles| <= 4 &&
              forall c :: c in r.circles <==> c.AtSide? && !nbr.crossing.HasConnection(t, c.dir)
  {
    match nbr
      case Street(_) => Skipped
      case IONode(_) => Spawned([Middle])
      case Crossing(c) =>
        var free := FreeSides(c, t, CONNECTOR_SIDES);
        FreeSidesMembers(c, t, CONNECTOR_SIDES);
        forall d: Direction ensures d in CONNECTOR_SIDES {
          EverySide(d);
        }
        assert forall c :: c in SideCircles(free) ==> c.AtSide? && c.dir in free;
        assert forall d :: d in free ==> AtSide(d) in SideCircles(free) by {
          forall d | d in free ensures AtSide(d) in SideCircles(free) {
            var i :| 0 <= i < |free| && free[i] == d;
            assert SideCircles(free)[i] == AtSide(d);
          }
        }
        Spawned(SideCircles(free))
  }

  /** `generate_connectors` for the node under the cursor that shows no
    * connectors yet (`hovered`), given the stage and the info of the street
    * being placed, if there is one. */
  method GenerateConnectors(stage: AddStreetStage, hovered: Option<(NodeBuilder, NodeType)>,
                            street: Option<NewStreetInfo>)
    returns (res: ConnectorResult)
    ensures hovered.None? || hovered.value.1 != CROSSING ==> res == Skipped
    ensures hovered.Some? && hovered.value.1 == CROSSING && stage == SelectingOutput ==>
      res == ConnectorsOf(hovered.value.0, OUT)
    ensures hovered.Some? && hovered.value.1 == CROSSING && stage == SelectingInput ==>
      res == if street.None? then Panicked
             else if IdOf(hovered.value.0) == street.value.startId then Skipped
             else ConnectorsOf(hovered.value.0, IN)
  {
    if hovered.None? {
      return Skipped;
    }
    var (nbr, ntype) := hovered.value;
    if ntype != CROSSING {
      return Skipped;
    }
    var t := OUT;
    if stage == SelectingInput {
      if street.None? {
        return Panicked;
      }
      if IdOf(nbr) == street.value.startId {
        return Skipped;
      }
      t := IN;
    }
    match nbr {
      case Street(_) =>
        res := Skipped;
      case IONode(_) =>
        res := Spawned([Middle]);
      case Crossing(c) =>
        var connectors := CrossingConnectors(c, t);
        res := Spawned(connectors);
    }
  }

  /** The loop of `generate_connectors` over the sides of a crossing: a
    * connector for every side whose `t` slot is free. */
  method CrossingConnectors(c: CrossingBuilder, t: InOut) returns (connectors: seq<Circle>)
    ensures connectors == SideCircles(FreeSides(c, t, CONNECTOR_SIDES))
  {
    connectors := [];
    var i := 0;
    while i < |CONNECTOR_SIDES|
      invariant 0 <= i <= |CONNECTOR_SIDES|
      invariant connectors == SideCircles(FreeSides(c, t, CONNECTOR_SIDES[..i]))
    {
      FreeSidesSnoc(c, t, CONNECTOR_SIDES[..i], CONNECTOR_SIDES[i]);
      assert CONNECTOR_SIDES[..i + 1] == CONNECTOR_SIDES[..i] + [CONNECTOR_SIDES[i]];
      if !c.HasConnection(t, CONNECTOR_SIDES[i]) {
        SideCirclesSnoc(FreeSides(c, t, CONNECTOR_SIDES[..i]), CONNECTOR_SIDES[i]);
        connectors := connectors + [AtSide(CONNECTOR_SIDES[i])];
      }
      i := i + 1;
    }
    assert CONNECTOR_SIDES[..i] == CONNECTOR_SIDES;
  }

  lemma {:induction false} FreeSidesSnoc(c: CrossingBuilder, t: InOut, ds: seq<Direction>, d: Direction)
    ensures FreeSides(c, t, ds + [d]) == FreeSides(c, t, ds) + (if c.HasConnection(t, d) then [] else [d])
    decreases |ds|
  {
    if |ds| == 0 {
      assert ds + [d] == [d];
    } else {
      assert (ds + [d])[1..] == ds[1..] + [d];
      FreeSidesSnoc(c, t, ds[1..], d);
    }
  }

  lemma SideCirclesSnoc(ds: seq<Direction>, d: Direction)
    ensures SideCircles(ds + [d]) == SideCircles(ds) + [AtSide(d)]
  {
  }

  lemma EverySide(d: Direction)
    ensures d in CONNECTOR_SIDES
  {
    match d
      case N => case S => case W => case E =>
  }

  /** When no slot of `dirs` is taken, every side of `dirs` is free. */
  lemma {:induction false} AllFree(c: CrossingBuilder, t: InOut, dirs: seq<Direction>)
    requires forall d :: d in dirs ==> !c.HasConnection(t, d)
    ensures FreeSides(c, t, dirs) == dirs
  {
    if |dirs| > 0 {
      AllFree(c, t, dirs[1..]);
    }
  }

  /** A crossing with nothing attached shows all four connectors, in the
    * order N, S, W, E, in either stage. */
  lemma UnconnectedShowsAll(c: CrossingBuilder, t: InOut)
    requires c.connections.input == map[] && c.connections.output == map[]
    ensures ConnectorsOf(Crossing(c), t) == Spawned([AtSide(N), AtSide(S), AtSide(W), AtSide(E)])
  {
    assert forall d :: !c.HasConnection(t, d);
    AllFree(c, t, CONNECTOR_SIDES);
    assert SideCircles(CONNECTOR_SIDES) == [AtSide(N), AtSide(S), AtSide(W), AtSide(E)];
  }

  // ---------------------------------------------------------------------
  // The two stages of the Add Street tool
  // ---------------------------------------------------------------------

  /** The info kept while a street is being placed. */
  datatype NewStreetInfo = NewStreetInfo(startId: nat, outConnType: Circle)

  /** A connector under the cursor: the simulation id of its parent node,
    * if the parent has one, and the circle itself. */
  datatype Hit = Hit(parentId: Option<nat>, circle: Circle)

  /** The call `connect_with_street((start, out), (end, in), 1)`. */
  datatype StreetCall = StreetCall(startId: nat, startCircle: Circle, endId: nat, endCircle: Circle, lanes: nat)

  /** The builder's answer to that call: the new street's id, or an error. */
  datatype ConnectAnswer = Accepted(streetId: nat) | Refused

  datatype ClickOutcome =
    | NoEffect          // no click, nothing hit, or the builder was busy
    | StreetStarted     // an out connector was clicked
    | StreetPlaced(streetId: nat)
    | Crashed           // an `expect` or the `panic!` on a connect error

  /** The Add Street tool's stage, the street being placed and the tool bar
    * it locks. */
  class StreetTool {
    var stage: AddStreetStage
    var placing: Option<NewStreetInfo>
    const toolbar: Toolbar

    /** A street is being placed exactly in the second stage, and the tool
      * bar is locked exactly then. */
    predicate Valid()
      reads this, toolbar
    {
      (stage == SelectingInput <==> placing.Some?) &&
      (toolbar.locked <==> stage == SelectingInput)
    }

    /** The tool before any street was started. */
    constructor (toolbar: Toolbar)
      requires !toolbar.locked
      ensures Valid() && this.toolbar == toolbar
      ensures stage == SelectingOutput && placing == Option.None
    {
      stage := SelectingOutput;
      placing := Option.None;
      this.toolbar := toolbar;
    }

    /** `connector_clicked`.  `click` is whether a left click happened,
      * `outHit`/`inHit` the single out/in connector under the cursor,
      * `builderFree` whether the builder could be borrowed and `answer` what
      * it returns for the call.  The call made, if any, is returned. */
    method ConnectorClicked(click: bool, outHit: Option<Hit>, inHit: Option<Hit>,
                            builderFree: bool, answer: ConnectAnswer)
      returns (outcome: ClickOutcome, call: Option<StreetCall>)
      requires Valid()
      modifies this, toolbar
      ensures Valid()
      ensures toolbar.tools == old(toolbar.tools) && toolbar.selected == old(toolbar.selected)
      ensures outcome == NoEffect || outcome == Crashed ==>
        stage == old(stage) && placing == old(placing) && toolbar.locked == old(toolbar.locked)
      ensures !click ==> outcome == NoEffect && call == Option.None
      ensures click && old(stage) == SelectingOutput ==>
                call == Option.None && outcome ==
                (if outHit.None? then NoEffect else if outHit.value.parentId.None? then Crashed else StreetStarted)
      ensures outcome == StreetStarted ==>
        outHit.Some? && outHit.value.parentId.Some? && stage == SelectingInput && toolbar.locked &&
        placing == Some(NewStreetInfo(outHit.value.parentId.value, outHit.value.circle))
      ensures click && old(stage) == SelectingInput ==>
        var info := old(placing).value;
        if inHit.None? then outcome == NoEffect && call == Option.None
        else if inHit.value.parentId.None? then outcome == Crashed && call == Option.None
        else if !builderFree then outcome == NoEffect && call == Option.None
        else call == Some(StreetCall(info.startId, info.outConnType, inHit.value.parentId.value, inHit.value.circle, 1)) &&
             outcome == (if answer.Refused? then Crashed else StreetPlaced(answer.streetId))
      ensures outcome.StreetPlaced? ==> stage == SelectingOutput && placing == Option.None && !toolbar.locked
    {
      call := Option.None;
      if !click {
        return NoEffect, call;
      }
      match stage {
        case SelectingOutput =>
          if outHit.None? {
            return NoEffect, call;
          }
          if outHit.value.parentId.None? {
            return Crashed, call;
          }
          placing := Some(NewStreetInfo(outHit.value.parentId.value, outHit.value.circle));
          stage := SelectingInput;
          toolbar.locked := true;
          outcome := StreetStarted;
        case SelectingInput =>
          if inHit.None? {
            return NoEffect, call;
          }
          var info := placing.value;
          if inHit.value.parentId.None? {
            return Crashed, call;
          }
          if !builderFree {
            return NoEffect, call;
          }
          call := Some(StreetCall(info.startId, info.outConnType, inHit.value.parentId.value, inHit.value.circle, 1));
          if answer.Refused? {
            return Crashed, call;
          }
          placing := Option.None;
          stage := SelectingOutput;
          toolbar.locked := false;
          outcome := StreetPlaced(answer.streetId);
      }
    }
  }

  /** While a street is being placed, no frame of the tool bar can switch
    * away from the Add Street tool's selection. */
  method RenderWhilePlacing(st: StreetTool, clicked: seq<bool>)
    requires st.Valid() && st.stage == SelectingInput
    requires st.toolbar.Valid() && |clicked| == |st.toolbar.tools|
    modifies st.toolbar
    ensures st.toolbar.selected == old(st.toolbar.selected) && st.Valid()
  {
    st.toolbar.RenderTools(clicked);
  }

  // ---------------------------------------------------------------------
  // Selecting a node
  // ---------------------------------------------------------------------

  /** The entities carrying the `SelectedNode` marker. */
  class Selection {
    var marked: set<nat>

    /** `select_node` for a click (`click`) on the shape `under`, if any:
      * the single previously marked entity loses the marker, the clicked
      * one gains it, and both are returned for recolouring. */
    method SelectNode(click: bool, under: Option<nat>) returns (recolor: seq<nat>)
      modifies this
      ensures !click || under.None? ==> marked == old(marked) && recolor == []
      ensures click && under.Some? && |old(marked)| != 1 ==>
        marked == old(marked) + {under.value} && recolor == [under.value]
      ensures click && under.Some? && |old(marked)| == 1 ==>
        marked == {under.value} && exists p :: old(marked) == {p} && recolor == [p, under.value]
      // the marker moves to the clicked node and is never duplicated
      ensures click && under.Some? && |old(marked)| <= 1 ==> marked == {under.value}
      ensures |old(marked)| <= 1 ==> |marked| <= 1
    {
      recolor := [];
      if !click || under.None? {
        return;
      }
      if |marked| == 1 {
        var p :| p in marked;
        assert marked == {p} by {
          assert |marked - {p}| == 0;
        }
        marked := marked - {p};
        recolor := [p];
      }
      marked := marked + {under.value};
      recolor := recolor + [under.value];
    }
  }
}
