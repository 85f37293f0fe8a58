/**
 * The tool bar of the Rust editor (editor-rs/src/toolbar.rs).
 *
 * A tool bar holds a list of tools, the index of the selected one and a
 * lock flag.  Each frame every tool draws its button; a clicked button
 * selects its tool unless the bar is locked.  The buttons' click states of
 * one frame are a parameter of `RenderTools`, in tool order.
 */
module ErsToolbar {
  import opened Wrappers

  /** The kind of a tool; `None` is reported when nothing is selected. */
  datatype ToolType = None | Pan | AddStreet | AddCrossing | AddIONode | Select | DeleteNode

  /** The six tool implementations. */
  datatype Tool = SelectTool | PanTool | AddStreetTool | AddCrossingTool | AddIONodeTool | DeleteNodeTool

  /** The button label of a tool. */
  function Name(t: Tool): (n: string)
    ensures |n| > 0
  {
    match t
      case SelectTool => "Select"
      case PanTool => "Pan"
      case AddStreetTool => "Add Street"
      case AddCrossingTool => "Add Crossing"
      case AddIONodeTool => "Add IO-Node"
      case DeleteNodeTool => "Delete Crossing/IO-Node"
  }

  /** `get_type()`: every tool reports a type of its own, never `None`. */
  function GetType(t: Tool): (tt: ToolType)
    ensures tt != ToolType.None
  {
    match t
      case SelectTool => Select
      case PanTool => Pan
      case AddStreetTool => AddStreet
      case AddCrossingTool => AddCrossing
      case AddIONodeTool => AddIONode
      case DeleteNodeTool => DeleteNode
  }

  /** Distinct tools have distinct types and distinct labels. */
  lemma ToolsDistinguished(t: Tool, u: Tool)
    ensures GetType(t) == GetType(u) <==> t == u
    ensures Name(t) == Name(u) <==> t == u
  {
    if t != u {
      match t
        case SelectTool => assert Name(t)[0] == 'S';
        case PanTool => assert Name(t)[0] == 'P';
        case AddStreetTool => assert Name(t)[4] == 'S';
        case AddCrossingTool => assert Name(t)[4] == 'C';
        case AddIONodeTool => assert Name(t)[4] == 'I';
        case DeleteNodeTool => assert Name(t)[0] == 'D';
    }
  }

  /** The index a frame leaves selected: the last clicked button's, or the
    * previous selection when no button was clicked. */
  function LastClicked(clicked: seq<bool>, sel: Option<nat>): (r: Option<nat>)
  {
    if |clicked| == 0 then sel
    else if clicked[|clicked| - 1] then Some(|clicked| - 1)
    else LastClicked(clicked[..|clicked| - 1], sel)
  }

  /** `LastClicked` picks a clicked button after which no button was clicked,
    * and keeps the selection exactly when there was no click. */
  lemma {:induction false} LastClickedChoice(clicked: seq<bool>, sel: Option<nat>)
    ensures (forall k :: 0 <= k < |clicked| ==> !clicked[k]) ==> LastClicked(clicked, sel) == sel
    ensures (exists k :: 0 <= k < |clicked| && clicked[k]) ==>
      var r := LastClicked(clicked, sel);
      r.Some? && r.value < |clicked| && clicked[r.value] &&
      forall k :: r.value < k < |clicked| ==> !clicked[k]
  {
    if |clicked| > 0 && !clicked[|clicked| - 1] {
      var front := clicked[..|clicked| - 1];
      LastClickedChoice(front, sel);
      if exists k :: 0 <= k < |clicked| && clicked[k] {
        var k :| 0 <= k < |clicked| && clicked[k];
        assert front[k] == clicked[k];
      }
      if forall k :: 0 <= k < |clicked| ==> !clicked[k] {
        assert forall k :: 0 <= k < |front| ==> !front[k] by {
          forall k | 0 <= k < |front| ensures !front[k] {
            assert front[k] == clicked[k];
          }
        }
      }
    }
  }

  class Toolbar {
    var tools: seq<Tool>
    /** The selected tool's index; `None` when there are no tools. */
    var selected: Option<nat>
    /** While locked, no tool can be selected. */
    var locked: bool

    /** The selection names a tool of the bar. */
    predicate Valid()
      reads this
    {
      selected.Some? ==> selected.value < |tools|
    }

    /** `Toolbar::new()`: no tools, no selection, unlocked. */
    constructor ()
      ensures Valid()
      ensures tools == [] && selected == Option.None && !locked
    {
      tools := [];
      selected := Option.None;
      locked := false;
    }

    /** `Toolbar::default()`: the six tools with the first one selected. */
    constructor Default()
      ensures Valid()
      ensures tools == [PanTool, SelectTool, AddStreetTool, AddCrossingTool, DeleteNodeTool, AddIONodeTool]
      ensures selected == Some(0) && !locked
      ensures GetTooltype() == Pan
    {
      tools := [PanTool, SelectTool, AddStreetTool, AddCrossingTool, DeleteNodeTool, AddIONodeTool];
      selected := Some(0);
      locked := false;
    }

    /** `get_selected()`: the selected tool, if any; indexing out of range
      * panics in the source, so the selection must name a tool. */
    function GetSelected(): (r: Option<Tool>)
      reads this
      requires Valid()
      ensures r.None? <==> selected.None?
      ensures r.Some? ==> r.value in tools && r.value == tools[selected.value]
    {
      match selected
        case Some(i) => Some(tools[i])
        case None => Option.None
    }

    /** `get_tooltype()`: `None` exactly when nothing is selected, else the
      * selected tool's own type. */
    function GetTooltype(): (t: ToolType)
      reads this
      requires Valid()
      ensures t == ToolType.None <==> selected.None?
      ensures selected.Some? ==> t == GetType(tools[selected.value])
    {
      match GetSelected()
        case Some(tool) => GetType(tool)
        case None => ToolType.None
    }

    /** `Tool::render` for the tool at `thisIndex`: a click selects it unless
      * the bar is locked. */
    method Render(thisIndex: nat, clicked: bool)
      modifies this
      ensures tools == old(tools) && locked == old(locked)
      ensures selected == if clicked && !locked then Some(thisIndex) else old(selected)
    {
      if clicked {
        if !locked {
          selected := Some(thisIndex);
        }
      }
    }

    /** `render_tools()`: every tool in order, with `clicked[i]` the click
      * state of the i-th button.  While locked the selection never changes;
      * otherwise the last clicked tool is selected. */
    method RenderTools(clicked: seq<bool>)
      requires Valid() && |clicked| == |tools|
      modifies this
      ensures Valid()
      ensures tools == old(tools) && locked == old(locked)
      ensures locked ==> selected == old(selected)
      ensures !locked ==> selected == LastClicked(clicked, old(selected))
    {
      var i := 0;
      while i < |tools|
        invariant 0 <= i <= |tools| == |clicked|
        invariant tools == old(tools) && locked == old(locked)
        invariant locked ==> selected == old(selected)
        invariant !locked ==> selected == LastClicked(clicked[..i], old(selected))
      {
        Render(i, clicked[i]);
        assert clicked[..i + 1][..i] == clicked[..i];
        i := i + 1;
      }
      assert clicked[..i] == clicked;
      LastClickedChoice(clicked, old(selected));
    }
  }
}
