/**
 * The tool selector of the Python editor (editor/toolbar.py).
 *
 * The toolbar keeps the selected tool and one button per tool; the selected
 * tool's button is red and every other button grey.  Changing the tool
 * notifies `tool_changed`; the Export button notifies `on_export`.  Those
 * notifications are returned as a list of signals.
 */
module EditorToolbar {

  datatype Tool = SELECTION | DELETION | ADD | EXPORT

  type Colour = string

  const COLOR_SELECTED: Colour := "red"
  const COLOR_DEFAULT: Colour := "grey"

  /** A notification of one of the toolbar's events. */
  datatype Signal = ToolChanged(tool: Tool) | ExportRequested

  /** The four buttons. */
  const ALL_TOOLS: set<Tool> := {SELECTION, DELETION, ADD, EXPORT}

  class Toolbar {
    var selected: Tool
    /** The background colour of each tool's button. */
    var buttonColour: map<Tool, Colour>

    /** Exactly the selected tool's button has the selected colour, and every
      * tool has a button. */
    predicate Valid()
      reads this
    {
      buttonColour.Keys == ALL_TOOLS &&
      forall t :: t in ALL_TOOLS ==> buttonColour[t] == (if t == selected then COLOR_SELECTED else COLOR_DEFAULT)
    }

    /** The buttons start with Selection red and the others grey, and the
      * selected tool is SELECTION. */
    constructor ()
      ensures Valid()
      ensures selected == SELECTION
    {
      selected := SELECTION;
      buttonColour := map[SELECTION := COLOR_SELECTED, DELETION := COLOR_DEFAULT,
                          ADD := COLOR_DEFAULT, EXPORT := COLOR_DEFAULT];
    }

    /** The `selected_tool` getter. */
    function SelectedTool(): (t: Tool)
      reads this
      requires Valid()
      ensures t in buttonColour && buttonColour[t] == COLOR_SELECTED
      ensures forall u :: u in buttonColour && buttonColour[u] == COLOR_SELECTED ==> u == t
    {
      InAllTools(selected);
      selected
    }

    /** The `selected_tool` setter: a different tool is selected, the buttons
      * are recoloured and `tool_changed(tool)` is sent once; selecting the
      * current tool again does nothing and sends nothing. */
    method SetSelected(tool: Tool) returns (signals: seq<Signal>)
      requires Valid()
      modifies this
      ensures Valid()
      ensures selected == tool
      ensures signals == if tool != old(selected) then [ToolChanged(tool)] else []
      ensures tool == old(selected) ==> buttonColour == old(buttonColour)
    {
      signals := [];
      InAllTools(tool);
      InAllTools(selected);
      if tool != selected {
        buttonColour := buttonColour[selected := COLOR_DEFAULT];
        selected := tool;
        buttonColour := buttonColour[tool := COLOR_SELECTED];
        signals := [ToolChanged(tool)];
      }
    }

    /** `set_selected_tool(new)`: the same as assigning `selected_tool`. */
    method SetSelectedTool(tool: Tool) returns (signals: seq<Signal>)
      requires Valid()
      modifies this
      ensures Valid()
      ensures selected == tool
      ensures signals == if tool != old(selected) then [ToolChanged(tool)] else []
      ensures tool == old(selected) ==> buttonColour == old(buttonColour)
    {
      signals := SetSelected(tool);
    }

    /** A click on a tool's button: Export sends `on_export()` with no
      * arguments, the other buttons select their tool. */
    method Press(button: Tool) returns (signals: seq<Signal>)
      requires Valid()
      modifies this
      ensures Valid()
      ensures button == EXPORT ==> selected == old(selected) && signals == [ExportRequested]
      ensures button != EXPORT ==> selected == button
      ensures button != EXPORT ==> signals == if button != old(selected) then [ToolChanged(button)] else []
    {
      if button == EXPORT {
        signals := [ExportRequested];
      } else {
        signals := SetSelectedTool(button);
      }
    }
  }

  /** The buttons showing the selected colour are exactly the selected tool's. */
  lemma OneSelectedButton(tb: Toolbar)
    requires tb.Valid()
    ensures (set t | t in ALL_TOOLS && tb.buttonColour[t] == COLOR_SELECTED) == {tb.selected}
  {
    InAllTools(tb.selected);
  }

  lemma InAllTools(t: Tool)
    ensures t in ALL_TOOLS
  {
    match t
    case SELECTION => case DELETION => case ADD => case EXPORT =>
  }
}
