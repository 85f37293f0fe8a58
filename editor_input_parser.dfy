/**
 * The mouse-input state machine of the Python editor
 * (editor/input_parser.py).
 *
 * The parser remembers the selected tool, the selected crossing and the
 * crossing being dragged.  Each handler may notify some of its events
 * (`add_crossing`, `add_street`, `move_crossing`, `select_crossing`,
 * `unselect_crossing`); the notifications a handler sends are returned in
 * order as a list of signals.
 */
module EditorInputParser {
  import EditorToolbar
  import opened EditorStreetData

  /** A notification of one of the parser's events, with its arguments
    * (`null` stands for `None`). */
  datatype Signal =
    | AddCrossing(c: Crossing)
    | UnselectCrossing(prev: Crossing?)
    | AddStreet(from: Crossing, to: Crossing)
    | SelectCrossing(sel: Crossing)
    | MoveCrossing(moved: Crossing, x: int, y: int)

  /** How a handler ends: normally, with the TypeError that comparing
    * `None <= 50` raises, or with the IndexError `get_nearest` passes on. */
  datatype HandlerOutcome = Handled | RaisedTypeError | RaisedIndexError

  class InputParser {
    const streetData: StreetData
    var selectedTool: EditorToolbar.Tool
    var selected: Crossing?
    var dragging: Crossing?

    /** While something is dragged, something is selected (so the mouse-move
      * handler can set `selected.position`). */
    predicate Valid()
      reads this
    {
      dragging != null ==> selected != null
    }

    /** Starts with the SELECTION tool, nothing selected and nothing dragged. */
    constructor (streetData: StreetData)
      ensures Valid()
      ensures this.streetData == streetData
      ensures selectedTool == EditorToolbar.SELECTION && selected == null && dragging == null
    {
      this.streetData := streetData;
      selectedTool := EditorToolbar.SELECTION;
      selected := null;
      dragging := null;
    }

    /** `parse_mouse_left(event)`.  With ADD, a new crossing at (x, y) is
      * announced; a previous selection is unselected and joined to it by a
      * street; then the new crossing is selected.  With SELECTION, the
      * street data is asked for the nearest waypoint.  As written it answers
      * `(None, None)`, so `dist <= 50` raises TypeError, or it raises
      * IndexError on an odd first coordinate list; either way nothing is
      * selected or dragged.  Any other tool does nothing. */
    method ParseMouseLeft(x: int, y: int)
      returns (r: HandlerOutcome, signals: seq<Signal>, created: Crossing?)
      requires Valid()
      modifies this
      ensures Valid()
      ensures selectedTool == old(selectedTool)
      ensures selectedTool == EditorToolbar.ADD ==>
        r == Handled && created != null && fresh(created) &&
        created.position == [x, y] && created.connected == [] && !created.trafficLights &&
        selected == created && dragging == old(dragging) &&
        signals == [AddCrossing(created)] +
                   (if old(selected) != null then [UnselectCrossing(old(selected)), AddStreet(old(selected), created)] else []) +
                   [SelectCrossing(created)]
      ensures selectedTool == EditorToolbar.SELECTION ==>
        created == null && signals == [] && selected == old(selected) && dragging == old(dragging) &&
        r == (if |streetData.streets| > 0 && |streetData.streets[0]| % 2 == 1 then HandlerOutcome.RaisedIndexError
              else RaisedTypeError)
      ensures selectedTool != EditorToolbar.ADD && selectedTool != EditorToolbar.SELECTION ==>
        r == Handled && signals == [] && created == null &&
        selected == old(selected) && dragging == old(dragging)
    {
      r, signals, created := Handled, [], null;
      if selectedTool == EditorToolbar.ADD {
        // The source passes only the position; the other two constructor
        // arguments get their empty values here.
        var c := new Crossing([x, y], [], false);
        created := c;
        signals := signals + [AddCrossing(c)];
        if selected != null {
          signals := signals + [UnselectCrossing(selected), AddStreet(selected, c)];
        }
        signals := signals + [SelectCrossing(c)];
        selected := c;
      } else if selectedTool == EditorToolbar.SELECTION {
        var nearest := streetData.GetNearest(x, y);
        match nearest {
          case RaisedIndexError =>
            r := HandlerOutcome.RaisedIndexError;
          case NoneNone =>
            // `dist` is None, and `None <= 50` raises.
            r := RaisedTypeError;
        }
      }
    }

    /** `on_left_release`: nothing is dragged any more. */
    method OnLeftRelease()
      requires Valid()
      modifies this
      ensures Valid()
      ensures dragging == null
      ensures selected == old(selected) && selectedTool == old(selectedTool)
    {
      dragging := null;
    }

    /** `on_mouse_move(event)`: while dragging, the selected crossing moves
      * to (x, y) and one `move_crossing(dragging, x, y)` is sent; otherwise
      * nothing happens. */
    method OnMouseMove(x: int, y: int) returns (signals: seq<Signal>)
      requires Valid()
      modifies selected
      ensures Valid()
      ensures old(dragging) == null ==> signals == [] && (selected != null ==> unchanged(selected))
      ensures old(dragging) != null ==>
        selected.position == [x, y] && signals == [MoveCrossing(dragging, x, y)]
      ensures selected != null ==> selected.connected == old(selected.connected)
      ensures selected != null ==> selected.trafficLights == old(selected.trafficLights)
    {
      signals := [];
      if dragging != null {
        selected.position := [x, y];
        signals := [MoveCrossing(dragging, x, y)];
      }
    }

    /** `on_tool_change(tool)`: the parser's copy of the selected tool. */
    method OnToolChange(tool: EditorToolbar.Tool)
      requires Valid()
      modifies this
      ensures Valid()
      ensures selectedTool == tool
      ensures selected == old(selected) && dragging == old(dragging)
    {
      selectedTool := tool;
    }
  }
}
