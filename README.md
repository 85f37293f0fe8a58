# A verified model of the KI-Wettbewerb road-network tools

The repository holds several generations of one idea: a road network of
crossings joined by streets with lane counts, edited by hand and then
simulated, with neural networks steering the traffic lights and a genetic
algorithm breeding those networks. This project models the core of each
generation in Dafny and proves what its code, doc comments and tests
promise. There is one module per source file:

- **Python editor** (`editor/`): the observer list `Event`
  (`EditorEvent`), the editable-attribute registry (`EditorEditable`),
  crossings with lane-count edges and the waypoint search
  (`EditorStreetData`), the mouse-input state machine
  (`EditorInputParser`), the tool selector (`EditorToolbar`) and the
  recursive field editor with its recursion guard (`EditorItemEditor`).
- **Simulator builder graph** (`simulator/src/`):
  - the node builders and their direction slots (`SimNodeBuilder`);
  - the simulator builder with its id counter, street connection and
    cascading removal (`SimSimulationBuilder`, with the cascade stated
    on values in `SimCascade`);
  - the id-based JSON records (`SimBuilderJson`);
  - the grid layout (`SimBuildGrid`).
- **Simulator runtime**:
  - the nodes, with the traffic-light table, the neural-network inputs
    and flat lane indexing (`SimNode`);
  - the path-following car and the movable server (`SimPathfinding`);
  - the simulator's network hand-out, status map, iteration count and
    visiting order (`SimSimulation`).
- **Older simulator revisions**:
  - `simple/` (`SimpleNodeBuilder`, `SimpleSimulationBuilder`);
  - `connection.rs` (`OldConnection`) and `crossing.rs` (`OldCrossing`);
  - `street_data.rs` (`OldStreetData`);
  - `main.rs` (`OldMain`). Its `Crossing::new`, `connect`,
    `get_connection` (main.rs:41-86) and `Connection::new` act as in
    `crossing.rs` and `connection.rs`, so `OldCrossing` and
    `OldConnection` model them. Its derived equality is modelled on its own.
- **Neural networks** (`art-int/`, module `ArtInt`): the shape checks,
  the flatten/rebuild round trip of `weights()` and `from_weights`,
  crossover shape, and propagation output lengths.
- **Rust editor** (`editor-rs/`): the tool bar with its lock
  (`ErsToolbar`), the tool gates and the two-stage street connector
  protocol (`ErsToolSystems`), and the mode cycle and themes (`ErsLib`).

`Wrappers` holds the `Option` datatype and the sequence reversal `Reversed` with its lemmas.

Modelling conventions:

- **Errors.** A Rust `panic!`, `expect` or failed `assert!`, and a Python
  exception, is an explicit error outcome. It is never a precondition,
  unless a line under "Left out" says otherwise.
- **Identity.** Objects compared by identity in the source, such as
  Python objects without `__eq__` and Rust `Rc`/`Weak` compared by
  address, are Dafny objects.
- **Mutation.** State the source updates in place is a class whose
  methods are proved against functions of the old state.
- **Foreign computations.** Floating-point arithmetic, random draws and
  the shortest-path search become parameters or opaque reals.

Where a method's contract uses `old` or `fresh`, the method is
specified against a pure function. The lemmas about that function carry
the property.

## Model

| member | source | states |
|---|---|---|
| EditorEvent.RemoveFirstCount | editor/event.py:24 | removing a bound function takes out exactly one copy of it; an unbound function leaves the list as it is |
| EditorEvent.RemoveFirstShape | editor/event.py:24 | only the first occurrence is removed: the observers before it stay, the ones after it move up by one |
| EditorEvent.Event.constructor | editor/event.py:6-9 | no observers; an empty or missing name makes the event its own name |
| EditorEvent.Event.Bind | editor/event.py:12-14 | with callable arguments they are appended in order, duplicates kept; no argument raises in `min`, a non-callable one fails the assertion, and the list is then unchanged |
| EditorEvent.Event.Unbind | editor/event.py:21-30 | the first occurrence of each argument is removed in turn; arguments that are not bound are skipped |
| EditorEvent.Event.AddAssign | editor/event.py:31-33 | `+=` binds one function and yields the same event |
| EditorEvent.Event.SubAssign | editor/event.py:35-37 | `-=` removes the first occurrence of one function and yields the same event |
| EditorEvent.Event.Notify | editor/event.py:39-43 | one call per observer, in list order, each with the same arguments |
| EditorEvent.BindThenUnbind | editor/event.py:12-30 | unbinding a function that bind had just added to a list without it restores the list |
| EditorEditable.EditableField.constructor | editor/editable.py:5-9 | stores the parent, name, read-only flag and event; there is no new value yet |
| EditorEditable.EditableField.WithDefaults | editor/editable.py:5 | the defaults are not read-only and no event |
| EditorEditable.EditableField.Update | editor/editable.py:11-14 | the new value is stored; with an event each observer is called once, in order, with (name, value); without one nobody is called |
| EditorEditable.EditableField.InheritsEditable | editor/editable.py:16-18 | AttributeError exactly when the parent lacks the attribute; otherwise true exactly when the attribute holds an Editable |
| EditorEditable.Editable.constructor | editor/editable.py:24-25 | no marked fields |
| EditorEditable.Editable.MarkEditable | editor/editable.py:27-33 | the assertion fails exactly when the attribute is missing, and nothing changes then; otherwise exactly one fresh field is appended, whose parent is this object, and the earlier fields keep their order |
| EditorEditable.Editable.MarkedFields | editor/editable.py:35-37 | the current registry: every marked field, in marking order |
| EditorInputParser.InputParser.constructor | editor/input_parser.py:7-22 | starts with the selection tool, nothing selected and nothing dragged |
| EditorInputParser.InputParser.ParseMouseLeft | editor/input_parser.py:24-39 | with the add tool: a new crossing at the click is announced; a previous selection is unselected and joined to it by a street; then the new crossing is announced as selected and becomes the selection. With the selection tool: the street data's `get_nearest` is asked, which as written answers `(None, None)`, so `dist <= 50` raises TypeError, or raises IndexError when the first street has an odd number of coordinates; nothing is selected, dragged or announced. Any other tool does nothing |
| EditorInputParser.InputParser.OnLeftRelease | editor/input_parser.py:40-41 | nothing is dragged any more; the selection is kept |
| EditorInputParser.InputParser.OnMouseMove | editor/input_parser.py:44-47 | while dragging, the selected crossing moves to the cursor and exactly one move notification is sent; its connections and traffic-light flag are kept; otherwise nothing happens |
| EditorInputParser.InputParser.OnToolChange | editor/input_parser.py:52-53 | the parser's copy of the tool becomes the new tool; selection and drag are kept |
| EditorToolbar.Toolbar.constructor | editor/toolbar.py:17-60 | the selection tool is selected and exactly its button is red, the others grey |
| EditorToolbar.Toolbar.SelectedTool | editor/toolbar.py:62-64 | the selected tool is the one tool whose button shows the selected colour |
| EditorToolbar.Toolbar.SetSelected | editor/toolbar.py:66-72 | a different tool becomes selected, the two buttons are recoloured so the colour invariant holds, and one tool_changed signal is sent; selecting the current tool again changes nothing and sends nothing |
| EditorToolbar.Toolbar.SetSelectedTool | editor/toolbar.py:74-75 | the same as assigning the selected tool |
| EditorToolbar.Toolbar.Press | editor/toolbar.py:21-49 | the Export button sends on_export and keeps the tool; any other button selects its tool |
| EditorToolbar.OneSelectedButton | editor/toolbar.py:66-72 | in every valid state the red buttons are exactly the selected tool's |
| EditorItemEditor.PlaceOne | editor/itemeditor.py:37-45 | a widget takes the next row; the row counter grows by one and the editor keeps its name |
| EditorItemEditor.Place | editor/itemeditor.py:34-45 | the widgets of one field take one row each, and what was displayed before stays in front |
| EditorItemEditor.ShowFields | editor/itemeditor.py:32-45 | showing fields only ever adds to the shared parents list |
| EditorItemEditor.DisplayItem | editor/itemeditor.py:22-45 | the item's type is recorded in the parents list before its fields are shown, and stays there |
| EditorItemEditor.Generate | editor/itemeditor.py:57-124 | every field yields exactly one widget, and the shared parents list only grows |
| EditorItemEditor.GuardedEditable | editor/itemeditor.py:59-65 | an Editable whose type is already in the parents list yields one label with the type name and no nested display |
| EditorItemEditor.PlainWidgets | editor/itemeditor.py:74-122 | integer and float fields give a Scale over the field's range, with the step as resolution (1 or 0.01 when the step is missing or zero); text and flag fields give an Entry or Checkbutton, disabled exactly when read-only; a list gives a nested editor named after the field; any other type gives the error label |
| EditorItemEditor.SiblingIsGuarded | editor/itemeditor.py:11-19 | as written, with one parents list shared and never popped: of two sibling fields holding Editables of the same new type, the first gets a nested editor and the second only the guard's label |
| EditorItemEditor.GenerateIntended | editor/itemeditor.py:59-72 | with the guard restricted to the ancestors of the field: the label appears exactly when the field's type is an ancestor |
| EditorItemEditor.SiblingsIntended | editor/itemeditor.py:59-72 | with the intended guard, two sibling fields holding Editables of the same non-ancestor type get the same nested editor |
| EditorItemEditor.ParentList.constructor | editor/itemeditor.py:11 | the default parents list starts empty |
| EditorItemEditor.ItemEditor.constructor | editor/itemeditor.py:11-20 | nothing displayed, row 0, and the given (possibly shared) parents list |
| EditorItemEditor.ItemEditor.Display | editor/itemeditor.py:22-45 | the editor ends in the state DisplayItem describes, field by field and widget by widget; an item that is neither an Editable nor a list raises TypeError after its type was recorded |
| EditorItemEditor.ItemEditor.PlaceWidgets | editor/itemeditor.py:34-45 | the editor ends as Place describes: one row per widget from the current row on, a nested editor alone and any other widget after a label with the field name; nothing else changes |
| EditorItemEditor.ItemEditor.Clear | editor/itemeditor.py:47-55 | no widgets, an empty shared parents list and row 0 |
| EditorStreetData.FirstMatch | editor/street_data.py:60-62 | the first entry for the target crossing, by identity, or none exactly when no entry names it |
| EditorStreetData.MapMatching | editor/street_data.py:26-28 | every entry for the target has its lane count changed, every other entry stays, and the length is kept |
| EditorStreetData.ConnectUnconnected | editor/street_data.py:23-24 | connect on a target that is not connected appends exactly one entry |
| EditorStreetData.ConnectConnected | editor/street_data.py:25-28 | connect on a connected target adds the lanes to every entry for it and appends nothing |
| EditorStreetData.ZeroLaneEntryIsDuplicated | editor/street_data.py:23 | an entry brought down to 0 lanes counts as not connected, so connect appends a second entry for the same crossing |
| EditorStreetData.ConnectedIntendedNoDuplicates | editor/street_data.py:22 | connect with the presence check its docstring describes keeps at most one entry per target, also after a disconnect to 0 lanes |
| EditorStreetData.DisconnectedLanes | editor/street_data.py:46-53 | disconnect keeps every entry, never goes below 0 lanes, and takes min(lanes, n) from a matching entry |
| EditorStreetData.Crossing.constructor | editor/street_data.py:13-19 | stores the position, the entry list and the traffic-light flag |
| EditorStreetData.Crossing.IsConnected | editor/street_data.py:57-63 | the lane count of the first entry for the target, or 0 when there is none |
| EditorStreetData.Crossing.Connect | editor/street_data.py:21-28 | the entry list becomes the one the as-written rule gives: append when is_connected is 0, otherwise add lanes to every entry for the target |
| EditorStreetData.Crossing.ConnectBothWays | editor/street_data.py:31-44 | with an int both sides get one appended entry with that count, never merged; with a list the first two elements are the two directions; a non-int value raises ValueError and a too short list IndexError, leaving both lists unchanged; both crossings keep their position and traffic-light flag |
| EditorStreetData.Crossing.Disconnect | editor/street_data.py:46-55 | with an int every entry for the target loses min(lanes, n) lanes; anything else raises ValueError and changes nothing; position and traffic-light flag are kept |
| EditorStreetData.NearestWaypoint | editor/street_data.py:71-87 | the intended search: the smallest squared distance of any waypoint and a street holding a waypoint at that distance; none exactly when no street has a waypoint |
| EditorStreetData.NearestWaypointFirst | editor/street_data.py:71-87 | no street before the answer's street has a waypoint at the smallest distance, so the answer is the first street that attains it |
| EditorStreetData.MinDist | editor/street_data.py:78-84 | the smallest squared distance to a waypoint of one street, attained by a waypoint |
| EditorStreetData.StreetData.constructor | editor/street_data.py:68-69 | no streets |
| EditorStreetData.StreetData.GetNearest | editor/street_data.py:71-87 | as written: (None, None) for every street list, or IndexError when the first street has an odd number of coordinates |
| EditorStreetData.NearestExistsForOneWaypoint | editor/street_data.py:71-87 | a street list for which the intended search finds a waypoint, where the code as written answers (None, None) |
| SimNodeBuilder.ValuesInOrder | simulator/src/node_builder.rs:501-507 | the values a crossing's map yields: each comes from the map, at most one per side |
| SimNodeBuilder.ValuesInOrderCovers | simulator/src/node_builder.rs:501-518 | every connection stored at a side is among the collected values |
| SimNodeBuilder.FindDirection | simulator/src/node_builder.rs:432-440 | a side found holds the item; nothing is found exactly when no side holds it |
| SimNodeBuilder.NoDirectionHolds | simulator/src/node_builder.rs:432-440 | when no side holds the item it is not among the map's values |
| SimNodeBuilder.Without | simulator/src/node_builder.rs:290-291 | `retain(c != conn)`: what is kept came from the list and is not `conn`, and every other entry is kept |
| SimNodeBuilder.WithoutAbsent | simulator/src/node_builder.rs:290-291 | retaining everything but a connection that is not there leaves the list unchanged |
| SimNodeBuilder.RetainedEntries | simulator/src/node_builder.rs:413-414 | after the retain no side points at `conn`, every side that pointed elsewhere keeps its connection, and no side is added |
| SimNodeBuilder.CrossingConnections.constructor | simulator/src/node_builder.rs:355-360 | both maps empty |
| SimNodeBuilder.CrossingConnections.Add | simulator/src/node_builder.rs:364-394 | the assertion fails when `conn` is already on the other side; otherwise an occupied slot is an error; only a free slot is filled, with `conn` at `dir` on the chosen side; the other side never changes, and nothing changes on failure |
| SimNodeBuilder.CrossingConnections.Pop | simulator/src/node_builder.rs:397-404 | returns the connection at `dir` when there is one and removes that key only; the other side is unchanged |
| SimNodeBuilder.CrossingConnections.RemoveConnection | simulator/src/node_builder.rs:407-415 | the chosen side keeps exactly the entries not pointing at `conn`; the other side is unchanged |
| SimNodeBuilder.CrossingConnections.IsConnected | simulator/src/node_builder.rs:417-424 | true exactly when some side of the chosen kind points at the node |
| SimNodeBuilder.CrossingConnections.GetDirectionForItem | simulator/src/node_builder.rs:426-441 | a returned direction holds the item; None exactly when no side holds it |
| SimNodeBuilder.CrossingConnections.HasConnection | simulator/src/node_builder.rs:443-450 | true exactly when the slot is occupied |
| SimNodeBuilder.StreetBuilder.constructor | simulator/src/node_builder.rs:230-238 | unconnected, one lane, length 100, id 0 |
| SimNodeBuilder.StreetBuilder.Connect | simulator/src/node_builder.rs:208-215 | the chosen end is overwritten with `other`; the other end, lanes, length and id are kept |
| SimNodeBuilder.StreetBuilder.RemoveConnection | simulator/src/node_builder.rs:186-199 | the input end is cleared when it is `conn`; otherwise the output end when it is `conn`; otherwise nothing changes; only one end is cleared |
| SimNodeBuilder.StreetBuilder.WithLength | simulator/src/node_builder.rs:220-223 | sets the length and nothing else |
| SimNodeBuilder.StreetBuilder.WithLanes | simulator/src/node_builder.rs:225-228 | sets the lane count and nothing else |
| SimNodeBuilder.StreetBuilder.GetOutConnections | simulator/src/node_builder.rs:152-158 | the output end, if set, and nothing else |
| SimNodeBuilder.StreetBuilder.GetAllConnections | simulator/src/node_builder.rs:159-168 | exactly the output end followed by the input end, each only when set |
| SimNodeBuilder.StreetBuilder.IsConnected | simulator/src/node_builder.rs:179-184 | true exactly when `other` is the output end |
| SimNodeBuilder.IONodeBuilder.constructor | simulator/src/node_builder.rs:296-303 | no connections, spawn rate 1, id 0 |
| SimNodeBuilder.IONodeBuilder.Connect | simulator/src/node_builder.rs:310-315 | `n` is appended to the chosen list only; rate and id kept |
| SimNodeBuilder.IONodeBuilder.SetSpawnRate | simulator/src/node_builder.rs:305-308 | sets the rate and nothing else |
| SimNodeBuilder.IONodeBuilder.RemoveConnection | simulator/src/node_builder.rs:289-292 | both lists lose every entry equal to `conn` and keep the rest |
| SimNodeBuilder.IONodeBuilder.GetOutConnections | simulator/src/node_builder.rs:266-268 | the output list |
| SimNodeBuilder.IONodeBuilder.GetAllConnections | simulator/src/node_builder.rs:269-273 | the outputs followed by the inputs |
| SimNodeBuilder.IONodeBuilder.IsConnected | simulator/src/node_builder.rs:285-287 | true exactly when `other` is one of the outputs |
| SimNodeBuilder.CrossingBuilder.constructor | simulator/src/node_builder.rs:547-553 | fresh empty connections, length 10, id 0 |
| SimNodeBuilder.CrossingBuilder.Connect | simulator/src/node_builder.rs:555-563 | the result of `CrossingConnections::add`, with the same effect on the connections |
| SimNodeBuilder.CrossingBuilder.WithLength | simulator/src/node_builder.rs:542-545 | sets the length, keeps the id |
| SimNodeBuilder.CrossingBuilder.HasConnection | simulator/src/node_builder.rs:565-567 | true exactly when the slot is occupied |
| SimNodeBuilder.CrossingBuilder.RemoveConnection | simulator/src/node_builder.rs:534-537 | both sides keep exactly their entries not pointing at `conn` |
| SimNodeBuilder.CrossingBuilder.GetOutConnections | simulator/src/node_builder.rs:501-507 | one entry per occupied output slot: every output connection is returned, and nothing else |
| SimNodeBuilder.CrossingBuilder.GetAllConnections | simulator/src/node_builder.rs:508-518 | one entry per occupied slot, outputs first: the first part holds every output connection and only those, the rest every input connection and only those |
| SimNodeBuilder.CrossingBuilder.IsConnected | simulator/src/node_builder.rs:530-532 | true exactly when an output side points at `other` |
| SimNodeBuilder.AllConnections | simulator/src/node_builder.rs:82-88 | the targets of the builder's connections, outputs first, by kind |
| SimNodeBuilder.IsConnectedTo | simulator/src/node_builder.rs:58-64 | true exactly when `other` is among the outgoing connections |
| SimNodeBuilder.IsConnectedAgrees | simulator/src/node_builder.rs:90-92 | the enum's `is_connected` gives the same answer as each kind's own `is_connected` |
| SimNodeBuilder.SetId | simulator/src/node_builder.rs:110-116 | the id is set; the connections and the kind's settings (lane count and lane length, spawn rate, or side length) are unchanged |
| SimNodeBuilder.RemoveConnectionFrom | simulator/src/node_builder.rs:118-124 | each kind's removal rule is applied to the connections; the id and the kind's settings (lane count and lane length, spawn rate, or side length) are kept |
| SimSimulationBuilder.FindId | simulator/src/simulation_builder.rs:420-424 | the first position holding the id; None exactly when no builder has it |
| SimSimulationBuilder.LocateEndsSpec | simulator/src/simulation_builder.rs:186-198 | each end found names a builder with the asked id; the first end is missing exactly when its id is absent, the second also when both ids are equal, because the else-branch never records a match of the first id |
| SimSimulationBuilder.SelfConnectionNotFound | simulator/src/simulation_builder.rs:189-201 | asking for a street from a node to itself is refused as a missing node |
| SimSimulationBuilder.IncreasingAppend | simulator/src/simulation_builder.rs:150-152 | handing out the counter and then advancing it keeps the ids increasing and below the counter |
| SimSimulationBuilder.IncreasingUnique | simulator/src/simulation_builder.rs:150-152 | ids handed out by the counter are unique |
| SimSimulationBuilder.SimulatorBuilder.constructor | simulator/src/simulation_builder.rs:161-171 | no nodes, no iteration limit, no cache, delay 0, next id 0, dt 0.1, CO2 factor 0.5; the empty network is well formed |
| SimSimulationBuilder.SimulatorBuilder.AddNode | simulator/src/simulation_builder.rs:389-399 | the cache is dropped, the node gets the next id and is appended with its connections unchanged; the counter advances by one; earlier nodes keep their ids and connections, so the ids stay increasing; appending a node without connections to a well-formed network keeps it well formed |
| SimSimulationBuilder.SimulatorBuilder.WithDelay | simulator/src/simulation_builder.rs:401-404 | sets the delay and nothing else |
| SimSimulationBuilder.SimulatorBuilder.WithDt | simulator/src/simulation_builder.rs:406-409 | sets the time step and nothing else |
| SimSimulationBuilder.SimulatorBuilder.WithMaxIter | simulator/src/simulation_builder.rs:411-414 | sets the iteration limit and nothing else |
| SimSimulationBuilder.SimulatorBuilder.DropCache | simulator/src/simulation_builder.rs:384-386 | the cache is gone and nothing else changes |
| SimSimulationBuilder.SimulatorBuilder.GetNode | simulator/src/simulation_builder.rs:420-424 | the first listed builder with the id, or None when there is none |
| SimSimulationBuilder.SimulatorBuilder.FindEnds | simulator/src/simulation_builder.rs:186-198 | the search loop finds what `LocateEnds` describes |
| SimSimulationBuilder.SimulatorBuilder.ConnectWithStreet | simulator/src/simulation_builder.rs:177-258 | a missing end is an IndexError that changes nothing; once both ends are found the id is spent; a street end panics; a taken crossing slot at the start is a ConnectionError that changes nothing else, one at the end a ConnectionError that leaves the street linked into the start; on success a fresh street from the start to the end with the given lanes, length and id is linked into both ends and appended, and a well-formed network stays well formed; every other builder keeps its connections and id, and every other street its lane count and lane length |
| SimSimulationBuilder.SimulatorBuilder.ConnectFound | simulator/src/simulation_builder.rs:202-258 | the same outcome once both ends are known; on success a well-formed network stays well formed |
| SimSimulationBuilder.NewStreet | simulator/src/simulation_builder.rs:208-213 | a fresh street from the first node to the second, with the given lanes, length and id |
| SimSimulationBuilder.LinkNewStreet | simulator/src/simulation_builder.rs:208-254 | for each stage of the linking, which builders were changed and how, and the error reported |
| SimSimulationBuilder.LinkEnds | simulator/src/simulation_builder.rs:219-254 | the start is linked unless it panics or its slot is taken; the end is linked only after the start was |
| SimSimulationBuilder.LinkStart | simulator/src/simulation_builder.rs:219-236 | an IONode lists the street as outgoing; a crossing takes it in its outgoing slot unless the slot is taken; a street panics |
| SimSimulationBuilder.SimulatorBuilder.RemoveNode | simulator/src/simulation_builder.rs:451-548 | an index past the end is an error that changes nothing; without the cascade, or for a street, only that builder is removed; with the cascade every listed builder connected to the node is scrubbed from its own connections and removed, the rightmost first; a well-formed network stays well formed |
| SimSimulationBuilder.SimulatorBuilder.RemoveAlone | simulator/src/simulation_builder.rs:536 | without the cascade, or on a street, only entry i is taken out and returned; the other builders keep their order and connections, so the nodes at a removed street's ends keep their link to it; ids stay increasing |
| SimSimulationBuilder.SimulatorBuilder.RemoveCascading | simulator/src/simulation_builder.rs:465-547 | the builder and the connected ones are returned, the node first and the others from the rightmost; the kept builders are the others, in order, with the cascade's connections |
| SimSimulationBuilder.SimulatorBuilder.RemoveNodeAndConnectedById | simulator/src/simulation_builder.rs:429-444 | an unknown id is an error that changes nothing; otherwise `remove_node` with the cascade at the first builder with that id |
| SimSimulationBuilder.RemoveConnectionAt | simulator/src/simulation_builder.rs:487-493 | `remove_connection` changes the connections of that one builder only |
| SimSimulationBuilder.ScrubLinks | simulator/src/simulation_builder.rs:486-495 | every connection of the removed street other than the node forgets the street, as `Scrub` states |
| SimSimulationBuilder.ScrubStep | simulator/src/simulation_builder.rs:488-493 | one connection of the removed street forgets the street unless it is the removed node itself, as `ScrubOne` states; ids are kept |
| SimSimulationBuilder.CascadeRemoval | simulator/src/simulation_builder.rs:477-500 | the filter collects exactly the ascending positions of connected builders and leaves the connections `CascadeFrom` describes |
| SimSimulationBuilder.RemovePicked | simulator/src/simulation_builder.rs:538-546 | removing the collected positions from the right keeps exactly the builders that were not picked and returns the picked ones from the rightmost |
| SimSimulationBuilder.RemoveWithCascade | simulator/src/simulation_builder.rs:461-547 | the list, the connections and the ids after a cascading removal |
| SimSimulationBuilder.CascadeWellFormed | simulator/src/simulation_builder.rs:465-547 | a cascading removal of a node or crossing keeps the network well formed |
| SimSimulationBuilder.AddKeepsWellFormed | simulator/src/simulation_builder.rs:389-399 | appending a builder that is not yet listed and has no connections keeps a network well formed |
| SimSimulationBuilder.ConnectKeepsWellFormed | simulator/src/simulation_builder.rs:208-257 | linking a new street out of one listed builder and into another, when both slots are free, and appending it keeps a network well formed |
| SimSimulationBuilder.LinkedKeepsWellFormed | simulator/src/simulation_builder.rs:208-257 | the same, for the connections `LinkedViews` describes after a successful `connect_with_street` |
| SimSimulationBuilder.LinkedViewsShown | simulator/src/simulation_builder.rs:208-257 | when the two ends hold the linked connections, every other builder keeps its own and the street runs from the start to the end, the builders' connections are exactly those `LinkedViews` describes |
| SimCascade.ViewWithoutShrinks | simulator/src/node_builder.rs:118-124 | `remove_connection(r)` adds no target, keeps every other target, drops `r` from an IONode or crossing, and keeps the kind |
| SimCascade.ScrubShrinks | simulator/src/simulation_builder.rs:486-495 | scrubbing a street adds no target, keeps every other target and keeps each kind |
| SimCascade.ScrubUntouched | simulator/src/simulation_builder.rs:486-495 | a builder that is not a connection of the street, or is the removed node, keeps its connections |
| SimCascade.ScrubClears | simulator/src/simulation_builder.rs:486-495 | a connection of the street other than the node, if not itself a street, no longer refers to it |
| SimCascade.CascadeShrinks | simulator/src/simulation_builder.rs:477-500 | the whole cascade adds no target, only removes targets that the node was connected to, and keeps each kind |
| SimCascade.CascadeClears | simulator/src/simulation_builder.rs:484-495 | after the cascade no non-street builder other than the node refers to a removed street it was linked to |
| SimCascade.ScrubKeepsPicked | simulator/src/simulation_builder.rs:486-495 | when removed streets do not refer to each other, scrubbing one leaves the others as they were |
| SimCascade.StreetsApart | simulator/src/simulation_builder.rs:465-536 | in a network where streets only join non-streets, no two removed streets refer to each other |
| SimCascade.PickedFromSpec | simulator/src/simulation_builder.rs:477-500 | the collected indices are ascending and are exactly the positions of builders connected to the node |
| SimCascade.UnpickedMembers | simulator/src/simulation_builder.rs:538-546 | a builder is kept exactly when it was listed and not connected to the node |
| SimCascade.KeptClosed | simulator/src/simulation_builder.rs:465-547 | after the cascade a kept builder refers only to kept builders |
| SimCascade.RemovalKeepsWellFormed | simulator/src/simulation_builder.rs:451-548 | removing an IONode or crossing with its streets from a well-formed network leaves a well-formed network: ids distinct, links symmetric, streets only between non-streets, no reference to a removed builder |
| SimCascade.DropEnds | simulator/src/simulation_builder.rs:543-546 | before the removal loop nothing is removed; after it exactly the picked builders are, in the order of `Chosen` |
| SimCascade.DropStep | simulator/src/simulation_builder.rs:544-546 | each round, right to left, removes one more picked builder without moving the others |
| SimCascade.StreetRemovalDangles | simulator/src/simulation_builder.rs:461-536 | removing a linked street from a well-formed network leaves a node that refers to a builder no longer listed |
| SimCascade.StreetRemovalScrubbed | simulator/src/simulation_builder.rs:486-495 | scrubbing the street from its ends before dropping it keeps the network well formed |
| SimBuilderJson.JsonIds | simulator/src/simulation_builder.rs:29-55 | the ids the records carry, in record order |
| SimBuilderJson.IdOfTarget | simulator/src/simulation_builder.rs:579-581 | looking an id up among the new builders and writing the found builder's id back gives the id |
| SimBuilderJson.IdsOfTargets | simulator/src/simulation_builder.rs:596-607 | resolving a list of ids and writing it back gives the same list |
| SimBuilderJson.MapIdsOfTargets | simulator/src/simulation_builder.rs:578-593 | resolving a direction map of ids and writing it back gives the same map |
| SimBuilderJson.TargetInValues | simulator/src/simulation_builder.rs:586-592 | a resolved builder is already attached on a side exactly when its id is among that side's ids, so the assertion of `add` is a condition on the record |
| SimBuilderJson.ClosedSerialisable | simulator/src/simulation_builder.rs:635-674 | a builder list whose connections all point at listed builders can be serialised |
| SimBuilderJson.RecordOf | simulator/src/simulation_builder.rs:636-672 | the record for one builder carries its id |
| SimBuilderJson.RecordsOf | simulator/src/simulation_builder.rs:635-674 | one record per builder, with the builders' ids in order |
| SimBuilderJson.RecordOfResolved | simulator/src/simulation_builder.rs:575-674 | a builder with a record's settings and the record's connections resolved serialises back to that record |
| SimBuilderJson.RecordsOfResolved | simulator/src/simulation_builder.rs:575-674 | builders made from records, reconnected by id, serialise back to the records |
| SimBuilderJson.Serialize | simulator/src/simulation_builder.rs:632-682 | one record per builder with its id, connections written as target ids; the counter, step and delay copied |
| SimBuilderJson.ToUnfinishedBuilder | simulator/src/simulation_builder.rs:58-81 | a fresh builder of the record's kind with its settings and id and no connections |
| SimBuilderJson.UnfinishedBuilders | simulator/src/simulation_builder.rs:562-566 | one fresh unconnected builder per record, in record order, sharing no objects |
| SimBuilderJson.ConnectIONode | simulator/src/simulation_builder.rs:595-609 | succeeds exactly when every incoming and outgoing id exists; then both lists hold the first builders with those ids, in record order |
| SimBuilderJson.ConnectSide | simulator/src/simulation_builder.rs:596-608 | one side's ids resolved in order; a missing id is the `unwrap` panic; the other side is untouched |
| SimBuilderJson.ConnectStreet | simulator/src/simulation_builder.rs:610-623 | succeeds exactly when each given end id exists; the given ends are set to their builders, absent ones left unset |
| SimBuilderJson.ConnectCrossing | simulator/src/simulation_builder.rs:577-594 | succeeds exactly when every id exists and no builder is named both as input and output; then both sides hold the resolved maps |
| SimBuilderJson.ConnectInputs | simulator/src/simulation_builder.rs:578-585 | the inputs, in any order, never panic or find a slot taken; they resolve exactly when every id exists |
| SimBuilderJson.ConnectOutputs | simulator/src/simulation_builder.rs:586-593 | the outputs, in any order, panic exactly on a missing id or a builder already attached as an input |
| SimBuilderJson.ConnectRecord | simulator/src/simulation_builder.rs:576-624 | one record's connections resolve exactly when the record is loadable |
| SimBuilderJson.ConnectRecords | simulator/src/simulation_builder.rs:575-625 | the second loop completes exactly when every record is loadable, and then every builder holds its record's resolved connections |
| SimBuilderJson.ConnectAt | simulator/src/simulation_builder.rs:575-625 | one round of the second loop touches only the builder at that position |
| SimBuilderJson.Deserialize | simulator/src/simulation_builder.rs:557-627 | loads exactly when every record is loadable; the result has one builder per record with the records' ids, the representation's counter, delay and step, no iteration limit; serialising it gives back the representation |
| SimBuilderJson.NewBuilderFor | simulator/src/simulation_builder.rs:567-570 | a new builder with the representation's delay, step and counter |
| SimBuildGrid.FlatInjective | simulator/src/build_grid.rs:22-38 | distinct cells get distinct row-major indices |
| SimBuildGrid.FlatUp | simulator/src/build_grid.rs:70-93 | the cell above (i, j) is n places earlier |
| SimBuildGrid.KindRowsAt | simulator/src/build_grid.rs:22-38 | the node at index i·n+j is an IONode exactly when cell (i, j) lies on the border |
| SimBuildGrid.AddBlank | simulator/src/build_grid.rs:30-35 | one new IONode or crossing is appended with the next id and no connections; earlier nodes unchanged |
| SimBuildGrid.PlaceCell | simulator/src/build_grid.rs:24-36 | at a corner an IONode is added and the turn ends; elsewhere an IONode on the border, a crossing inside |
| SimBuildGrid.PlaceRow | simulator/src/build_grid.rs:23-37 | row i adds n nodes whose kinds follow the border rule |
| SimBuildGrid.PlaceGrid | simulator/src/build_grid.rs:22-38 | the first loop adds exactly n·n fresh nodes in row-major order, of the kinds the border rule gives |
| SimBuildGrid.CellEnds | simulator/src/build_grid.rs:51-112 | every street of a cell joins two different grid nodes |
| SimBuildGrid.CellOwns | simulator/src/build_grid.rs:51-112 | every slot a cell's street uses is owned by that cell, and within a cell no two streets share a start side or an end side |
| SimBuildGrid.RowOwners | simulator/src/build_grid.rs:40-113 | the streets of the first j cells of a row are owned by those cells |
| SimBuildGrid.RowsOwners | simulator/src/build_grid.rs:39-114 | the streets of the first i rows are owned by cells of those rows |
| SimBuildGrid.SlotsFree | simulator/src/build_grid.rs:53-111 | each street asks for a start slot and an end slot that no earlier street used |
| SimBuildGrid.GridTwoWay | simulator/src/build_grid.rs:52-111 | every street joins grid neighbours, and each joined pair gets a street in each direction |
| SimBuildGrid.GridAvoidsCorners | simulator/src/build_grid.rs:48-50 | no street starts or ends at a corner IONode |
| SimBuildGrid.CellFits | simulator/src/build_grid.rs:51-112 | each street of a cell fits after all the streets laid before it |
| SimBuildGrid.Ready | simulator/src/simulation_builder.rs:186-254 | before a fitting street, `connect_with_street` finds both ends at their ids and both slots are free |
| SimBuildGrid.LaidStep | simulator/src/simulation_builder.rs:208-257 | laying a fitting street keeps the grid invariant, with the street linked at both ends and appended |
| SimBuildGrid.ConnectFree | simulator/src/simulation_builder.rs:177-258 | with both ends found and both slots free the call connects: the street, one lane of length `street_len`, is linked into both ends and appended with the next id; every other street keeps its lane count and lane length |
| SimBuildGrid.Lay | simulator/src/build_grid.rs:53-59 | one `connect_with_street(..).expect(..)` connects, so the `expect` does not fire; every street after the grid nodes has one lane of length `street_len` |
| SimBuildGrid.LayStreets | simulator/src/build_grid.rs:51-112 | a cell's calls, in order, all connect, each street with one lane of length `street_len` |
| SimBuildGrid.LayCell | simulator/src/build_grid.rs:41-112 | nothing at a corner or on the top or left border; both ways to the left neighbour on the right border; both ways to the node above on the bottom border; both ways to both inside; each street with one lane of length `street_len` |
| SimBuildGrid.LayRow | simulator/src/build_grid.rs:40-113 | one row of the second loop lays that row's streets, each with one lane of length `street_len` |
| SimBuildGrid.LayGrid | simulator/src/build_grid.rs:39-114 | the second loop lays every street of the plan and none fails; every street has one lane of length `street_len` |
| SimBuildGrid.BuildGridSim | simulator/src/build_grid.rs:9-116 | delay 0 and at most 10000 iterations; n·n nodes in row-major order, IONodes exactly on the border, then every planned street, each with one lane of length `street_len` and linked at both ends; no `expect` fires |
| SimNode.CanPass | simulator/src/node.rs:363-431 | the phase table: S0 lets N reach S and W and S reach N and E; S1 lets W reach S and E and E reach W and N; S2 only N to E and S to W; S3 only W to N and E to S; never a U-turn |
| SimNode.Reach | simulator/src/node.rs:349-431 | panics (None) exactly when the in-node is not an input or the out-node not an output of the crossing; otherwise the table entry for the sides they occupy |
| SimNode.ReachUnique | simulator/src/node.rs:349-431 | when each node occupies one side, the answer is the table entry for exactly those sides |
| SimNode.FindDirectionUnique | simulator/src/node_builder.rs:426-441 | a node that occupies a single side is found at that side |
| SimNode.NnInputsOnePerBlock | simulator/src/node.rs:216-243 | each block of four has at most one entry set, and only towards the output side of the end car's target |
| SimNode.NnInputsUnconnected | simulator/src/node.rs:223-239 | a side without an input street contributes four zeros and cannot panic |
| SimNode.NnInputsConnected | simulator/src/node.rs:224-235 | a connected side whose end car heads for an output sets one entry of its block |
| SimNode.Crossing.constructor | simulator/src/node.rs:199-208 | no connections, no cars, id 0, phase S0, no network |
| SimNode.Crossing.CarStatus | simulator/src/node.rs:303-305 | one status per car on the crossing's lane, in lane order, all on lane 0 |
| SimNode.Crossing.CalculateNnInputs | simulator/src/node.rs:216-243 | sixteen values in N, E, S, W blocks; entry 4k+o is 1 exactly when the end car of the street entering from side k heads for the output on side o, else 0; panics exactly when such a target is not an output |
| SimNode.Crossing.SetNeuralNetwork | simulator/src/node.rs:245-249 | stored exactly when the first neuron of the first layer reads sixteen inputs; otherwise the assertion fails and nothing changes |
| SimNode.Crossing.RemoveNeuralNetwork | simulator/src/node.rs:276-279 | returns the network held (none is the error case) and leaves the slot empty; nothing else changes |
| SimNode.AbsorbedStatuses | simulator/src/node.rs:495-504 | one delete status per car, in car order, carrying the car's id |
| SimNode.IONode.constructor | simulator/src/node.rs:475-488 | unconnected, nothing absorbed, cached or recorded, recording off, spawn counter 0, id 0 |
| SimNode.IONode.Connect | simulator/src/node.rs:491-493 | appends the node and changes nothing else |
| SimNode.IONode.AddCar | simulator/src/node.rs:507-513 | one more absorbed car; the car is recorded exactly when recording is on |
| SimNode.IONode.SetCarRecording | simulator/src/node.rs:516-518 | sets the recording flag only |
| SimNode.IONode.GetCarStatus | simulator/src/node.rs:495-504 | drains the recorded cars, returning one delete status per car in recording order |
| SimNode.IONode.UpdateCars | simulator/src/node.rs:521-542 | when the draw succeeds and a car is delivered it is cached under the spawn counter, whose old value is returned, and the counter advances; otherwise nothing changes |
| SimNode.IONode.RemoveCar | simulator/src/node.rs:117-123 | the cached car at that index is taken out; a missing key is the `unwrap` panic |
| SimNode.LocateSpec | simulator/src/node.rs:597-644 | flat index = cars on earlier lanes + position on the lane; `Locate` is the inverse of that numbering, and fails exactly past the total |
| SimNode.PrefixMonotone | simulator/src/node.rs:597-612 | the cars on earlier lanes grow with the lane number |
| SimNode.RemoveAt | simulator/src/node.rs:639 | the element at j leaves, the others keep their order |
| SimNode.Street.constructor | simulator/src/node.rs:567-574 | one empty lane, unconnected, id 0 |
| SimNode.Street.Connect | simulator/src/node.rs:579-586 | overwrites the slot of the given side only |
| SimNode.Street.UpdateMovables | simulator/src/node.rs:613-623 | the lanes' finished positions, lane by lane, each raised by the cars on earlier lanes |
| SimNode.FlatFromLocates | simulator/src/node.rs:597-623 | every reported flat index names, through `Locate`, a finished car on the lane that reported it |
| SimNode.Street.RemoveCar | simulator/src/node.rs:634-644 | the car with that flat index leaves its lane, others keep their order; an index past the last car is the "Invalid Index!" panic and changes nothing |
| SimNode.GetCarByIndex | simulator/src/node.rs:646-656 | the car with flat index i, the same one `remove_car(i)` removes; none past the total |
| SimNode.GetCarByIndexMisses | simulator/src/node.rs:651 | on lanes [[a], [b, c]] flat index 1 is b, while the code as written returns c |
| SimNode.Street.AddMovable | simulator/src/node.rs:659-675 | the car enters lane 0 at position 0; a street with no lane panics and is unchanged |
| SimNode.Street.GetCarStatus | simulator/src/node.rs:677-687 | one status per car, lane by lane, the status of the car at flat index k at position k, with its lane number |
| SimNode.StatusIndexed | simulator/src/node.rs:677-687 | the statuses sit at their cars' flat indices and number exactly the cars |
| SimPathfinding.SetPath | simulator/src/pathfinding.rs:76-78 | the path is replaced and the car keeps its id |
| SimPathfinding.Advance | simulator/src/pathfinding.rs:172-178 | pops the node just entered (the last element), keeping the rest in order; an empty path stays empty with only a warning |
| SimPathfinding.OvernextNodeId | simulator/src/pathfinding.rs:180-186 | the second-to-last path element; the panic (None) happens exactly on a path shorter than two |
| SimPathfinding.AdvanceShiftsNext | simulator/src/pathfinding.rs:172-186 | after advancing, the next node is what was the overnext node |
| SimPathfinding.DecideNext | simulator/src/pathfinding.rs:83-163 | a dead connection fails first; then an empty path; then a next node that is not among the connections; a street or IO node next is moved onto; any move is onto the path's last node, which is connected |
| SimPathfinding.DecideNextAtCrossing | simulator/src/pathfinding.rs:136-161 | before a crossing: panics exactly when the overnext node is missing, is not an output of the crossing, or the current node is not its input; otherwise moves exactly when the phase lets the car pass from its input side to its output side, and waits otherwise |
| SimPathfinding.DecideThenAdvance | simulator/src/pathfinding.rs:83-178 | moving on and then advancing consumes exactly the node moved onto |
| SimPathfinding.AllExcept | simulator/src/pathfinding.rs:268-273 | as documented: every connection index below the count except i, one fewer when i is in range |
| SimPathfinding.ExceptLength | simulator/src/pathfinding.rs:268-273 | leaving out one index in range shortens the range by exactly one |
| SimPathfinding.AllExceptDropsLast | simulator/src/pathfinding.rs:270 | with three connections and i = 0 the documented answer is [1, 2], while the range as written ends one early and gives [1] |
| SimPathfinding.IndexOf | simulator/src/pathfinding.rs:333-338 | the first position of the id; none exactly when it is absent (the "Input id does not exist" panic) |
| SimPathfinding.Destination | simulator/src/pathfinding.rs:331-346 | the drawn end node is another IO node than the start (when ids are distinct); fails exactly when the start is no IO node or the remaining weights cannot be sampled |
| SimPathfinding.RoutePath | simulator/src/pathfinding.rs:382-386 | the route reversed with its start dropped: one element shorter, next node last |
| SimPathfinding.RoutePathEnds | simulator/src/pathfinding.rs:382-386 | the car next enters the route's second node and finishes at its last |
| SimPathfinding.MovableServer.constructor | simulator/src/pathfinding.rs:316-322 | nothing indexed, empty cache, car count 0 |
| SimPathfinding.MovableServer.GenerateMovable | simulator/src/pathfinding.rs:328-397 | a cached start/end pair gives a copy of the cached car under a fresh id; otherwise a found route gives a new car with the route's path, cached under the pair; no route is the NoPathError and changes nothing; a new route through a node without a `node_lens` entry, or no destination to draw, is the panic; every car gets a distinct id as the count advances |
| SimSimulation.RankBelowCount | simulator/src/simulation.rs:115-123 | the crossing at any index pops a network whose position is below the number of crossings |
| SimSimulation.CountMonotone | simulator/src/simulation.rs:115-123 | the crossings counted in a prefix never exceed those in a longer prefix |
| SimSimulation.CrossingNnsAt | simulator/src/simulation.rs:115-142 | the network slot of the crossing at index j is listed at its rank among the crossings |
| SimSimulation.CrossingNnsAccepted | simulator/src/simulation.rs:115-142 | when every crossing holds a network reading sixteen inputs, so does every listed slot |
| SimSimulation.SomesAll | simulator/src/simulation.rs:128-142 | with no empty slot, collecting the networks drops nothing and keeps node order |
| SimSimulation.PrefixSlots | simulator/src/simulation.rs:115-123 | after handing out over a prefix, its crossings hold the first networks in order |
| SimSimulation.HandOut | simulator/src/simulation.rs:115-123 | succeeds exactly when there are at least as many networks as crossings and each one handed reads sixteen inputs; then each crossing holds the network of its rank; no crossing's other state changes |
| SimSimulation.HandOutAt | simulator/src/simulation.rs:117-122 | one crossing pops the top of the reversed stack (the next network in order); the `expect` or the assertion failing means the whole hand-out cannot succeed |
| SimSimulation.Simulator.constructor | simulator/src/simulation.rs:46-63 | the simulator holds the given nodes, iteration bound, delay and step |
| SimSimulation.Simulator.SetNeuralNetworks | simulator/src/simulation.rs:115-123 | the k-th crossing in node order receives the k-th network; fails exactly when networks run out or one does not read sixteen inputs; the crossings' slots are then the first networks in order |
| SimSimulation.TakeNnAt | simulator/src/simulation.rs:130-140 | one crossing's network is taken out and appended, a crossing without one only warns |
| SimSimulation.Simulator.RemoveAllNeuralNetworks | simulator/src/simulation.rs:125-143 | the crossings' networks in node order, skipping crossings without one; every crossing is left without a network and otherwise unchanged |
| SimSimulation.Simulator.RemoveThenSet | simulator/src/simulation.rs:115-143 | removing all networks and handing them back succeeds and restores every crossing's network, when each held an acceptable one |
| SimSimulation.IdsIndexed | simulator/src/simulation.rs:196-208 | the id list holds each node's id at its index |
| SimSimulation.StatusesIndexed | simulator/src/simulation.rs:196-208 | the status list holds each node's status at its index |
| SimSimulation.StatusMapSpec | simulator/src/simulation.rs:196-208 | every key is the id of a node with a non-empty status; with distinct ids a node appears exactly when its status is non-empty, bound to that status |
| SimSimulation.CollectStatus | simulator/src/simulation.rs:199-206 | the loop inserts exactly the non-empty statuses, later ids overwriting earlier ones |
| SimSimulation.DrainAt | simulator/src/simulation.rs:200-205 | node j reports its own id and status, an IONode is drained, nodes after j untouched |
| SimSimulation.NodeCarStatus | simulator/src/node.rs:495-504 | the node's status before the call; only an IONode changes, losing its recorded cars and nothing else |
| SimSimulation.Simulator.GetCarStatus | simulator/src/simulation.rs:193-208 | the map from node id to non-empty status, over all nodes in order; every IONode is drained of its recorded cars and keeps its id |
| SimSimulation.Simulator.SimulationLoop | simulator/src/simulation.rs:155-184 | with a bound m the stop test `counter > m` comes before each iteration, so exactly m + 1 iterations run |
| SimSimulation.Max | simulator/src/simulation.rs:74-79 | an element of the finished indices no smaller than any other |
| SimSimulation.MaxOf | simulator/src/simulation.rs:74-79 | the scan over the set finds that largest element |
| SimSimulation.AscendingSpec | simulator/src/simulation.rs:74-76 | the sorted finished indices: exactly the set's elements, strictly increasing |
| SimSimulation.NodeVisits | simulator/src/simulation.rs:79 | node i's finished indices, from the largest down |
| SimSimulation.VisitsOrdered | simulator/src/simulation.rs:70-79 | nodes are visited by increasing index and, within a node, finished indices strictly decrease (rightmost removed first) |
| SimSimulation.VisitsComplete | simulator/src/simulation.rs:70-79 | every finished index of every node is visited, and nothing else |
| SimSimulation.NodeOrder | simulator/src/simulation.rs:74-79 | taking the largest remaining index repeatedly visits one node's finished cars rightmost first |
| SimSimulation.VisitOrder | simulator/src/simulation.rs:69-112 | the loop of `update_all_nodes` visits node by node, each node rightmost first |
| SimSimulation.LeavingAgrees | simulator/src/simulation.rs:80-90 | which cars leave depends only on the cars at the finished indices |
| SimSimulation.MoveCarsMovesDecided | simulator/src/simulation.rs:79-108 | with strictly increasing finished indices, the corrected loop never fails, hands on exactly the cars that decided to move, advanced, rightmost first, and keeps the others |
| SimSimulation.KeptAndLeaving | simulator/src/simulation.rs:79-108 | the kept cars and the cars handed on are together exactly the node's cars before the update |
| SimSimulation.MoveCarsRemovesWrongCar | simulator/src/simulation.rs:93 | three cars with only car 2 finished and free to go: as written car 0 is handed on, the corrected loop hands on car 2 |
| ArtInt.NewTopology | art-int/src/layer_topology.rs:14-19 | the given size with the ReLu activation |
| ArtInt.NewNeuron | art-int/src/neuron.rs:11-15 | panics exactly on an empty weight list; otherwise keeps bias and weights |
| ArtInt.NewLayer | art-int/src/layer.rs:45-55 | panics exactly when a non-SoftMax layer has no neurons or the neurons' weight counts differ; otherwise keeps neurons and activation |
| ArtInt.LayerCount | art-int/src/layer.rs:57-68 | a layer of `out` neurons of `in` weights takes out * (in + 1) values |
| ArtInt.NeuronsWeightsLength | art-int/src/lib.rs:58-64 | a layer of that shape flattens to exactly that many values |
| ArtInt.WeightsLength | art-int/src/lib.rs:58-64 | a network of the topology's shape flattens to exactly `WeightCount` values |
| ArtInt.FitsAt | art-int/src/lib.rs:40-43 | layer k has topology[k+1] neurons of topology[k] weights and topology[k+1]'s activation |
| ArtInt.Weights | art-int/src/lib.rs:58-64 | layer by layer and neuron by neuron: the first layer's values come first, led by the bias of its first neuron |
| ArtInt.DecodeNeuron | art-int/src/neuron.rs:27-35 | the first value is the bias and the next n the weights, in order; the rest is left over; panics exactly when n is 0 (the `new` assertion) or fewer than n + 1 values remain |
| ArtInt.DecodeNeuronsOk | art-int/src/layer.rs:63-65 | decoding `out` neurons succeeds exactly when they have inputs and enough values remain |
| ArtInt.DecodeNeuronsValues | art-int/src/layer.rs:63-65 | the decoded neurons have the requested shape and their flattened values are a prefix of the input |
| ArtInt.DecodeNeuronsSpec | art-int/src/layer.rs:57-68 | both of the above in one statement |
| ArtInt.DecodeLayerSpec | art-int/src/layer.rs:57-68 | a layer decodes exactly when `Layer::new` accepts its shape and enough values remain; it then consumes exactly its own values in order |
| ArtInt.DecodeLayersSpec | art-int/src/lib.rs:40-43 | the layers decode exactly when each is buildable and enough values remain; they then fit the topology and consume a prefix of the values |
| ArtInt.DecodeNetwork | art-int/src/lib.rs:35-50 | a network `from_weights` builds has the topology's shape, and `weights()` gives back exactly the values it was built from |
| ArtInt.DecodeNetworkSpec | art-int/src/lib.rs:35-50 | `from_weights` succeeds exactly for at least two buildable topology entries and exactly `WeightCount` values (too few is "not enough weights", too many "too many weights") |
| ArtInt.NeuronsDetermined | art-int/src/lib.rs:58-64 | two layers of one shape with the same flattened values are equal |
| ArtInt.LayersDetermined | art-int/src/lib.rs:58-64 | two layer lists fitting one topology with the same flattened values are equal |
| ArtInt.RebuildFromWeights | art-int/src/lib.rs:35-64 | rebuilding a network from its own values gives the same network |
| ArtInt.FromWeightsExample | art-int/src/lib.rs:202-217 | topology [3, 2] and eight values rebuild and flatten back to the same eight values |
| ArtInt.WeightIter.constructor | art-int/src/lib.rs:38 | the iterator starts at the first value |
| ArtInt.WeightIter.Next | art-int/src/neuron.rs:28-31 | the first remaining value is taken, or none at the end |
| ArtInt.NeuronFromWeights | art-int/src/neuron.rs:27-35 | pulling from the shared iterator does what `DecodeNeuron` says, leaving exactly the unread values |
| ArtInt.DecodeNeuronsSnoc | art-int/src/layer.rs:63-65 | one more neuron extends the decoded prefix by it |
| ArtInt.DecodeNeuronsPanics | art-int/src/layer.rs:63-65 | once a neuron panics, any longer layer panics too |
| ArtInt.LayerFromWeights | art-int/src/layer.rs:57-68 | pulling `out` neurons then checking with `new` does what `DecodeLayer` says, leaving exactly the unread values |
| ArtInt.DecodeLayersStep | art-int/src/lib.rs:40-43 | building the next window's layer moves it from the remaining decoding to the layers built |
| ArtInt.NetworkFromWeights | art-int/src/lib.rs:35-50 | the iterator-driven construction agrees with `DecodeNetwork`: succeeds exactly for a buildable topology and exactly `WeightCount` values, fits the topology, and flattens back to the input |
| ArtInt.NetworkFromLayers | art-int/src/lib.rs:38-49 | pulling one layer per window of two topology entries from the shared iterator, then checking that no value is left, does what `DecodeNetwork` says |
| ArtInt.RandomNeuron | art-int/src/neuron.rs:17-25 | n drawn weights; panics exactly when n is 0 |
| ArtInt.RandomLayer | art-int/src/layer.rs:70-76 | `out` neurons of `in` weights each; panics exactly when `Layer::new` rejects that shape |
| ArtInt.RandomLayers | art-int/src/lib.rs:27-30 | one random layer per window; succeeds exactly when every window is buildable, and then fits the topology |
| ArtInt.RandomNetwork | art-int/src/lib.rs:24-33 | asserts two entries at least; the network then fits the topology |
| ArtInt.ZipPick | art-int/src/lib.rs:72-81 | as long as the shorter parent; every slot is the left or right parent's value at that slot as the coin says |
| ArtInt.CrossoverNeurons | art-int/src/lib.rs:69-83 | keeps n1's weight count; bias and each weight are the left parent's value at that slot where the coin says so and the right parent's otherwise; panics exactly when n1 has no weights or n2 fewer than n1 |
| ArtInt.CrossoverLayerNeurons | art-int/src/lib.rs:91-93 | succeeds exactly when each pair of neurons at one position can be crossed; as many neurons as the shorter layer, each keeping the left neuron's width |
| ArtInt.CrossoverLayerNeuronsZip | art-int/src/lib.rs:91-93 | neurons are paired by position: neuron j of the child takes each value from neuron j of the left or the right layer, as coin(j, k) says |
| ArtInt.CrossoverLayers | art-int/src/lib.rs:88-95 | as many layers as the shorter parent; layer i keeps the left layer's activation and has as many neurons as the shorter of the two layers at i |
| ArtInt.Crossover | art-int/src/lib.rs:86-97 | the child has as many layers as the shorter parent, each with the left parent's activation |
| ArtInt.CrossoverKeepsShape | art-int/src/lib.rs:86-97 | crossing two networks of a buildable topology's shape never panics and keeps that shape |
| ArtInt.CrossoverLayersOk | art-int/src/lib.rs:88-95 | the same, layer by layer |
| ArtInt.CrossoverNeuronsSlots | art-int/src/lib.rs:91-93 | two neuron lists of one shape cross without a panic, and every flattened value of the child is the value at the same position of one parent |
| ArtInt.CrossoverLayersSlots | art-int/src/lib.rs:88-95 | the same, layer by layer, for layers that fit one buildable topology |
| ArtInt.CrossoverSlots | art-int/src/lib.rs:86-97 | crossing two networks of one buildable topology: every value of the child's `weights()` is the value at the same position of one of the parents |
| ArtInt.PropagateReLu | art-int/src/layer.rs:12-22 | one output per neuron: bias plus the dot product with the inputs, cut off at zero |
| ArtInt.MapExp | art-int/src/layer.rs:25-28 | every value replaced by its exponential |
| ArtInt.Scaled | art-int/src/layer.rs:29-31 | every value divided by the sum |
| ArtInt.SoftMaxOf | art-int/src/layer.rs:23-34 | one output per input |
| ArtInt.SoftMaxSumsToOne | art-int/src/layer.rs:23-34 | for a non-empty input the outputs sum to one |
| ArtInt.SumScaled | art-int/src/layer.rs:29-31 | dividing every value by c divides the sum by c |
| ArtInt.ExpInPlace | art-int/src/layer.rs:24-28 | the in-place pass leaves the exponentials and returns their sum |
| ArtInt.DivideInPlace | art-int/src/layer.rs:29-31 | the in-place pass leaves every value divided by the sum |
| ArtInt.SoftMaxInPlace | art-int/src/layer.rs:23-34 | the two in-place passes compute `SoftMaxOf` of the old contents |
| ArtInt.PropagateLayer | art-int/src/layer.rs:78-80 | ReLu gives one value per neuron, SoftMax as many as the inputs |
| ArtInt.PropagateTwoLayers | art-int/src/lib.rs:52-56 | a two-layer network propagates through the first layer, then the second |
| ArtInt.Propagate | art-int/src/lib.rs:52-56 | the layers are folded over the input; a network ending in a ReLu layer outputs one value per neuron of that layer |
| ErsToolbar.Name | editor-rs/src/toolbar.rs:88-179 | every tool has a non-empty button label |
| ErsToolbar.GetType | editor-rs/src/toolbar.rs:88-179 | every tool reports a type of its own, never `None` |
| ErsToolbar.ToolsDistinguished | editor-rs/src/toolbar.rs:88-179 | distinct tools have distinct types and distinct labels |
| ErsToolbar.LastClickedChoice | editor-rs/src/toolbar.rs:62-66 | over one rendering pass the selection ends on a clicked button after which none was clicked, and is kept when nothing was clicked |
| ErsToolbar.Toolbar.constructor | editor-rs/src/toolbar.rs:41-47 | no tools, no selection, unlocked |
| ErsToolbar.Toolbar.Default | editor-rs/src/toolbar.rs:69-86 | Pan, Select, Add Street, Add Crossing, Delete Node and Add IO-Node in that order, the first selected, unlocked, so the tool type is Pan |
| ErsToolbar.Toolbar.GetSelected | editor-rs/src/toolbar.rs:49-54 | none exactly when nothing is selected, else the tool at the selected index |
| ErsToolbar.Toolbar.GetTooltype | editor-rs/src/toolbar.rs:55-60 | `None` exactly when nothing is selected, else the selected tool's own type |
| ErsToolbar.Toolbar.Render | editor-rs/src/toolbar.rs:16-28 | a click selects this tool's index only when the bar is unlocked; tools and lock unchanged |
| ErsToolbar.Toolbar.RenderTools | editor-rs/src/toolbar.rs:36-66 | while locked the selection never changes; otherwise the last clicked tool is selected; the selection still names a tool |
| ErsLib.DefaultTheme | editor-rs/src/lib.rs:23-27 | the default theme is Light |
| ErsLib.DefaultMode | editor-rs/src/lib.rs:42-46 | the default mode is Editor |
| ErsLib.ToggleCycle | editor-rs/src/lib.rs:47-54 | a toggle always changes the mode, two toggles visit all three modes, three come back to the start |
| ErsLib.UIState.constructor | editor-rs/src/lib.rs:58-63 | the default tool bar and the Editor mode |
| ErsLib.UIState.Toggle | editor-rs/src/lib.rs:47-54 | Editor to Simulator, Simulator to Preferences, Preferences to Editor |
| ErsLib.UIState.ToggleThrice | editor-rs/src/lib.rs:47-54 | three toggles leave the mode as it was |
| ErsLib.FromEnum | editor-rs/src/lib.rs:80-101 | LIGHT gives the light colours (white background) and DARK the dark ones (black background) |
| ErsLib.FromEnumDistinguishes | editor-rs/src/lib.rs:96-101 | different current themes give different colour sets; within each, IO nodes and crossings share a colour |
| ErsToolSystems.RunIfDeleteNode | editor-rs/src/tool_systems.rs:32-41 | Yes exactly when a tool is selected and it is the Delete Node tool |
| ErsToolSystems.RunIfSelect | editor-rs/src/tool_systems.rs:42-51 | Yes exactly when the selected tool is the Select tool |
| ErsToolSystems.RunIfAddStreet | editor-rs/src/tool_systems.rs:52-62 | Yes exactly when the selected tool is the Add Street tool |
| ErsToolSystems.RunIfAddCrossing | editor-rs/src/tool_systems.rs:63-73 | Yes exactly when the selected tool is the Add Crossing tool |
| ErsToolSystems.RunIfAddIONode | editor-rs/src/tool_systems.rs:74-83 | Yes exactly when the selected tool is the Add IO-Node tool |
| ErsToolSystems.GatesExclusive | editor-rs/src/tool_systems.rs:32-83 | at most one tool's systems run in a frame, none with nothing selected, exactly one for a selected tool other than Pan |
| ErsToolSystems.FreeSides | editor-rs/src/tool_systems.rs:123-171 | the free sides of the crossing, taken from the given sides in order, so never more of them |
| ErsToolSystems.FreeSidesMembers | editor-rs/src/tool_systems.rs:131-166 | a side is listed exactly when it is among the given sides and its slot of that kind is not taken |
| ErsToolSystems.ConnectorsOf | editor-rs/src/tool_systems.rs:112-172 | nothing for a street, the middle connector for an IO node, and for a crossing one connector for exactly each of its free sides (four at most) |
| ErsToolSystems.GenerateConnectors | editor-rs/src/tool_systems.rs:96-180 | acts only when the hovered node is a crossing; selecting an output gives its OUT connectors; selecting an input panics without a street being placed, gives nothing on the street's start node, and otherwise its IN connectors |
| ErsToolSystems.CrossingConnectors | editor-rs/src/tool_systems.rs:124-137 | the loop spawns one connector per free side, in the order N, S, W, E |
| ErsToolSystems.AllFree | editor-rs/src/tool_systems.rs:123-137 | with no slot taken every side is free |
| ErsToolSystems.UnconnectedShowsAll | editor-rs/src/tool_systems.rs:123-171 | a crossing with nothing attached shows all four connectors N, S, W, E in either stage |
| ErsToolSystems.StreetTool.constructor | editor-rs/src/tool_systems.rs:221-243 | the tool starts selecting an output, with no street being placed; the starting stage SelectingOutput is assumed, since the default of `AddStreetStage` is defined outside this model |
| ErsToolSystems.StreetTool.ConnectorClicked | editor-rs/src/tool_systems.rs:193-290 | without a click nothing happens; clicking an out-connector starts a street from its parent, moves to selecting an input and locks the tool bar; clicking an in-connector calls `connect_with_street(start, end, 1)`, and on success moves back to selecting an output and unlocks; an unavailable builder changes nothing; a missing parent or a refused connection panics |
| ErsToolSystems.RenderWhilePlacing | editor-rs/src/tool_systems.rs:239-242 | while a street is being placed, no tool bar frame can change the selection |
| ErsToolSystems.Selection.SelectNode | editor-rs/src/tool_systems.rs:458-489 | without a click or a shape nothing changes; the single previously marked node loses the marker, the clicked one gains it, and both are recoloured; with at most one node marked before, a click leaves exactly the clicked node marked, so the marker is never duplicated |
| SimpleNodeBuilder.StreetBuilder.constructor | simulator/src/simple/node_builder.rs:52-58 | unconnected, one lane of length 100 |
| SimpleNodeBuilder.StreetBuilder.Connect | simulator/src/simple/node_builder.rs:37-40 | the street now leads to the given index and nowhere else; lanes and length unchanged |
| SimpleNodeBuilder.StreetBuilder.Length | simulator/src/simple/node_builder.rs:44-47 | sets the lane length only and hands the same builder back |
| SimpleNodeBuilder.StreetBuilder.Lanes | simulator/src/simple/node_builder.rs:48-51 | sets the lane count only and hands the same builder back |
| SimpleNodeBuilder.StreetBuilder.Build | simulator/src/simple/node_builder.rs:27-33 | an unconnected street with the builder's lanes and lane length |
| SimpleNodeBuilder.IONodeBuilder.constructor | simulator/src/simple/node_builder.rs:81-85 | unconnected |
| SimpleNodeBuilder.IONodeBuilder.Connect | simulator/src/simple/node_builder.rs:76-78 | appends the index |
| SimpleNodeBuilder.IONodeBuilder.Build | simulator/src/simple/node_builder.rs:66-72 | an unconnected IO node with spawn rate 1 and no time since the last spawn |
| SimpleNodeBuilder.CrossingBuilder.constructor | simulator/src/simple/node_builder.rs:114-119 | unconnected, length 10 |
| SimpleNodeBuilder.CrossingBuilder.Connect | simulator/src/simple/node_builder.rs:104-106 | appends the index; length unchanged |
| SimpleNodeBuilder.CrossingBuilder.Length | simulator/src/simple/node_builder.rs:110-113 | sets the length only and hands the same builder back |
| SimpleNodeBuilder.CrossingBuilder.Build | simulator/src/simple/node_builder.rs:95-100 | an unconnected crossing whose lane has the builder's length |
| SimpleNodeBuilder.BuildNode | simulator/src/simple/node_builder.rs:5-18 | any builder builds a node of its own kind with no connections |
| SimpleNodeBuilder.ConnectNode | simulator/src/simple/node_builder.rs:37-106 | a street keeps only the newest target; the other kinds keep every target in call order; a street keeps its lanes and lane length, a crossing its length |
| SimpleNodeBuilder.ConnectTwice | simulator/src/simple/node_builder.rs:37-106 | after two connects a street leads to the second target only, the others gain both in order |
| SimpleSimulationBuilder.WithId | simulator/src/simple/simulation_builder.rs:263 | the node takes the id and keeps its targets |
| SimpleSimulationBuilder.WiredToDefined | simulator/src/simple/simulation_builder.rs:239-244 | a node's wiring exists exactly when every target and its id lie inside the node list (else the `upgrade` or the index panics) |
| SimpleSimulationBuilder.DirectBuildAt | simulator/src/simple/simulation_builder.rs:225-245 | the intended wiring: node i of the build connects to node i's own targets |
| SimpleSimulationBuilder.BuildSucceeds | simulator/src/simple/simulation_builder.rs:225-245 | a list whose ids are positions and whose targets exist always builds, every prefix wired directly |
| SimpleSimulationBuilder.BuiltNodesDirect | simulator/src/simple/simulation_builder.rs:225-245 | for such a list, node i of the build is of node i's kind and wired to exactly node i's targets |
| SimpleSimulationBuilder.WiredIdentity | simulator/src/simple/simulation_builder.rs:240-243 | when ids are positions, each target is wired to itself |
| SimpleSimulationBuilder.InitialNodes | simulator/src/simple/simulation_builder.rs:118-129 | one node per record, an IO node exactly when the record says so, else a crossing, with id 0 and no connections |
| SimpleSimulationBuilder.FirstEntry | simulator/src/simple/simulation_builder.rs:134-136 | the first connection entry in record order, none exactly when no record lists one |
| SimpleSimulationBuilder.JsonVerdictCases | simulator/src/simple/simulation_builder.rs:134-157 | `from_json` succeeds exactly when no record lists a connection; an entry that passes the checks reaches the `todo!`; the duplicate check can never fire on fresh nodes |
| SimpleSimulationBuilder.AsWrittenIndexPanics | simulator/src/simple/simulation_builder.rs:138 | one record listing index 1: the `>` test lets 1 through and the node list is indexed past its end |
| SimpleSimulationBuilder.CheckedNeverIndexPanics | simulator/src/simple/simulation_builder.rs:138-146 | with `>=` no record causes an index panic, and an index equal to the record count is reported as a missing node |
| SimpleSimulationBuilder.DocExampleNotImplemented | simulator/src/simple/simulation_builder.rs:286-291 | the documented example reaches the `todo!`, so the test's `unwrap` is never reached |
| SimpleSimulationBuilder.SimulatorBuilder.constructor | simulator/src/simple/simulation_builder.rs:99-106 | no nodes, no iteration bound, no delay, no cache |
| SimpleSimulationBuilder.SimulatorBuilder.DropCache | simulator/src/simple/simulation_builder.rs:254-256 | the cache is gone; nothing else changes |
| SimpleSimulationBuilder.SimulatorBuilder.AddNode | simulator/src/simple/simulation_builder.rs:258-266 | the node is appended with its position as id and the cache dropped; ids stay positions and targets stay inside the list |
| SimpleSimulationBuilder.SimulatorBuilder.Delay | simulator/src/simple/simulation_builder.rs:267-270 | sets the delay only |
| SimpleSimulationBuilder.SimulatorBuilder.MaxIter | simulator/src/simple/simulation_builder.rs:271-274 | sets the iteration bound only |
| SimpleSimulationBuilder.SimulatorBuilder.GetNode | simulator/src/simple/simulation_builder.rs:278-280 | None, for the indexing panic, exactly when i is past the end; otherwise a node of the list, and when ids are positions the one with id i |
| SimpleSimulationBuilder.SimulatorBuilder.ConnectWithStreet | simulator/src/simple/simulation_builder.rs:160-214 | an index out of range is the IndexError with nothing changed; a street at either end panics; a taken OUT slot at the start is a ConnectionError with nothing changed; a taken IN slot at the end is a ConnectionError after the start was already linked; otherwise the start lists the new street, a crossing at the end takes it in its slot, and the street, with id = old length, is appended |
| SimpleSimulationBuilder.ConnectWithStreetsScenario | simulator/src/simple/simulation_builder.rs:293-309 | the test's first call connects; its second targets node 2, which is the new street, and panics |
| SimpleSimulationBuilder.SimulatorBuilder.Build | simulator/src/simple/simulation_builder.rs:217-252 | a cached node list is reused as is; otherwise the nodes are freshly built and cached; a dangling connection is the panic |
| SimpleSimulationBuilder.BuildNodes | simulator/src/simple/simulation_builder.rs:225-245 | the two loops produce exactly `BuiltNodes`: every node built unconnected, then node i connected to the node with the id of each target |
| SimpleSimulationBuilder.BlankNodes | simulator/src/simple/simulation_builder.rs:228-230 | every node built, of its own kind, with no connection yet |
| SimpleSimulationBuilder.WireNode | simulator/src/simple/simulation_builder.rs:234-244 | the ids of every target in order, failing at the first target outside the list |
| SimpleSimulationBuilder.ValidateRecords | simulator/src/simple/simulation_builder.rs:134-157 | the validation loops give exactly `JsonVerdict` |
| SimpleSimulationBuilder.FromJson | simulator/src/simple/simulation_builder.rs:115-158 | as written: one fresh node per record, and the verdict of the `>` index check |
| SimpleSimulationBuilder.FromJsonChecked | simulator/src/simple/simulation_builder.rs:115-158 | with the intended `>=` check: the same nodes and a verdict that is never an index panic |
| OldConnection.New | simulator/src/connection.rs:37-42 | a one-lane connection to the given crossing |
| OldConnection.Eq | simulator/src/connection.rs:49-52 | true exactly when both point at the very same crossing and carry the same lane count, i.e. the two connection values are equal |
| OldConnection.Ne | simulator/src/connection.rs:53-56 | the exact negation of `eq` |
| OldCrossing.Crossing.constructor | simulator/src/crossing.rs:13-18 | no connections and the given IO-node flag |
| OldCrossing.Crossing.GetConnection | simulator/src/crossing.rs:19-33 | the first connection pointing at that very crossing; none exactly when no connection does |
| OldCrossing.Crossing.Connect | simulator/src/crossing.rs:34-48 | appends one connection with the given lane count, even when one to that crossing exists already; the flag is unchanged |
| OldCrossing.ConnectTwoCrossings | simulator/src/crossing.rs:58-85 | c1 to c2 with one lane and c2 to c1 with three: the first lane counts are 1 and 3, and a repeated connect adds a second connection instead of raising the count to 2, so the should-panic test's assertion fails as it expects |
| OldCrossing.GetConnectionAmongMany | simulator/src/crossing.rs:86-101 | among fifty targets, c2 and fifty more, the connection found for c2 equals `Connection::new(c2)` |
| OldCrossing.EqualContentsNotEqual | simulator/src/connection.rs:49-56 | connections to two distinct crossings with equal contents are not equal: equality is identity of the target |
| OldStreetData.StreetData.constructor | simulator/src/street_data.rs:65-69 | the network holds the given crossings |
| OldStreetData.RecordVerdictNone | simulator/src/street_data.rs:50-63 | a record's entries from j on raise no error exactly when each names an existing crossing not yet connected |
| OldStreetData.VerdictNone | simulator/src/street_data.rs:47-64 | the records from i on raise no error exactly when each record's entries are acceptable |
| OldStreetData.VerdictWellFormed | simulator/src/street_data.rs:37-70 | `from_json` accepts exactly the well-formed record lists |
| OldStreetData.ConnsAt | simulator/src/street_data.rs:50-63 | entry k becomes connection k, to the crossing it names, with its lanes |
| OldStreetData.ConnsReach | simulator/src/street_data.rs:53-60 | among distinct crossings, a crossing already leads to crossing x exactly when one of its earlier entries names x |
| OldStreetData.FromJson | simulator/src/street_data.rs:37-70 | the first rejected entry in record and entry order decides the error (an invalid index or a repeated connection); otherwise crossing i has record i's flag and one connection per entry, in order |
| OldStreetData.NewCrossings | simulator/src/street_data.rs:40-45 | one fresh crossing per record with its flag and no connections |
| OldStreetData.ConnectRecord | simulator/src/street_data.rs:47-64 | record i's entries connected to crossing i and nothing else changed, or its first error |
| OldStreetData.ConnectEntries | simulator/src/street_data.rs:50-63 | the loop over one record gives its verdict and, without an error, exactly its connections |
| OldStreetData.ConnectEntry | simulator/src/street_data.rs:51-62 | one entry: an index outside the list or an existing connection is an error; otherwise the crossing gains the connection |
| OldStreetData.StreetDataFromJsonTest | simulator/src/street_data.rs:89-96 | the test's network loads: six crossings, the last an IO node, crossing 1 with four connections |
| OldMain.CrossingReflexive | simulator/src/main.rs:31-54 | the derived equality never finds a crossing different from itself: equal or it does not finish |
| OldMain.ConnsReflexive | simulator/src/main.rs:31-54 | comparing connection lists with themselves never finds a difference |
| OldMain.ConnectionReflexive | simulator/src/main.rs:31 | comparing a connection with itself never finds a difference |
| OldMain.EqualContentsNotDifferent | simulator/src/main.rs:31-54 | distinct crossings with the same contents compare like a crossing with itself, because the derived equality looks at contents only |
| OldMain.GetConnectionTest | simulator/src/main.rs:138-145 | after c1 connects to c2, the connection found for c2 exists and equals `Connection::new(c2)` |
| OldMain.ValueVersusIdentity | simulator/src/main.rs:50-72 | two fresh crossings are equal by value, yet `get_connection`, comparing identities, finds no connection to the second |
| OldMain.CycleNeverDecides | simulator/src/main.rs:31-54 | in a cycle c1 to c2 to c1, comparing either crossing with itself follows the cycle and never finishes |
| OldMain.ConnectCrossingsTest | simulator/src/main.rs:125-137 | the test builds that cycle; the lane counts are 1 and 3, and its crossings' derived equality never finishes |

## Left out

- Text parsing and printing with serde/serde_json: `from_json`, `Serialize` and `Deserialize` work on records that are already parsed.
- Threads, channels and locks (`sim_manager.rs` of both crates; the `Arc`/`Mutex` wrapper `int_mut.rs`): references are Dafny objects, and no lock is modelled.
- Floating-point arithmetic. This covers:
  - `Traversible::update_movables`: the finished positions of a street's lanes are an input of `SimNode.Street.UpdateMovables`;
  - `calculate_cost` and `calculate_sim_cost`;
  - `total_cost` in `IONode::add_car`;
  - the traffic-light argmax `determine_traffic_light_state` (simulator/src/node.rs:251-273);
  - the cost scaling of the shortest-path search;
  - the activation functions' values; the exponential is a parameter of the SoftMax propagation;
  - `mutate`;
  - f32 rounding.
- Randomness and the shortest-path crate: `gen_bool`, `WeightedIndex`, the random cars and the `dijkstra` search are parameters (a draw, a pick index, a route answer).
- Rendering and widget toolkits (bevy, egui, tkinter) and camera or mouse arithmetic. Only the widget kinds of the item editor and the button colours of the toolbar are modelled.
- HashMap iteration order. The direction searches visit N, E, S, W. The deserialiser's crossing wiring accepts any order.
- u8/u32/usize overflow. Lane counts are bounded by 255 where the type says u8; ids and counters are unbounded.
- `IndexedNodeNetwork::index_builder` and `MovableServer::register_simulator_builder`: the IO-node list, the weights and the ids that get a `node_lens` entry are fields set directly.
- `SimulatorBuilder::build` of the main builder: only the id-based JSON transform and the builder graph are modelled.
- `simulation_loop` with no iteration limit (it never ends), the clock and the sleep between iterations; one iteration's work is `update_all_nodes`.
- simulator/src/simple/simulation.rs: its car-moving loop runs over an empty range and the rest is timing. It is not part of this model.
- Files that only declare types or traits, the demos and the benchmarks.
- `LayerTopology::with_activation`: a one-field setter with nothing to state beyond its assignment.
- The `println!` calls in simulator/src/simple/simulation_builder.rs.
- Cross-revision API mismatches; each file is modelled on its own terms:
  - art-int/src/lib.rs calls `Layer::random` and `Layer::from_weights` with three arguments and `Layer::new` with one, while art-int/src/layer.rs also takes an activation. The model passes the activation of the next topology entry, and in crossover the left parent's.
  - simulator/src/simple/simulation_builder.rs calls a node-builder API (ids, `InOut`, crossing slots) that simulator/src/simple/node_builder.rs does not have. `SimpleSimulationBuilder` gives its nodes that API as values.
  - editor-rs/src/tool_systems.rs calls `connect_with_street` with a different arity than simulator/src/simulation_builder.rs and uses `as_dir` and `AddStreetStage` from files that are not part of this model. The builder's answer is a parameter.
  - editor-rs/src/lib.rs calls `build_grid_sim` with a different arity than simulator/src/build_grid.rs.
  - simulator/src/crossing.rs:45 sets a `speed_limit` that the `Connection` of simulator/src/connection.rs lacks. The model of `connect` keeps lanes and target only.
  - editor/input_parser.py:26 builds a `Crossing` with one argument while editor/street_data.py:13 takes three. The model builds an unconnected crossing without traffic lights.
  - editor/street_data.py's `get_nearest` reads `street.points` while streets keep `_points`. Streets are modelled as their point sequences.
  - editor/itemeditor.py reads `var`, `range` and `step` of an `EditableField`, which editor/editable.py does not define. Fields are modelled by their kind and value.
- Observers of an `Event` that change the observer list while `notify` runs: the list is read once, before any observer is called.
- `Weak::upgrade` of a target that was already dropped: targets stay alive in the model, because Dafny objects are never freed.
- OldMain's derived equality recurses through the `Rc` graph without a bound. The model compares with a fuel bound, so equality of cyclic graphs beyond that depth is not stated.
- SimSimulationBuilder.SimulatorBuilder.RemoveNode: the cascade is specified only when every connection of the builders names a listed builder. The source needs this too, or `upgrade` panics, but the model also requires it for targets the source would already have dropped.
- SimSimulationBuilder.SimulatorBuilder.RemoveNodeAndConnectedById: the same closed-list precondition as `RemoveNode` when the cascade runs.
- SimBuilderJson.Serialize: requires every connection to name a listed builder. The source needs only that the targets are alive; an unlisted target has no id to write.
- SimSimulationBuilder.SimulatorBuilder.ConnectWithStreet: the spawn rate of IONode builders and the length of crossing builders not touched by the call are outside its ensures. Their connections and ids, and the lane count and lane length of other streets, are stated.
- SimSimulation.Simulator.SetNeuralNetworks: on failure (the source panics midway) the networks already handed to the first crossings are not stated.
- SimNode.IONode.AddCar: does not model the `total_cost` float accumulation.
- SimNode.IONode.UpdateCars: the spawn draw and the server's answer are parameters, so spawn timing and the generated car's route are not stated.
- SimPathfinding.MovableServer.GenerateMovable: `path_len`, the route length summed from `node_lens`, is float arithmetic and is not stored; only whether every route node has a `node_lens` entry is modelled.
- SimPathfinding.Destination: the pick index may name an IO node of weight zero, which `WeightedIndex` never draws; the model does not exclude it.
- SimNode.Crossing.CalculateNnInputs: when two output sides lead to the same node, the model takes the first of them in N, E, S, W order; the source collects the sides into a HashMap keyed by that node, which keeps whichever side its iteration order visits last.
- SimSimulationBuilder.SimulatorBuilder.AddNode: well-formedness is stated on the old connection list with the new node's appended. The per-builder ensures (every builder keeps its connections) tie that list to the new builders, but the equality is not itself an ensures.
- SimSimulationBuilder.SimulatorBuilder.ConnectWithStreet: well-formedness is stated on the list `LinkedViews` builds from the old connections; `LinkedViewsShown` proves it equals the new builders' connections from the per-builder ensures.
- SimpleSimulationBuilder.SimulatorBuilder.Build: a cached build returns the node values stored at build time. The source's `cache.clone()` copies `Arc`s, so every build hands out the same node objects and a second simulator sees what the first one changed; that sharing is not modelled.
- EditorEditable.Editable.MarkedFields: returns the registry's current value. Python hands out the list object itself, so a caller that appends to it changes the registry; that aliasing is not modelled.
- EditorInputParser.InputParser.ParseMouseLeft: the branch that selects and drags when `dist <= 50` (editor/input_parser.py:36-39) cannot be reached, because `get_nearest` as written never returns a distance. The model has no such branch. It does not model what that branch would do with a real answer: `get_nearest` would return a street where a crossing is expected.
- EditorEvent.Event.Unbind: observers are values (a name and whether they are callable) compared structurally. Python's `remove` compares with `==`, which tells apart two distinct functions of one name; the model does not.
- The `log` debug messages of `Event` (editor/event.py:15-19, 25-28 and 44-47): not modelled. Every modelled observer has a name. A Python callable without `__name__` would raise AttributeError while the message is formatted: in `bind` after the list was extended, in `unbind` after the first removal so that later arguments stay bound, and in `notify` after the first observer was called so that later ones are skipped.

## Findings

| source | as written | input that shows it | evidently intended | confidence | as-written member | corrected member |
|---|---|---|---|---|---|---|
| simulator/src/simulation_builder.rs:536 | `remove_node(i, true)` on a street takes the `Street` arm, which does nothing, so the nodes at the street's ends keep their connection to it | a well-formed network with a street between two crossings, then `remove_node` of that street with `remove_connections`: a crossing's slot names a builder that is no longer listed | the street is scrubbed from its ends, as the cascade does for the streets of a removed crossing | medium, not executed | SimCascade.StreetRemovalDangles | SimCascade.StreetRemovalScrubbed |
| editor/street_data.py:23 | an entry reduced to 0 lanes counts as not connected, so `connect` appends a second entry for the same crossing | `a.connect(b, 1)`, `a.disconnect(b, 1)`, `a.connect(b, 1)`: `a.connected` holds two entries for `b` | the existing entry is reused and no crossing appears twice | medium, not executed | EditorStreetData.ZeroLaneEntryIsDuplicated | EditorStreetData.ConnectedIntendedNoDuplicates |
| editor/street_data.py:85-86 | the `else` of the inner `for` returns after the first street, so no waypoint is ever found | one street with the waypoint (0, 0), searched from (0, 0): the answer is `(None, None)` | the nearest waypoint over all streets, and none only when no street has a waypoint | high, not executed | EditorStreetData.StreetData.GetNearest | EditorStreetData.NearestWaypoint |
| editor/itemeditor.py:11 | the default `_parents` list is shared by every editor and across sibling fields, so the recursion guard fires on siblings | two sibling fields holding editables of the same type: the second is shown as a label only | the guard blocks only a type already on the path from the root | medium, not executed | EditorItemEditor.SiblingIsGuarded | EditorItemEditor.SiblingsIntended |
| simulator/src/simple/simulation_builder.rs:138 | the index check uses `>` | one crossing record whose entry names index 1: the check passes and the lookup indexes past the end | reject every index `>=` the number of records | high, not executed | SimpleSimulationBuilder.AsWrittenIndexPanics | SimpleSimulationBuilder.CheckedNeverIndexPanics |
| simulator/src/pathfinding.rs:270 | `all_except(i)` ranges up to `len - 1`, dropping the last index, and underflows when empty | three IO nodes and `i = 0`: the result is `[1]` | every index except `i`, `[1, 2]` here | high, not executed | SimPathfinding.AllExceptDropsLast | SimPathfinding.ExceptLength |
| simulator/src/node.rs:651 | `get_car_by_index` indexes the lane with the flat index `i` | lanes `[[a], [b, c]]` and index 1: the code yields `c`, the flat position 1 is `b` | index the lane with the offset within that lane | high, not executed | SimNode.GetCarByIndexMisses | SimNode.GetCarByIndex |
| simulator/src/simulation.rs:93 | a leaving car is removed with `remove_car(j)`, the loop counter, not with its index `cars_at_end[j]` | three cars of which only car 2 is at the end and moves on: car 0 is handed to the next node | remove the car at the finished index | high, not executed | SimSimulation.MoveCarsRemovesWrongCar | SimSimulation.MoveCarsMovesDecided |
