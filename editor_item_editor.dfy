/**
 * The recursive field editor of the Python editor (editor/itemeditor.py).
 *
 * `display(item)` shows one row per widget generated for each field of the
 * item.  An Editable field gets a nested editor, unless its type is already
 * in the `_parents` list, in which case it gets a label with the type name
 * (the recursion guard).  The `_parents` list is one object shared by an
 * editor and all editors nested in it, and nothing but `clear` ever removes
 * entries from it.  Only the kinds of the tkinter widgets are modelled.
 */
module EditorItemEditor {
  import opened Wrappers

  /** The field values the editor distinguishes (the `isinstance` tests). */
  datatype FieldVar =
    | EditableVar(typeName: string, fields: seq<Field>)  // an Editable and its marked fields
    | IntVar
    | StringVar
    | DoubleVar
    | BooleanVar
    | ListVar(elems: seq<Field>)
    | OtherVar(typeName: string)

  /** What the editor reads from a field: `name`, `var`, `readonly`, `step`, `range`. */
  datatype Field = Field(name: string, fvar: FieldVar, readonly: bool, step: Option<real>, range: (real, real))

  /** The kind of each generated widget, with the options the source sets. */
  datatype Widget =
    | TypeLabel(typeName: string)                       // the recursion guard's label
    | Editor(editor: EditorState)                       // a nested ItemEditor after its display
    | Scale(from: real, to: real, resolution: real)
    | Entry(disabled: bool)
    | Checkbutton(disabled: bool)
    | ErrorLabel(typeName: string)                      // "No Widget implemented for type ..."

  /** An entry of `_displayed_items`: a name label or a widget, with its grid row. */
  datatype Shown = NameLabel(text: string, row: nat) | Placed(w: Widget, row: nat)

  /** The per-editor state: `_name`, `_displayed_items` and `_last_row`. */
  datatype EditorState = EditorState(name: string, displayed: seq<Shown>, lastRow: nat)

  /** An editor and the shared `_parents` list after some work. */
  datatype Progress = Progress(ed: EditorState, parents: seq<string>)

  /** A `_generate_widget` answer and the shared `_parents` list after it. */
  datatype Generated = Generated(widgets: seq<Widget>, parents: seq<string>)

  /** `type(item)`, as recorded in `_parents`. */
  function TypeName(v: FieldVar): string
  {
    match v
      case EditableVar(t, _) => t
      case IntVar => "IntVar"
      case StringVar => "StringVar"
      case DoubleVar => "DoubleVar"
      case BooleanVar => "BooleanVar"
      case ListVar(_) => "list"
      case OtherVar(t) => t
  }

  /** The value of `field.step if field.step else d`: None and 0 are false. */
  function StepOr(step: Option<real>, d: real): real
  {
    if step.Some? && step.value != 0.0 then step.value else d
  }

  /** One widget placed at the next row: a nested editor alone, any other
    * widget after a label with the field's name. */
  function PlaceOne(ed: EditorState, fieldName: string, w: Widget): (r: EditorState)
    ensures r.name == ed.name && r.lastRow == ed.lastRow + 1
  {
    var row := ed.lastRow;
    var added := if w.Editor? then [Placed(w, row)] else [NameLabel(fieldName, row), Placed(w, row)];
    EditorState(ed.name, ed.displayed + added, ed.lastRow + 1)
  }

  /** The widgets of one field placed in order (the inner loop of `display`). */
  function Place(ed: EditorState, fieldName: string, ws: seq<Widget>): (r: EditorState)
    ensures r.name == ed.name && r.lastRow == ed.lastRow + |ws|
    ensures ed.displayed <= r.displayed
    decreases |ws|
  {
    if ws == [] then ed else Place(PlaceOne(ed, fieldName, ws[0]), fieldName, ws[1..])
  }

  /** The fields of an item, one after the other (the outer loop of `display`). */
  function ShowFields(p: Progress, fs: seq<Field>): (r: Progress)
    ensures p.parents <= r.parents
    ensures r.ed.name == p.ed.name
    decreases fs
  {
    if fs == [] then p
    else
      var g := Generate(fs[0], p.parents);
      ShowFields(Progress(Place(p.ed, fs[0].name, g.widgets), g.parents), fs[1..])
  }

  /** `display(item)` for an Editable or a list: records the item's type in
    * `_parents`, then shows its fields (an Editable's marked fields, a
    * list's elements). */
  function DisplayItem(ed: EditorState, v: FieldVar, parents: seq<string>): (r: Progress)
    requires v.EditableVar? || v.ListVar?
    ensures parents + [TypeName(v)] <= r.parents
    ensures r.ed.name == ed.name
    decreases v
  {
    ShowFields(Progress(ed, parents + [TypeName(v)]), if v.EditableVar? then v.fields else v.elems)
  }

  /** `_generate_widget(field)`: the widgets for one field, and the shared
    * `_parents` list afterwards (nested displays append to it). */
  function Generate(f: Field, parents: seq<string>): (r: Generated)
    ensures parents <= r.parents
    ensures |r.widgets| == 1
    decreases f
  {
    match f.fvar
      case EditableVar(t, _) =>
        if t in parents then Generated([TypeLabel(t)], parents)
        else
          var p := DisplayItem(EditorState("", [], 0), f.fvar, parents);
          Generated([Editor(p.ed)], p.parents)
      case IntVar => Generated([Scale(f.range.0, f.range.1, StepOr(f.step, 1.0))], parents)
      case StringVar => Generated([Entry(f.readonly)], parents)
      case DoubleVar => Generated([Scale(f.range.0, f.range.1, StepOr(f.step, 0.01))], parents)
      case BooleanVar => Generated([Checkbutton(f.readonly)], parents)
      case ListVar(_) =>
        var p := DisplayItem(EditorState(f.name, [], 0), f.fvar, parents);
        Generated([Editor(p.ed)], p.parents)
      case OtherVar(t) => Generated([ErrorLabel(t)], parents)
  }

  /** The recursion guard: an Editable field whose type is already in
    * `_parents` yields one label with the type name and no nested display. */
  lemma GuardedEditable(f: Field, parents: seq<string>)
    requires f.fvar.EditableVar? && f.fvar.typeName in parents
    ensures Generate(f, parents) == Generated([TypeLabel(f.fvar.typeName)], parents)
  {
  }

  /** The widget kinds of the plain fields: IntVar and DoubleVar give a Scale
    * over the field's range with `step` (or 1, or 0.01) as resolution;
    * StringVar and BooleanVar give an Entry or Checkbutton disabled iff
    * readonly; any other type an error label; a list a nested editor named
    * after the field; none of them changes `_parents` but the list. */
  lemma PlainWidgets(f: Field, parents: seq<string>)
    ensures f.fvar.IntVar? ==>
              Generate(f, parents) == Generated([Scale(f.range.0, f.range.1, if f.step.Some? && f.step.value != 0.0 then f.step.value else 1.0)], parents)
    ensures f.fvar.DoubleVar? ==>
              Generate(f, parents) == Generated([Scale(f.range.0, f.range.1, if f.step.Some? && f.step.value != 0.0 then f.step.value else 0.01)], parents)
    ensures f.fvar.StringVar? ==> Generate(f, parents).widgets == [Entry(f.readonly)]
    ensures f.fvar.BooleanVar? ==> Generate(f, parents).widgets == [Checkbutton(f.readonly)]
    ensures f.fvar.OtherVar? ==> Generate(f, parents).widgets == [ErrorLabel(f.fvar.typeName)]
    ensures f.fvar.ListVar? ==>
              Generate(f, parents).widgets[0].Editor? &&
              Generate(f, parents).widgets[0].editor.name == f.name &&
              parents + ["list"] <= Generate(f, parents).parents
  {
  }

  /** Because `_parents` is shared and never popped, the guard also fires for
    * a sibling: of two fields holding Editables of the same, not yet seen
    * type, the first gets a nested editor and the second only a label. */
  lemma SiblingIsGuarded(t: string, a: string, b: string)
    ensures var fa := Field(a, EditableVar(t, []), false, None, (0.0, 0.0));
            var fb := Field(b, EditableVar(t, []), false, None, (0.0, 0.0));
            var item := EditableVar("Item", [fa, fb]);
            t != "Item" ==>
            var p := DisplayItem(EditorState("", [], 0), item, []);
            p.ed.displayed == [Placed(Editor(EditorState("", [], 0)), 0),
                               NameLabel(b, 1), Placed(TypeLabel(t), 1)]
  {
    var fa := Field(a, EditableVar(t, []), false, None, (0.0, 0.0));
    var fb := Field(b, EditableVar(t, []), false, None, (0.0, 0.0));
    var item := EditableVar("Item", [fa, fb]);
    if t != "Item" {
      var p0 := Progress(EditorState("", [], 0), ["Item"]);
      var ga := Generate(fa, ["Item"]);
      assert DisplayItem(EditorState("", [], 0), fa.fvar, ["Item"]) ==
             Progress(EditorState("", [], 0), ["Item", t]);
      assert ga == Generated([Editor(EditorState("", [], 0))], ["Item", t]);
      var e1 := Place(EditorState("", [], 0), a, ga.widgets);
      assert e1 == EditorState("", [Placed(Editor(EditorState("", [], 0)), 0)], 1) by {
        assert ga.widgets[1..] == [];
      }
      var gb := Generate(fb, ["Item", t]);
      assert gb == Generated([TypeLabel(t)], ["Item", t]);
      var e2 := Place(e1, b, gb.widgets);
      assert e2 == EditorState("", [Placed(Editor(EditorState("", [], 0)), 0), NameLabel(b, 1), Placed(TypeLabel(t), 1)], 2) by {
        assert gb.widgets[1..] == [];
        assert gb.widgets == [TypeLabel(t)];
        assert Place(PlaceOne(e1, b, TypeLabel(t)), b, []) == PlaceOne(e1, b, TypeLabel(t));
        assert e2 == Place(PlaceOne(e1, b, gb.widgets[0]), b, gb.widgets[1..]);
        assert e1.displayed + [NameLabel(b, 1), Placed(TypeLabel(t), 1)] ==
               [Placed(Editor(EditorState("", [], 0)), 0), NameLabel(b, 1), Placed(TypeLabel(t), 1)];
      }
      assert [fa, fb][1..] == [fb];
      assert [fb][1..] == [];
      assert ShowFields(p0, [fa, fb]) == ShowFields(Progress(e1, ["Item", t]), [fb]);
      assert ShowFields(Progress(e1, ["Item", t]), [fb]) == Progress(e2, ["Item", t]);
      assert [] + ["Item"] == ["Item"];
      assert DisplayItem(EditorState("", [], 0), item, []) == ShowFields(p0, [fa, fb]);
    }
  }

  /** The guard as its comment describes it, with `_parents` holding only the
    * ancestors of the field (a copy per nested editor): each field's widgets
    * depend on the field and its ancestors alone. */
  function GenerateIntended(f: Field, ancestors: seq<string>): (r: seq<Widget>)
    ensures |r| == 1
    ensures f.fvar.EditableVar? ==> (r[0].TypeLabel? <==> f.fvar.typeName in ancestors)
    decreases f
  {
    match f.fvar
      case EditableVar(t, fs) =>
        if t in ancestors then [TypeLabel(t)]
        else [Editor(ShowFieldsIntended(EditorState("", [], 0), fs, ancestors + [t]))]
      case IntVar => [Scale(f.range.0, f.range.1, StepOr(f.step, 1.0))]
      case StringVar => [Entry(f.readonly)]
      case DoubleVar => [Scale(f.range.0, f.range.1, StepOr(f.step, 0.01))]
      case BooleanVar => [Checkbutton(f.readonly)]
      case ListVar(fs) => [Editor(ShowFieldsIntended(EditorState(f.name, [], 0), fs, ancestors + ["list"]))]
      case OtherVar(t) => [ErrorLabel(t)]
  }

  /** The fields of one item with the intended guard. */
  function ShowFieldsIntended(ed: EditorState, fs: seq<Field>, ancestors: seq<string>): (r: EditorState)
    decreases fs
  {
    if fs == [] then ed
    else ShowFieldsIntended(Place(ed, fs[0].name, GenerateIntended(fs[0], ancestors)), fs[1..], ancestors)
  }

  /** With the intended guard, two sibling fields holding Editables of a type
    * that is not an ancestor both get the same nested editor. */
  lemma SiblingsIntended(fa: Field, fb: Field, ancestors: seq<string>)
    requires fa.fvar == fb.fvar && fa.fvar.EditableVar? && fa.fvar.typeName !in ancestors
    ensures GenerateIntended(fa, ancestors) == GenerateIntended(fb, ancestors)
    ensures GenerateIntended(fb, ancestors)[0].Editor?
  {
  }

  /** The shared `_parents` list. */
  class ParentList {
    var types: seq<string>

    constructor ()
      ensures types == []
    {
      types := [];
    }
  }

  /** How `display` ends: shown, or TypeError when the item is neither an
    * Editable nor iterable. */
  datatype Outcome = Shown | NotIterable

  class ItemEditor {
    const name: string
    const parents: ParentList
    var displayed: seq<Shown>
    var lastRow: nat

    /** `ItemEditor(master, name, _parents)`: nothing displayed, row 0.
      * Editors created without `_parents` all get the one default list
      * object, so the caller passes that shared object. */
    constructor (name: string, parents: ParentList)
      ensures this.name == name && this.parents == parents
      ensures displayed == [] && lastRow == 0
    {
      this.name := name;
      this.parents := parents;
      displayed := [];
      lastRow := 0;
    }

    /** The editor's state as a value. */
    function State(): EditorState
      reads this
    {
      EditorState(name, displayed, lastRow)
    }

    /** `display(item)`: appends `type(item)` to `_parents`, then places the
      * widgets of each field (an Editable's marked fields, a list's
      * elements) row by row; an item that is neither raises TypeError after
      * its type has been recorded. */
    method Display(item: FieldVar) returns (r: Outcome)
      modifies this, parents
      ensures r == (if item.EditableVar? || item.ListVar? then Shown else NotIterable)
      ensures r == Shown ==>
        var p := DisplayItem(old(State()), item, old(parents.types));
        State() == p.ed && parents.types == p.parents
      ensures r == NotIterable ==>
        State() == old(State()) && parents.types == old(parents.types) + [TypeName(item)]
    {
      parents.types := parents.types + [TypeName(item)];
      if !(item.EditableVar? || item.ListVar?) {
        return NotIterable;
      }
      var fields := if item.EditableVar? then item.fields else item.elems;
      var i := 0;
      while i < |fields|
        invariant 0 <= i <= |fields|
        invariant DisplayItem(old(State()), item, old(parents.types)) ==
                  ShowFields(Progress(State(), parents.types), fields[i..])
      {
        var field := fields[i];
        var g := Generate(field, parents.types);
        parents.types := g.parents;
        PlaceWidgets(field.name, g.widgets);
        assert fields[i..][1..] == fields[i + 1..];
        i := i + 1;
      }
      return Shown;
    }

    /** One field's widgets, one row each, an editor alone and any other
      * widget after a label with the field's name. */
    method PlaceWidgets(fieldName: string, widgets: seq<Widget>)
      modifies this
      ensures State() == Place(old(State()), fieldName, widgets)
    {
      var k := 0;
      while k < |widgets|
        invariant 0 <= k <= |widgets|
        invariant Place(old(State()), fieldName, widgets) == Place(State(), fieldName, widgets[k..])
      {
        var w := widgets[k];
        if w.Editor? {
          displayed := displayed + [Placed(w, lastRow)];
        } else {
          displayed := displayed + [NameLabel(fieldName, lastRow), Placed(w, lastRow)];
        }
        lastRow := lastRow + 1;
        assert widgets[k..][1..] == widgets[k + 1..];
        k := k + 1;
      }
    }

    /** `clear()`: forgets all widgets, empties the shared `_parents` list
      * and goes back to row 0. */
    method Clear()
      modifies this, parents
      ensures displayed == [] && parents.types == [] && lastRow == 0
    {
      displayed := [];
      parents.types := [];
      lastRow := 0;
    }
  }
}
