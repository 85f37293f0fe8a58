/**
 * The registry of editable attributes of the Python editor
 * (editor/editable.py).
 *
 * An `Editable` object records, in call order, an `EditableField` for each
 * attribute marked with `mark_editable`.  There is no way to unmark a field:
 * the list only grows.  The attributes of the Python object are modelled as
 * a map from attribute name to value.
 */
module EditorEditable {
  import opened Wrappers
  import opened EditorEvent

  /** A Python attribute value, as far as this file looks at it. */
  datatype Value = EditableObject(obj: Editable) | PlainValue(text: string)

  /** The arguments that `update` passes to `notify`: `(name, new_value)`. */
  type UpdateArgs = (string, Value)

  /** The result of `getattr`, which raises AttributeError for a missing name. */
  datatype Lookup = Found(isEditable: bool) | AttributeError

  class EditableField {
    const parent: Editable
    const name: string
    const readonly: bool
    const event: Event?<UpdateArgs>
    /** `new_value` only exists once `update` has been called. */
    var newValue: Option<Value>

    /** `EditableField(parent, name, readonly, event)`. */
    constructor (parent: Editable, name: string, readonly: bool, event: Event?<UpdateArgs>)
      ensures this.parent == parent && this.name == name
      ensures this.readonly == readonly && this.event == event
      ensures newValue == None
    {
      this.parent := parent;
      this.name := name;
      this.readonly := readonly;
      this.event := event;
      newValue := None;
    }

    /** `EditableField(parent, name)`: the defaults are `readonly=False` and `event=None`. */
    constructor WithDefaults(parent: Editable, name: string)
      ensures this.parent == parent && this.name == name
      ensures !this.readonly && this.event == null
      ensures newValue == None
    {
      this.parent := parent;
      this.name := name;
      this.readonly := false;
      this.event := null;
      newValue := None;
    }

    /** `update(new_value)`: stores the value, then notifies `(name, new_value)`
      * to the event's observers if there is an event, and nobody otherwise. */
    method Update(v: Value) returns (calls: seq<Call<UpdateArgs>>)
      modifies this
      ensures newValue == Some(v)
      ensures event == null ==> calls == []
      ensures event != null ==> |calls| == |event.observers|
      ensures event != null ==> forall i :: 0 <= i < |calls| ==> calls[i] == Call(event.observers[i], (name, v))
    {
      newValue := Some(v);
      calls := [];
      if event != null {
        calls := event.Notify((name, v));
      }
    }

    /** `inherits_editable()`: whether the parent's attribute of this name
      * holds an Editable; a missing attribute raises AttributeError. */
    function InheritsEditable(): (r: Lookup)
      reads this, parent
      ensures r == AttributeError <==> name !in parent.attributes
      ensures r.Found? ==> (r.isEditable <==> parent.attributes[name].EditableObject?)
    {
      if name in parent.attributes then Found(parent.attributes[name].EditableObject?)
      else AttributeError
    }
  }

  class Editable {
    /** The attributes of the object (those `hasattr`/`getattr` see). */
    var attributes: map<string, Value>
    var markedFields: seq<EditableField>

    /** `Editable.__init__`: starts with no marked fields. */
    constructor (attributes: map<string, Value>)
      ensures this.attributes == attributes
      ensures markedFields == []
    {
      this.attributes := attributes;
      markedFields := [];
    }

    /** `mark_editable(attr_name, readonly, event)`: asserts that the attribute
      * exists, then appends exactly one field whose parent is this object;
      * earlier fields keep their order. */
    method MarkEditable(attrName: string, readonly: bool, event: Event?<UpdateArgs>)
      returns (ok: bool)
      modifies this
      ensures ok == (attrName in attributes)
      ensures attributes == old(attributes)
      ensures !ok ==> markedFields == old(markedFields)
      ensures ok ==> |markedFields| == |old(markedFields)| + 1
      ensures ok ==> markedFields[..|old(markedFields)|] == old(markedFields)
      ensures ok ==> var f := markedFields[|old(markedFields)|];
                     fresh(f) && f.parent == this && f.name == attrName &&
                     f.readonly == readonly && f.event == event && f.newValue == None
    {
      if attrName !in attributes {
        return false;
      }
      var f := new EditableField(this, attrName, readonly, event);
      markedFields := markedFields + [f];
      assert markedFields[..|old(markedFields)|] == old(markedFields);
      return true;
    }

    /** The `marked_fields` property: every marked field, in marking order. */
    function MarkedFields(): (r: seq<EditableField>)
      reads this
      ensures r == markedFields
    {
      markedFields
    }
  }
}
