/**
 * The request headers editor: each handler copies the header list,
 * changes one row and hands the new list to `onChange`, which the page
 * stores as the composer's headers. Environment and global headers are
 * shown read-only, filtered.
 */
module HeadersEditor {
  import opened VariableSubstitution
  import opened ParamList

  /** The field a text box edits. */
  datatype TextField = Key | Value

  class Editor {
    /** The list the editor shows, as the page holds it. */
    var headers: seq<Parameter>
    /** The lists passed to `onChange`, oldest first. */
    var changes: seq<seq<Parameter>>

    constructor (initial: seq<Parameter>)
      ensures headers == initial && changes == []
    {
      headers, changes := initial, [];
    }

    /** `onChange`: the page stores the new list. */
    method OnChange(newHeaders: seq<Parameter>)
      modifies this
      ensures headers == newHeaders && changes == old(changes) + [newHeaders]
    {
      headers := newHeaders;
      changes := changes + [newHeaders];
    }

    /** `addHeader` */
    method AddHeader()
      modifies this
      ensures headers == Append(old(headers)) && changes == old(changes) + [headers]
    {
      OnChange(headers + [Parameter("", "", true)]);
    }

    /** `updateHeader(index, field, newValue)`: only the key or the value of the row. */
    method UpdateHeader(index: nat, field: TextField, newValue: string)
      requires index < |headers|
      modifies this
      ensures headers == SetAt(old(headers), index, if field == Key then SetKey(newValue) else SetValue(newValue))
      ensures changes == old(changes) + [headers]
    {
      var newHeaders := headers;
      var row := newHeaders[index];
      newHeaders := newHeaders[index := if field == Key then row.(key := newValue) else row.(value := newValue)];
      OnChange(newHeaders);
    }

    /** `toggleHeader(index)` */
    method ToggleHeader(index: nat)
      requires index < |headers|
      modifies this
      ensures headers == Toggle(old(headers), index) && changes == old(changes) + [headers]
    {
      var newHeaders := headers;
      newHeaders := newHeaders[index := newHeaders[index].(isEnabled := !newHeaders[index].isEnabled)];
      OnChange(newHeaders);
    }

    /** `removeHeader(index)` */
    method RemoveHeader(index: nat)
      modifies this
      ensures headers == RemoveAt(old(headers), index) && changes == old(changes) + [headers]
    {
      OnChange(RemoveAt(headers, index));
    }
  }

  /** The read-only environment and global rows: exactly the enabled ones with a key. */
  function DisplayedHeaders(environmentHeaders: seq<Parameter>, globalHeaders: seq<Parameter>): (r: (seq<Parameter>, seq<Parameter>))
    ensures forall p :: p in r.0 <==> p in environmentHeaders && p.isEnabled && p.key != ""
    ensures forall p :: p in r.1 <==> p in globalHeaders && p.isEnabled && p.key != ""
  {
    (Visible(environmentHeaders), Visible(globalHeaders))
  }
}
