/**
 * The global headers store: headers added to every request, replaced
 * wholesale by every edit, each new list also handed to the backend's
 * save-all call.
 */
module GlobalHeadersContext {
  import opened VariableSubstitution
  import opened ParamList

  class GlobalHeadersStore {
    var globalHeaders: seq<Parameter>
    /** The lists passed to `api.globalHeaders.saveAll`, oldest first. */
    var saved: seq<seq<Parameter>>

    constructor ()
      ensures globalHeaders == [] && saved == []
    {
      globalHeaders, saved := [], [];
    }

    /** `saveHeaders` (also exposed as `setGlobalHeaders`): the state becomes the list, then the list is saved. */
    method SaveHeaders(headers: seq<Parameter>)
      modifies this
      ensures globalHeaders == headers && saved == old(saved) + [headers]
    {
      globalHeaders := headers;
      saved := saved + [headers];
    }

    /** `addGlobalHeader`: a blank enabled header at the end. */
    method AddGlobalHeader()
      modifies this
      ensures globalHeaders == Append(old(globalHeaders)) && saved == old(saved) + [globalHeaders]
    {
      SaveHeaders(globalHeaders + [Parameter("", "", true)]);
    }

    /** `updateGlobalHeader(index, field, value)` for a header that exists. */
    method UpdateGlobalHeader(index: nat, u: FieldUpdate)
      requires index < |globalHeaders|
      modifies this
      ensures globalHeaders == SetAt(old(globalHeaders), index, u) && saved == old(saved) + [globalHeaders]
    {
      var newHeaders := globalHeaders;
      newHeaders := newHeaders[index := WithField(newHeaders[index], u)];
      SaveHeaders(newHeaders);
    }

    /** `removeGlobalHeader(index)` */
    method RemoveGlobalHeader(index: nat)
      modifies this
      ensures globalHeaders == RemoveAt(old(globalHeaders), index) && saved == old(saved) + [globalHeaders]
    {
      SaveHeaders(RemoveAt(globalHeaders, index));
    }
  }
}
