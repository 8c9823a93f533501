/**
 * The secrets store: the list of secret variables, replaced wholesale by
 * every edit, each new list also handed to the backend's save-all call.
 */
module SecretsContext {
  import opened Options
  import opened VariableSubstitution
  import opened ParamList

  class SecretsStore {
    var secrets: seq<Parameter>
    /** The lists passed to `api.secrets.saveAll`, oldest first. */
    var saved: seq<seq<Parameter>>

    constructor ()
      ensures secrets == [] && saved == []
    {
      secrets, saved := [], [];
    }

    /** `saveSecrets` (also exposed as `setSecrets`): the state becomes the list, then the list is saved. */
    method SaveSecrets(newSecrets: seq<Parameter>)
      modifies this
      ensures secrets == newSecrets && saved == old(saved) + [newSecrets]
    {
      secrets := newSecrets;
      saved := saved + [newSecrets];
    }

    /** `addSecret`: a blank enabled row at the end. */
    method AddSecret()
      modifies this
      ensures secrets == Append(old(secrets)) && saved == old(saved) + [secrets]
    {
      SaveSecrets(secrets + [Parameter("", "", true)]);
    }

    /** `updateSecret(index, field, value)` for a row that exists. */
    method UpdateSecret(index: nat, u: FieldUpdate)
      requires index < |secrets|
      modifies this
      ensures secrets == SetAt(old(secrets), index, u) && saved == old(saved) + [secrets]
    {
      var newSecrets := secrets;
      newSecrets := newSecrets[index := WithField(newSecrets[index], u)];
      SaveSecrets(newSecrets);
    }

    /** `removeSecret(index)` */
    method RemoveSecret(index: nat)
      modifies this
      ensures secrets == RemoveAt(old(secrets), index) && saved == old(saved) + [secrets]
    {
      SaveSecrets(RemoveAt(secrets, index));
    }

    /** `getSecretValue(key)`: the value of the first enabled secret with the key. */
    function GetSecretValue(key: string): (r: Option<string>)
      reads this
      ensures r.Some? ==> exists j :: 0 <= j < |secrets| && secrets[j].key == key && secrets[j].isEnabled && secrets[j].value == r.value
      ensures r.None? <==> forall j :: 0 <= j < |secrets| ==> !(secrets[j].key == key && secrets[j].isEnabled)
    {
      FindEnabledValueWitness(secrets, key);
      FindEnabledValue(secrets, key)
    }
  }

  lemma {:induction false} FindEnabledValueWitness(list: seq<Parameter>, key: string)
    ensures FindEnabledValue(list, key).Some? ==>
      exists j :: 0 <= j < |list| && list[j].key == key && list[j].isEnabled && list[j].value == FindEnabledValue(list, key).value
    decreases |list|
  {
    if list != [] && !(list[0].key == key && list[0].isEnabled) {
      FindEnabledValueWitness(list[1..], key);
      if FindEnabledValue(list[1..], key).Some? {
        var j :| 0 <= j < |list[1..]| && list[1..][j].key == key && list[1..][j].isEnabled && list[1..][j].value == FindEnabledValue(list, key).value;
        assert list[j + 1] == list[1..][j];
      }
    }
  }
}
