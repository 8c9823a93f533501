/**
 * Placeholder substitution: every enabled variable's `{{key}}` is replaced
 * by its value, in list order, in passes repeated until a pass changes
 * nothing or five passes have run.
 */
module VariableSubstitution {
  import opened Options
  import opened Text
  import opened Filters

  /** An environment variable, a secret, a header or a global header: they share this shape. */
  datatype Parameter = Parameter(key: string, value: string, isEnabled: bool)

  /** A named variable set with its own header list; a missing `headers` is the empty list. */
  datatype Environment = Environment(id: string, name: string, variables: seq<Parameter>, headers: seq<Parameter>)

  /** `environments.find(e => e.id === id)`: the first environment with the id; a null id matches none. */
  function FindEnvironment(envs: seq<Environment>, activeId: Option<string>): (r: Option<Environment>)
    ensures r.Some? ==> r.value in envs && activeId == Some(r.value.id)
    ensures r.None? <==> forall e :: e in envs ==> activeId != Some(e.id)
  {
    if envs == [] then None
    else if activeId == Some(envs[0].id) then Some(envs[0])
    else FindEnvironment(envs[1..], activeId)
  }

  /** The first environment with the id is the one found. */
  lemma {:induction false} FindEnvironmentFirst(envs: seq<Environment>, activeId: Option<string>, k: nat)
    requires k < |envs| && activeId == Some(envs[k].id)
    requires forall j :: 0 <= j < k ==> envs[j].id != envs[k].id
    ensures FindEnvironment(envs, activeId) == Some(envs[k])
  {
    if k > 0 {
      FindEnvironmentFirst(envs[1..], activeId, k - 1);
    }
  }

  /** Upper bound on the number of passes, which stops self-referencing variables. */
  const MaxIterations: nat := 5

  function Placeholder(key: string): (p: string)
    ensures |p| == |key| + 4
  {
    "{{" + key + "}}"
  }

  /** The enabled entries of a list, in order. */
  function Enabled(vars: seq<Parameter>): (r: seq<Parameter>)
    ensures |r| <= |vars|
    ensures forall v :: v in r <==> v in vars && v.isEnabled
  {
    if vars == [] then []
    else if vars[0].isEnabled then [vars[0]] + Enabled(vars[1..])
    else Enabled(vars[1..])
  }

  predicate IsOn(v: Parameter) {
    v.isEnabled
  }

  /** `Enabled` is `vars.filter(v => v.isEnabled)`: the enabled entries in order, each once. */
  lemma {:induction false} EnabledIsFilter(vars: seq<Parameter>)
    ensures Enabled(vars) == Filter(vars, IsOn)
    decreases |vars|
  {
    if vars != [] {
      EnabledIsFilter(vars[1..]);
    }
  }

  /**
   * One variable applied to the text: when it is enabled and its placeholder
   * occurs, every occurrence is replaced and the pass counts as a change.
   */
  function Apply(s: string, v: Parameter): (string, bool) {
    if v.isEnabled && Contains(s, Placeholder(v.key))
    then (ReplaceAll(s, Placeholder(v.key), v.value), true)
    else (s, false)
  }

  /** One pass: the variables applied in list order; the flag says whether any of them replaced something. */
  function Pass(s: string, vars: seq<Parameter>): (string, bool)
    decreases vars
  {
    if vars == [] then (s, false)
    else
      var (s1, c1) := Apply(s, vars[0]);
      var (s2, c2) := Pass(s1, vars[1..]);
      (s2, c1 || c2)
  }

  /** Passes repeated while the last one changed something, at most `budget` more times. */
  function Run(s: string, vars: seq<Parameter>, budget: nat): string
    decreases budget
  {
    if budget == 0 then s
    else
      var (s1, changed) := Pass(s, vars);
      if changed then Run(s1, vars, budget - 1) else s1
  }

  /** The number of passes `Run` performs. */
  function Passes(s: string, vars: seq<Parameter>, budget: nat): (n: nat)
    ensures n <= budget
    ensures budget > 0 ==> n >= 1
    decreases budget
  {
    if budget == 0 then 0
    else
      var (s1, changed) := Pass(s, vars);
      if changed then 1 + Passes(s1, vars, budget - 1) else 1
  }

  /** The value `substituteVariables(content, variables)` returns. */
  function Substitute(content: string, vars: seq<Parameter>): string {
    if content == [] || vars == [] then content
    else Run(content, vars, MaxIterations)
  }

  /** How many passes `substituteVariables` makes (0 on its early return). */
  function PassCount(content: string, vars: seq<Parameter>): (n: nat)
    ensures n <= MaxIterations
    ensures n == 0 <==> content == [] || vars == []
  {
    if content == [] || vars == [] then 0
    else Passes(content, vars, MaxIterations)
  }

  /**
   * `substituteVariables`: the bounded fixpoint loop, with the inner loop
   * over the variables.
   */
  method SubstituteVariables(content: string, vars: seq<Parameter>) returns (result: string)
    ensures result == Substitute(content, vars)
  {
    if content == [] || |vars| == 0 {
      return content;
    }
    result := content;
    var hasChanged := true;
    var iterations := 0;
    while hasChanged && iterations < MaxIterations
      invariant 0 <= iterations <= MaxIterations
      invariant hasChanged ==> Run(result, vars, MaxIterations - iterations) == Run(content, vars, MaxIterations)
      invariant !hasChanged ==> result == Run(content, vars, MaxIterations)
      decreases MaxIterations - iterations
    {
      hasChanged := false;
      iterations := iterations + 1;
      ghost var start := result;
      for i := 0 to |vars|
        invariant (Pass(result, vars[i..]).0, hasChanged || Pass(result, vars[i..]).1) == Pass(start, vars)
      {
        assert vars[i..][1..] == vars[i + 1..];
        var variable := vars[i];
        if !variable.isEnabled {
          continue;
        }
        var placeholder := "{{" + variable.key + "}}";
        if Contains(result, placeholder) {
          result := ReplaceAll(result, placeholder, variable.value);
          hasChanged := true;
        }
      }
      assert vars[|vars|..] == [];
    }
  }

  /** `substituteHeaders`: substitution mapped over every entry's key and value. */
  function SubstituteHeaders(headers: seq<Parameter>, vars: seq<Parameter>): (r: seq<Parameter>)
    ensures |r| == |headers|
    ensures forall i :: 0 <= i < |r| ==>
      r[i] == Parameter(Substitute(headers[i].key, vars), Substitute(headers[i].value, vars), headers[i].isEnabled)
  {
    seq(|headers|, i requires 0 <= i < |headers| =>
      headers[i].(key := Substitute(headers[i].key, vars), value := Substitute(headers[i].value, vars)))
  }

  /** No enabled variable's placeholder occurs in the text. */
  predicate Untouched(s: string, vars: seq<Parameter>) {
    forall v :: v in vars && v.isEnabled ==> !Contains(s, Placeholder(v.key))
  }

  lemma {:induction false} PassMiss(s: string, vars: seq<Parameter>)
    requires Untouched(s, vars)
    ensures Pass(s, vars) == (s, false)
    decreases vars
  {
    if vars != [] {
      assert vars[0] in vars;
      assert forall v :: v in vars[1..] ==> v in vars;
      PassMiss(s, vars[1..]);
    }
  }

  /** A miss: when no enabled placeholder occurs, the text comes back unchanged after one pass. */
  lemma SubstituteMiss(content: string, vars: seq<Parameter>)
    requires Untouched(content, vars)
    ensures Substitute(content, vars) == content
    ensures PassCount(content, vars) <= 1
  {
    if content != [] && vars != [] {
      PassMiss(content, vars);
    }
  }

  /** With no variables nothing changes, whatever the text. */
  lemma SubstituteNoVariables(content: string)
    ensures Substitute(content, []) == content && PassCount(content, []) == 0
  {
  }

  lemma {:induction false} PassIgnoresDisabled(s: string, vars: seq<Parameter>)
    ensures Pass(s, vars) == Pass(s, Enabled(vars))
    decreases vars
  {
    if vars != [] {
      PassIgnoresDisabled(Apply(s, vars[0]).0, vars[1..]);
      PassIgnoresDisabled(s, vars[1..]);
      if vars[0].isEnabled {
        assert Enabled(vars) == [vars[0]] + Enabled(vars[1..]);
        assert Enabled(vars)[1..] == Enabled(vars[1..]);
      }
    }
  }

  lemma {:induction false} RunIgnoresDisabled(s: string, vars: seq<Parameter>, budget: nat)
    ensures Run(s, vars, budget) == Run(s, Enabled(vars), budget)
    decreases budget
  {
    if budget > 0 {
      PassIgnoresDisabled(s, vars);
      RunIgnoresDisabled(Pass(s, vars).0, vars, budget - 1);
    }
  }

  lemma {:induction false} AllDisabledPass(s: string, vars: seq<Parameter>)
    requires Enabled(vars) == []
    ensures Pass(s, vars) == (s, false)
  {
    PassIgnoresDisabled(s, vars);
  }

  /** Disabled variables never matter: substituting with only the enabled ones gives the same text. */
  lemma DisabledAreInert(content: string, vars: seq<Parameter>)
    ensures Substitute(content, vars) == Substitute(content, Enabled(vars))
  {
    if content != [] && vars != [] {
      if Enabled(vars) == [] {
        AllDisabledPass(content, vars);
      } else {
        RunIgnoresDisabled(content, vars, MaxIterations);
      }
    }
  }

  /** One pass replaces the placeholder of its first variable everywhere, by split/join. */
  lemma FirstVariableSplitJoin(s: string, v: Parameter, rest: seq<Parameter>)
    requires v.isEnabled && Contains(s, Placeholder(v.key))
    ensures Pass(s, [v] + rest)
      == (Pass(Join(Split(s, Placeholder(v.key)), v.value), rest).0, true)
  {
    ReplaceAllIsSplitJoin(s, Placeholder(v.key), v.value);
    assert ([v] + rest)[1..] == rest;
  }

  lemma {:induction false} SelfReferenceRun(s: string, v: Parameter, budget: nat)
    requires v.isEnabled && Contains(v.value, Placeholder(v.key)) && Contains(s, Placeholder(v.key))
    ensures Contains(Run(s, [v], budget), Placeholder(v.key))
    ensures Passes(s, [v], budget) == budget
    decreases budget
  {
    if budget > 0 {
      var p := Placeholder(v.key);
      var s1 := ReplaceAll(s, p, v.value);
      ReplaceAllKeeps(s, p, v.value);
      assert Apply(s, v) == (s1, true);
      assert [v][1..] == [];
      assert Pass(s1, []) == (s1, false);
      assert Pass(s, [v]) == (s1, true);
      SelfReferenceRun(s1, v, budget - 1);
    }
  }

  /**
   * A variable whose value holds its own placeholder cannot loop: the fifth
   * pass ends the loop and the placeholder is still in the text.
   */
  lemma SelfReferenceStops(content: string, v: Parameter)
    requires v.isEnabled && Contains(v.value, Placeholder(v.key)) && Contains(content, Placeholder(v.key))
    ensures Contains(Substitute(content, [v]), Placeholder(v.key))
    ensures PassCount(content, [v]) == MaxIterations
  {
    SelfReferenceRun(content, v, MaxIterations);
  }

  lemma NoBraceUntouched(s: string, vars: seq<Parameter>)
    requires '{' !in s
    ensures Untouched(s, vars)
  {
    forall v | v in vars && v.isEnabled
      ensures !Contains(s, Placeholder(v.key))
    {
      NoBraceNotContains(s, Placeholder(v.key));
    }
  }

  /** A brace-free key's placeholder holds no other key's placeholder. */
  lemma DistinctPlaceholders(k1: string, k2: string)
    requires k1 != k2 && '{' !in k2 && '}' !in k2
    ensures !Contains(Placeholder(k2), Placeholder(k1))
  {
    var p1, p2 := Placeholder(k1), Placeholder(k2);
    assert !StartsWith(p2, p1) by {
      assert p1[2..|k1| + 2] == k1;
      assert p2[2..|k2| + 2] == k2;
      if |k1| < |k2| {
        assert p1[|k1| + 2] == '}';
        assert p2[|k1| + 2] == k2[|k1|];
        assert k2[|k1|] in k2;
      }
    }
    var rest := p2[1..];
    assert rest == "{" + (k2 + "}}");
    assert rest[1..] == k2 + "}}";
    assert !StartsWith(rest, p1) by {
      if |p1| <= |rest| {
        assert rest[1] != '{' by {
          if |k2| > 0 { assert rest[1] == k2[0]; assert k2[0] in k2; }
        }
        assert rest[..|p1|][1] == rest[1];
      }
    }
    assert '{' !in k2 + "}}";
    NoBraceNotContains(k2 + "}}", p1);
  }

  /**
   * Two placeholders resolved in one pass, the shape of the example
   * `https://{{host}}/users/{{id}}` with host and id: brace-free text
   * around them and brace-free values give the text with both values in,
   * after one changing pass and one pass that changes nothing.
   */
  lemma TwoPlaceholders(a: string, b: string, h: Parameter, i: Parameter)
    requires h.isEnabled && i.isEnabled && h.key != i.key
    requires '{' !in i.key && '}' !in i.key
    requires '{' !in a && '{' !in b && '{' !in h.value && '{' !in i.value
    ensures Substitute(a + Placeholder(h.key) + b + Placeholder(i.key), [h, i]) == a + h.value + b + i.value
    ensures PassCount(a + Placeholder(h.key) + b + Placeholder(i.key), [h, i]) == 2
  {
    var s0 := a + Placeholder(h.key) + b + Placeholder(i.key);
    var front := a + h.value + b;
    var s2 := front + i.value;
    FirstOfTwo(a, b, h, i);
    SecondOfTwo(front, i);
    assert [h, i][1..] == [i] && [i][1..] == [];
    assert Pass(s2, []) == (s2, false);
    assert Pass(front + Placeholder(i.key), [i]) == (s2, true);
    assert Pass(s0, [h, i]) == (s2, true);
    NoBraceUntouched(s2, [h, i]);
    PassMiss(s2, [h, i]);
  }

  /** In the two-placeholder text, the first variable replaces only its own placeholder. */
  lemma FirstOfTwo(a: string, b: string, h: Parameter, i: Parameter)
    requires h.isEnabled && h.key != i.key
    requires '{' !in i.key && '}' !in i.key
    requires '{' !in a && '{' !in b
    ensures Apply(a + Placeholder(h.key) + b + Placeholder(i.key), h) == (a + h.value + b + Placeholder(i.key), true)
  {
    var ph, pi := Placeholder(h.key), Placeholder(i.key);
    var tail := b + pi;
    assert a + ph + b + pi == a + ph + tail;
    assert StartsWith(ph + tail, ph);
    assert a + ph + tail == a + (ph + tail);
    ContainsSkip(a, ph + tail, ph);
    ReplaceAllSkip(a, ph + tail, ph, h.value);
    assert (ph + tail)[|ph|..] == tail;
    assert ReplaceAll(ph + tail, ph, h.value) == h.value + ReplaceAll(tail, ph, h.value);
    ReplaceAllSkip(b, pi, ph, h.value);
    DistinctPlaceholders(h.key, i.key);
    ReplaceAllMiss(pi, ph, h.value);
    assert a + (h.value + (b + pi)) == a + h.value + b + pi;
  }

  /** A placeholder at the end of a brace-free text is replaced by its value. */
  lemma SecondOfTwo(front: string, i: Parameter)
    requires i.isEnabled && '{' !in front
    ensures Apply(front + Placeholder(i.key), i) == (front + i.value, true)
  {
    var pi := Placeholder(i.key);
    ReplaceSole(front, [], pi, i.value);
    assert front + pi + [] == front + pi;
    assert front + i.value + [] == front + i.value;
  }

  /** A sole occurrence between texts free of its first character is found and replaced in place. */
  lemma ReplaceSole(a: string, b: string, p: string, r: string)
    requires |p| > 0 && p[0] !in a && p[0] !in b
    ensures Contains(a + p + b, p)
    ensures ReplaceAll(a + p + b, p, r) == a + r + b
  {
    assert a + p + b == a + (p + b);
    assert StartsWith(p + b, p);
    ContainsSkip(a, p + b, p);
    ReplaceAllSkip(a, p + b, p, r);
    assert (p + b)[|p|..] == b;
    NoBraceNotContains(b, p);
    ReplaceAllMiss(b, p, r);
  }

  /** Between brace-free texts, one key's placeholder holds no other brace-free key's placeholder. */
  lemma PlaceholderMiss(a: string, b: string, k: string, o: string)
    requires k != o && '{' !in k && '}' !in k && '{' !in o && '}' !in o
    requires '{' !in a && '{' !in b
    ensures !Contains(a + Placeholder(k) + b, Placeholder(o))
  {
    var pk, po := Placeholder(k), Placeholder(o);
    var t := pk + b;
    assert a + pk + b == a + t;
    ContainsSkip(a, t, po);
    assert !StartsWith(t, po) by {
      if |po| <= |pk| {
        assert t[..|po|] == pk[..|po|];
        DistinctPlaceholders(o, k);
      } else {
        assert t[|k| + 2] == '}';
        assert po[|k| + 2] == o[|k|];
        assert o[|k|] in o;
      }
    }
    var t1 := t[1..];
    assert t1 == "{" + (k + "}}" + b);
    assert !StartsWith(t1, po) by {
      if |po| <= |t1| {
        assert t1[1] != '{' by {
          if |k| > 0 { assert t1[1] == k[0]; assert k[0] in k; }
        }
        assert t1[..|po|][1] == t1[1];
      }
    }
    assert t1[1..] == k + "}}" + b;
    assert '{' !in k + "}}" + b;
    NoBraceNotContains(k + "}}" + b, po);
  }

  /**
   * One level of chaining, forward: when a variable's value is another
   * variable's placeholder and that variable comes later in the list, one
   * pass resolves both and a second pass finds nothing left.
   */
  lemma ChainedForward(a: string, b: string, outer: Parameter, inner: Parameter)
    requires outer.isEnabled && inner.isEnabled && outer.key != inner.key
    requires outer.value == Placeholder(inner.key)
    requires '{' !in outer.key && '}' !in outer.key && '{' !in inner.key && '}' !in inner.key
    requires '{' !in a && '{' !in b && '{' !in inner.value
    ensures Substitute(a + Placeholder(outer.key) + b, [outer, inner]) == a + inner.value + b
    ensures PassCount(a + Placeholder(outer.key) + b, [outer, inner]) == 2
  {
    var vars := [outer, inner];
    var s0 := a + Placeholder(outer.key) + b;
    var s1 := a + Placeholder(inner.key) + b;
    var s2 := a + inner.value + b;
    ReplaceSole(a, b, Placeholder(outer.key), outer.value);
    ReplaceSole(a, b, Placeholder(inner.key), inner.value);
    assert Apply(s0, outer) == (s1, true);
    assert Apply(s1, inner) == (s2, true);
    assert vars[1..] == [inner] && [inner][1..] == [];
    assert Pass(s1, [inner]) == (s2, true);
    assert Pass(s0, vars) == (s2, true);
    assert '{' !in s2;
    NoBraceUntouched(s2, vars);
    PassMiss(s2, vars);
  }

  /**
   * One level of chaining, backward: when the variable referred to comes
   * first, the first pass only puts its placeholder in, the second
   * resolves it, and a third finds nothing left — still within the five.
   */
  lemma ChainedBackward(a: string, b: string, outer: Parameter, inner: Parameter)
    requires outer.isEnabled && inner.isEnabled && outer.key != inner.key
    requires outer.value == Placeholder(inner.key)
    requires '{' !in outer.key && '}' !in outer.key && '{' !in inner.key && '}' !in inner.key
    requires '{' !in a && '{' !in b && '{' !in inner.value
    ensures Substitute(a + Placeholder(outer.key) + b, [inner, outer]) == a + inner.value + b
    ensures PassCount(a + Placeholder(outer.key) + b, [inner, outer]) == 3
  {
    var vars := [inner, outer];
    var s0 := a + Placeholder(outer.key) + b;
    var s1 := a + Placeholder(inner.key) + b;
    var s2 := a + inner.value + b;
    PlaceholderMiss(a, b, outer.key, inner.key);
    ReplaceSole(a, b, Placeholder(outer.key), outer.value);
    ReplaceSole(a, b, Placeholder(inner.key), inner.value);
    assert vars[1..] == [outer] && [outer][1..] == [];
    assert Apply(s0, inner) == (s0, false);
    assert Apply(s0, outer) == (s1, true);
    assert Pass(s0, [outer]) == (s1, true);
    assert Pass(s0, vars) == (s1, true);
    assert '{' !in s2;
    NoBraceNotContains(s2, Placeholder(outer.key));
    assert Apply(s1, inner) == (s2, true);
    assert Apply(s2, outer) == (s2, false);
    assert Pass(s2, [outer]) == (s2, false);
    assert Pass(s1, vars) == (s2, true);
    NoBraceUntouched(s2, vars);
    PassMiss(s2, vars);
  }
}
