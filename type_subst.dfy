/**
 * Type-parameter bindings and their substitution into type expressions
 * (`createTypeBindings` and `substituteTypeBindings`). The GraphQL loader
 * and the database loader carry identical copies of both; this module is
 * the one definition the rest of the model uses.
 */
module TypeSubst {
  import opened Adl

  /**
   * A type parameter paired with the argument written at a use site. The
   * argument is `None` when the use site supplies fewer arguments than the
   * declaration has parameters (the source stores `undefined` there).
   */
  datatype TypeBinding = TypeBinding(name: string, value: Option<TypeExpr>)

  /** The bindings `createTypeBindings(names, values)` builds: one per name, in order. */
  function TypeBindings(names: seq<string>, values: seq<TypeExpr>): (r: seq<TypeBinding>)
    ensures |r| == |names|
    ensures forall i :: 0 <= i < |names| ==>
              r[i] == TypeBinding(names[i], if i < |values| then Some(values[i]) else None)
  {
    if |names| == 0 then []
    else
      var k := |names| - 1;
      TypeBindings(names[..k], values) + [TypeBinding(names[k], if k < |values| then Some(values[k]) else None)]
  }

  /** createTypeBindings: the loop that pushes one binding per parameter name. */
  method CreateTypeBindings(names: seq<string>, values: seq<TypeExpr>) returns (result: seq<TypeBinding>)
    ensures result == TypeBindings(names, values)
  {
    result := [];
    var i := 0;
    while i < |names|
      invariant 0 <= i <= |names|
      invariant result == TypeBindings(names[..i], values)
    {
      result := result + [TypeBinding(names[i], if i < |values| then Some(values[i]) else None)];
      i := i + 1;
      assert names[..i][..i - 1] == names[..i - 1];
    }
    assert names[..i] == names;
  }

  /** `bindings.find(b => b.name === name)`: the first binding of that name. */
  function Find(bs: seq<TypeBinding>, name: string): (r: Option<TypeBinding>)
    ensures r.None? <==> forall i :: 0 <= i < |bs| ==> bs[i].name != name
    ensures r.Some? ==> exists i :: 0 <= i < |bs| && bs[i] == r.value
                                    && bs[i].name == name
                                    && forall j :: 0 <= j < i ==> bs[j].name != name
  {
    if |bs| == 0 then None
    else if bs[0].name == name then Some(bs[0])
    else
      var r := Find(bs[1..], name);
      assert r.Some? ==> exists i :: 1 <= i < |bs| && bs[i] == r.value && bs[i].name == name
                                     && forall j :: 1 <= j < i ==> bs[j].name != name;
      r
  }

  /** The type parameters an expression mentions anywhere. */
  ghost function ParamsIn(t: TypeExpr): set<string>
    decreases t
  {
    (if t.typeRef.TypeParam? then {t.typeRef.param} else {})
    + set i, p | 0 <= i < |t.parameters| && p in ParamsIn(t.parameters[i]) :: p
  }

  /**
   * substituteTypeBindings: arguments are rewritten first; then a bound
   * type parameter without arguments becomes its bound expression, and
   * every other node keeps its `typeRef` over the rewritten arguments.
   */
  function Substitute(t: TypeExpr, bs: seq<TypeBinding>): (r: Result<TypeExpr>)
    decreases t, 1
    ensures r.Err? ==> r.error.TypeParamNotConcrete? || r.error.UndefinedTypeArgument?
    // a bound parameter applied to arguments is not a concrete type
    ensures t.typeRef.TypeParam? && Find(bs, t.typeRef.param).Some? && |t.parameters| != 0
            ==> r.Err?
    // a bound parameter without arguments is replaced by its binding verbatim
    ensures t.typeRef.TypeParam? && Find(bs, t.typeRef.param).Some? && |t.parameters| == 0
            ==> r == (match Find(bs, t.typeRef.param).value.value
                      case Some(v) => Ok(v)
                      case None => Err(UndefinedTypeArgument(t.typeRef.param)))
  {
    var parameters :- SubstituteAll(t.parameters, bs);
    if t.typeRef.TypeParam? then
      match Find(bs, t.typeRef.param)
      case None => Ok(TypeExpr(t.typeRef, parameters))
      case Some(binding) =>
        if |parameters| != 0 then Err(TypeParamNotConcrete)
        else if binding.value.None? then Err(UndefinedTypeArgument(t.typeRef.param))
        else Ok(binding.value.value)
    else Ok(TypeExpr(t.typeRef, parameters))
  }

  /** `texpr.parameters.map(te => substituteTypeBindings(te, bindings))`; the first failure aborts. */
  function SubstituteAll(ts: seq<TypeExpr>, bs: seq<TypeBinding>): (r: Result<seq<TypeExpr>>)
    decreases ts, 0
    ensures r.Ok? <==> forall i :: 0 <= i < |ts| ==> Substitute(ts[i], bs).Ok?
    ensures r.Ok? ==> |r.value| == |ts| && forall i :: 0 <= i < |ts| ==> Substitute(ts[i], bs) == Ok(r.value[i])
    ensures r.Err? ==> exists i :: 0 <= i < |ts| && Substitute(ts[i], bs) == Err(r.error)
  {
    if |ts| == 0 then Ok([])
    else
      var head :- Substitute(ts[0], bs);
      var tail :- SubstituteAll(ts[1..], bs);
      assert forall i :: 1 <= i < |ts| ==> ts[i] == ts[1..][i - 1];
      Ok([head] + tail)
  }

  /**
   * Primitive and reference nodes, and unbound type parameters, keep their
   * `typeRef` and their number of arguments, and each argument is substituted.
   */
  lemma SubstituteNode(t: TypeExpr, bs: seq<TypeBinding>)
    requires !(t.typeRef.TypeParam? && Find(bs, t.typeRef.param).Some?)
    ensures Substitute(t, bs).Ok? <==> forall i :: 0 <= i < |t.parameters| ==> Substitute(t.parameters[i], bs).Ok?
    ensures Substitute(t, bs).Ok? ==>
              var r := Substitute(t, bs).value;
              r.typeRef == t.typeRef && |r.parameters| == |t.parameters|
              && forall i :: 0 <= i < |t.parameters| ==> Substitute(t.parameters[i], bs) == Ok(r.parameters[i])
  {
  }

  /** A binding list binds none of the parameters t mentions. */
  ghost predicate Unbound(t: TypeExpr, bs: seq<TypeBinding>) {
    forall p :: p in ParamsIn(t) ==> Find(bs, p).None?
  }

  /** Substitution leaves an expression unchanged when it binds none of its parameters. */
  lemma {:induction false} SubstituteUnbound(t: TypeExpr, bs: seq<TypeBinding>)
    requires Unbound(t, bs)
    ensures Substitute(t, bs) == Ok(t)
    decreases t
  {
    forall i | 0 <= i < |t.parameters| ensures Substitute(t.parameters[i], bs) == Ok(t.parameters[i]) {
      assert ParamsIn(t.parameters[i]) <= ParamsIn(t);
      SubstituteUnbound(t.parameters[i], bs);
    }
    assert SubstituteAll(t.parameters, bs).value == t.parameters;
  }

  /** Substituting under the empty binding list is the identity. */
  lemma SubstituteEmpty(t: TypeExpr)
    ensures Substitute(t, []) == Ok(t)
  {
    SubstituteUnbound(t, []);
  }

  /** A closed expression (no type parameters) is unaffected by any bindings. */
  lemma SubstituteClosed(t: TypeExpr, bs: seq<TypeBinding>)
    requires ParamsIn(t) == {}
    ensures Substitute(t, bs) == Ok(t)
  {
    SubstituteUnbound(t, bs);
  }

  /** Every parameter t mentions is bound to a supplied, closed argument. */
  ghost predicate ClosingBindings(t: TypeExpr, bs: seq<TypeBinding>) {
    forall p :: p in ParamsIn(t) ==>
      Find(bs, p).Some? && Find(bs, p).value.value.Some? && ParamsIn(Find(bs, p).value.value.value) == {}
  }

  /** Substituting closed arguments for every parameter yields a closed expression. */
  lemma {:induction false} SubstituteCloses(t: TypeExpr, bs: seq<TypeBinding>)
    requires ClosingBindings(t, bs)
    requires Substitute(t, bs).Ok?
    ensures ParamsIn(Substitute(t, bs).value) == {}
    decreases t
  {
    var r := Substitute(t, bs).value;
    if t.typeRef.TypeParam? {
      assert t.typeRef.param in ParamsIn(t);
    } else {
      forall i | 0 <= i < |t.parameters| ensures ParamsIn(r.parameters[i]) == {} {
        assert ParamsIn(t.parameters[i]) <= ParamsIn(t);
        SubstituteCloses(t.parameters[i], bs);
      }
      assert ParamsIn(r) == {};
    }
  }
}
