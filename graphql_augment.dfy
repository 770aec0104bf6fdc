/**
 * Monomorphic GraphQL type names for the AST augmentation pass: a
 * reference applied to arguments is named `_Name_Arg1_Arg2`, each argument
 * named the same way; a bare reference keeps its declaration name.
 */
module GraphqlAugment {
  import opened Adl
  import Text
  import GraphqlSchema

  /**
   * typeExprToGraphqlType. Primitives use the scalar table and are not
   * looked into; a type parameter that is reached is refused.
   */
  function TypeExprToGraphqlType(te: TypeExpr): Result<string>
    decreases te, 1
  {
    match te.typeRef
    case Primitive(p) => Ok(GraphqlSchema.Adl2GraphqlType(p))
    case Reference(sn) =>
      if |te.parameters| > 0 then
        var args :- ArgNames(te, |te.parameters|);
        Ok("_" + sn.name + "_" + Text.Join(args, "_"))
      else Ok(sn.name)
    case TypeParam(_) => Err(TypeParamNotValid)
  }

  /** The names of the first n arguments of te, in order; the first failure aborts. */
  function ArgNames(te: TypeExpr, n: nat): Result<seq<string>>
    requires n <= |te.parameters|
    decreases te, 0, n
  {
    if n == 0 then Ok([])
    else
      var init :- ArgNames(te, n - 1);
      var last :- TypeExprToGraphqlType(te.parameters[n - 1]);
      Ok(init + [last])
  }

  /**
   * The type parameters a name would reach: those not under a primitive.
   * A parameter under a primitive (such as `Vector<T>`) is not reached.
   */
  predicate ReachesTypeParam(te: TypeExpr)
    decreases te
  {
    match te.typeRef
    case TypeParam(_) => true
    case Primitive(_) => false
    case Reference(_) => exists i :: 0 <= i < |te.parameters| && ReachesTypeParam(te.parameters[i])
  }

  lemma {:induction false} ArgNamesOk(te: TypeExpr, n: nat)
    requires n <= |te.parameters|
    requires forall i :: 0 <= i < n ==> TypeExprToGraphqlType(te.parameters[i]).Ok?
    ensures ArgNames(te, n).Ok?
    ensures |ArgNames(te, n).value| == n
    ensures forall i :: 0 <= i < n ==> ArgNames(te, n).value[i] == TypeExprToGraphqlType(te.parameters[i]).value
  {
    if n > 0 {
      ArgNamesOk(te, n - 1);
    }
  }

  lemma {:induction false} ArgNamesErr(te: TypeExpr, n: nat, k: nat)
    requires k < n <= |te.parameters|
    requires TypeExprToGraphqlType(te.parameters[k]).Err?
    ensures ArgNames(te, n).Err?
  {
    if n - 1 > k {
      ArgNamesErr(te, n - 1, k);
    }
  }

  /** A name exists exactly when no type parameter is reached. */
  lemma {:induction false} NameExistsIffNoTypeParam(te: TypeExpr)
    ensures TypeExprToGraphqlType(te).Ok? <==> !ReachesTypeParam(te)
    decreases te
  {
    match te.typeRef
    case Primitive(_) =>
    case TypeParam(_) =>
    case Reference(sn) =>
      forall i | 0 <= i < |te.parameters| {
        NameExistsIffNoTypeParam(te.parameters[i]);
      }
      if ReachesTypeParam(te) {
        var k :| 0 <= k < |te.parameters| && ReachesTypeParam(te.parameters[k]);
        ArgNamesErr(te, |te.parameters|, k);
      } else if |te.parameters| > 0 {
        ArgNamesOk(te, |te.parameters|);
      }
  }

  /** A type parameter anywhere a name would reach raises "typeParam not valid here". */
  lemma {:induction false} TypeParamRaises(te: TypeExpr)
    requires ReachesTypeParam(te)
    ensures TypeExprToGraphqlType(te) == Err(TypeParamNotValid)
  {
    NameExistsIffNoTypeParam(te);
    OnlyTypeParamError(te);
  }

  /** Every failure of the argument names is the type-parameter error. */
  lemma {:induction false} ArgNamesFirstErr(te: TypeExpr, n: nat)
    requires n <= |te.parameters|
    ensures ArgNames(te, n).Err? ==> ArgNames(te, n).error == TypeParamNotValid
    decreases te, 0, n
  {
    if n > 0 {
      ArgNamesFirstErr(te, n - 1);
      OnlyTypeParamError(te.parameters[n - 1]);
    }
  }

  /** The only way naming fails is the type-parameter error. */
  lemma {:induction false} OnlyTypeParamError(te: TypeExpr)
    ensures TypeExprToGraphqlType(te).Err? ==> TypeExprToGraphqlType(te).error == TypeParamNotValid
    decreases te, 1
  {
    match te.typeRef
    case Primitive(_) =>
    case TypeParam(_) =>
    case Reference(sn) =>
      if |te.parameters| > 0 {
        ArgNamesFirstErr(te, |te.parameters|);
      }
  }

  /** A reference without arguments is named by its declaration name alone. */
  lemma NameOfBareReference(sn: ScopedName)
    ensures TypeExprToGraphqlType(TypeExpr(Reference(sn), [])) == Ok(sn.name)
  {
  }

  /**
   * A reference with arguments is named "_" + its name + "_" + the names of
   * its arguments joined by "_".
   */
  lemma NameOfApplication(sn: ScopedName, args: seq<TypeExpr>)
    requires |args| > 0
    requires forall i :: 0 <= i < |args| ==> TypeExprToGraphqlType(args[i]).Ok?
    ensures var te := TypeExpr(Reference(sn), args);
            var names := seq(|args|, i requires 0 <= i < |args| => TypeExprToGraphqlType(args[i]).value);
            TypeExprToGraphqlType(te) == Ok("_" + sn.name + "_" + Text.Join(names, "_"))
  {
    var te := TypeExpr(Reference(sn), args);
    ArgNamesOk(te, |args|);
    var names := seq(|args|, i requires 0 <= i < |args| => TypeExprToGraphqlType(args[i]).value);
    assert ArgNames(te, |args|).value == names;
  }

  /** A primitive is named by the scalar table whatever its arguments. */
  lemma NameOfPrimitive(p: string, args: seq<TypeExpr>)
    ensures TypeExprToGraphqlType(TypeExpr(Primitive(p), args)) == Ok(GraphqlSchema.Adl2GraphqlType(p))
  {
  }

  /**
   * The naming is not injective: `X<Y_Z>` and `X<Y, Z>` are both named
   * `_X_Y_Z`, because "_" both separates arguments and may occur in a name.
   */
  lemma NamesCanCollide()
    ensures var x := ScopedName("m", "X");
            var one := TypeExpr(Reference(x), [TypeExpr(Reference(ScopedName("m", "Y_Z")), [])]);
            var two := TypeExpr(Reference(x), [TypeExpr(Reference(ScopedName("m", "Y")), []),
                                               TypeExpr(Reference(ScopedName("m", "Z")), [])]);
            one != two && TypeExprToGraphqlType(one) == TypeExprToGraphqlType(two) == Ok("_X_Y_Z")
  {
    var x := ScopedName("m", "X");
    var one := TypeExpr(Reference(x), [TypeExpr(Reference(ScopedName("m", "Y_Z")), [])]);
    var two := TypeExpr(Reference(x), [TypeExpr(Reference(ScopedName("m", "Y")), []),
                                       TypeExpr(Reference(ScopedName("m", "Z")), [])]);
    assert |one.parameters| != |two.parameters|;
    NameOfApplication(x, one.parameters);
    NameOfApplication(x, two.parameters);
    var n1 := seq(|one.parameters|, i requires 0 <= i < |one.parameters| => TypeExprToGraphqlType(one.parameters[i]).value);
    var n2 := seq(|two.parameters|, i requires 0 <= i < |two.parameters| => TypeExprToGraphqlType(two.parameters[i]).value);
    assert n1 == ["Y_Z"];
    assert n2 == ["Y", "Z"];
    assert Text.Join(n1, "_") == "Y_Z";
    assert Text.Join(n2, "_") == "Y" + "_" + "Z";
    assert TypeExprToGraphqlType(one) == Ok("_" + "X" + "_" + "Y_Z");
    assert TypeExprToGraphqlType(two) == Ok("_" + "X" + "_" + ("Y" + "_" + "Z"));
    assert "_" + "X" + "_" + "Y_Z" == "_X_Y_Z";
    assert "_" + "X" + "_" + ("Y" + "_" + "Z") == "_X_Y_Z";
  }
}
