/**
 * The GraphQL schema generator: every projected struct becomes a GraphQL
 * object type whose fields are named by `_genField`, every projected union
 * an object type with a `kind` enum and a `value` union over its
 * de-duplicated branch types. List and Non-Null wrapping follow sections
 * 3.11 and 3.12 of the GraphQL specification, October 2021: `[T]` is a
 * list of T and a trailing `!` marks a type as non-null.
 */
module GraphqlSchema {
  import opened Adl
  import opened TypeSubst
  import opened GraphqlLoad
  import opened DbUtils
  import Text
  import Seqs

  /** The annotation that makes a union branch stand for its first type argument. */
  const BoxAnnotation := ScopedName("savanti.schema.v1.annotations", "Box")

  /** The `Ref<T>` declaration: a field holding the id of a T. */
  const RefType := ScopedName("savanti.schema.v1.types", "Ref")

  const IntTypes: set<string> := {"Int8", "Int16", "Int32", "Int64", "Word8", "Word16", "Word32", "Word64"}

  /** The scalar a primitive maps to; anything not listed is a String. */
  function Adl2GraphqlType(ptype: string): (r: string)
    ensures r == "Boolean" <==> ptype == "Bool"
    ensures r == "Int" <==> ptype in IntTypes
    ensures r == "Float" <==> ptype == "Float" || ptype == "Double"
    ensures r == "String" <==> ptype != "Bool" && ptype !in IntTypes && ptype != "Float" && ptype != "Double"
  {
    if ptype == "Bool" then "Boolean"
    else if ptype in IntTypes then "Int"
    else if ptype == "Float" || ptype == "Double" then "Float"
    else "String"
  }

  /** A note `_genField` reports instead of failing; it becomes a comment line. */
  datatype FieldNote =
    | RefArgNotReference(ref: TypeRef)   // Ref<T> where T is not a reference
    | TypeParamReached(t: TypeExpr)      // a type parameter left in the field type

  /** The result of `_genField`: the type names to emit, whether the field is a `Ref`, and notes. */
  datatype FieldInfo = FieldInfo(tname: seq<string>, isref: bool, errors: seq<FieldNote>)

  /** The Non-Null marker. */
  function NonNull(nullable: bool): string {
    if nullable then "" else "!"
  }

  /** Each name wrapped as a list type, non-null unless nullable. */
  function ListNames(names: seq<string>, nullable: bool): (r: seq<string>)
    ensures |r| == |names|
    ensures forall i :: 0 <= i < |names| ==> r[i] == "[" + names[i] + "]" + NonNull(nullable)
  {
    seq(|names|, i requires 0 <= i < |names| => "[" + names[i] + "]" + NonNull(nullable))
  }

  /**
   * _genField. Vector and Nullable recurse into their first argument;
   * StringMap is refused; other primitives give their scalar; `Ref<T>`
   * gives the field type names of struct T (`fuel` bounds these hops, which
   * the source does not guard); other references give the declaration's
   * name; a type parameter gives a note.
   */
  function GenField(res: Resolver, t: TypeExpr, nullable: bool, tbs: seq<TypeBinding>, fuel: nat)
    : Result<FieldInfo>
    decreases fuel, 0, t
  {
    match t.typeRef
    case Primitive(p) =>
      if p == "Vector" then
        if |t.parameters| == 0 then Err(MissingTypeArgument)
        else
          var inner :- GenField(res, t.parameters[0], false, tbs, fuel);
          Ok(FieldInfo(ListNames(inner.tname, nullable), false, []))
      else if p == "Nullable" then
        if |t.parameters| == 0 then Err(MissingTypeArgument)
        else
          var inner :- GenField(res, t.parameters[0], true, tbs, fuel);
          Ok(FieldInfo(inner.tname, false, inner.errors))
      else if p == "StringMap" then Err(StringMapNotImplemented)
      else Ok(FieldInfo([Adl2GraphqlType(p)], false, []))
    case Reference(sn) =>
      if sn == RefType then
        var t0 :- Substitute(t, tbs);
        if |t0.parameters| == 0 then Err(MissingTypeArgument)
        else
          var ref := t0.parameters[0];
          if !ref.typeRef.Reference? then Ok(FieldInfo([], false, [RefArgNotReference(ref.typeRef)]))
          else
            var sd :- Resolve(res, ref.typeRef.ref);
            if !sd.decl.type_.Struct? then Err(RefTargetNotStruct(ref.typeRef.ref))
            else if fuel == 0 then Err(OutOfFuel)
            else
              var names :- FieldTypeNames(res, sd.decl.type_.fields, fuel - 1);
              Ok(FieldInfo(names, true, []))
      else Ok(FieldInfo([sn.name + NonNull(nullable)], false, []))
    case TypeParam(_) => Ok(FieldInfo([], false, [TypeParamReached(t)]))
  }

  /** `fields.flatMap(f => _genField(f.typeExpr, false, []).tname)`; the first failure aborts. */
  function FieldTypeNames(res: Resolver, fs: seq<Field>, fuel: nat): Result<seq<string>>
    decreases fuel, 1, |fs|
  {
    if |fs| == 0 then Ok([])
    else
      var k := |fs| - 1;
      var init :- FieldTypeNames(res, fs[..k], fuel);
      var last :- GenField(res, fs[k].typeExpr, false, [], fuel);
      Ok(init + last.tname)
  }

  /** A primitive other than the wrappers gives its scalar, never marked non-null. */
  lemma GenFieldPrimitive(res: Resolver, p: string, args: seq<TypeExpr>, nullable: bool, tbs: seq<TypeBinding>,
                          fuel: nat)
    requires p != "Vector" && p != "Nullable" && p != "StringMap"
    ensures var r := GenField(res, TypeExpr(Primitive(p), args), nullable, tbs, fuel);
            && r.Ok? && r.value.tname == [Adl2GraphqlType(p)] && !r.value.isref && r.value.errors == []
            && !Text.EndsWith(r.value.tname[0], "!")
  {
  }

  /** `Vector<T>` lists each name of T, non-null unless nullable, and drops T's notes. */
  lemma GenFieldVector(res: Resolver, t: TypeExpr, nullable: bool, tbs: seq<TypeBinding>, fuel: nat)
    requires t.typeRef == Primitive("Vector") && |t.parameters| > 0
    ensures var r := GenField(res, t, nullable, tbs, fuel);
            var inner := GenField(res, t.parameters[0], false, tbs, fuel);
            && (r.Ok? <==> inner.Ok?)
            && (r.Err? ==> r.error == inner.error)
            && (r.Ok? ==> && |r.value.tname| == |inner.value.tname|
                          && (forall i :: 0 <= i < |r.value.tname| ==>
                                r.value.tname[i] == "[" + inner.value.tname[i] + "]" + NonNull(nullable))
                          && !r.value.isref && r.value.errors == [])
  {
  }

  /** `Nullable<T>` is T generated as nullable, with T's notes kept and `isref` cleared. */
  lemma GenFieldNullable(res: Resolver, t: TypeExpr, nullable: bool, tbs: seq<TypeBinding>, fuel: nat)
    requires t.typeRef == Primitive("Nullable") && |t.parameters| > 0
    ensures var r := GenField(res, t, nullable, tbs, fuel);
            var inner := GenField(res, t.parameters[0], true, tbs, fuel);
            && (r.Ok? <==> inner.Ok?)
            && (r.Err? ==> r.error == inner.error)
            && (r.Ok? ==> r.value == FieldInfo(inner.value.tname, false, inner.value.errors))
  {
  }

  /** Wrapping in Nullable twice gives what wrapping once gives. */
  lemma GenFieldNullableIdempotent(res: Resolver, t: TypeExpr, nullable: bool, tbs: seq<TypeBinding>, fuel: nat)
    ensures var once := TypeExpr(Primitive("Nullable"), [t]);
            GenField(res, TypeExpr(Primitive("Nullable"), [once]), nullable, tbs, fuel)
            == GenField(res, once, nullable, tbs, fuel)
  {
    var once := TypeExpr(Primitive("Nullable"), [t]);
    assert TypeExpr(Primitive("Nullable"), [once]).parameters[0] == once;
    assert once.parameters[0] == t;
  }

  /** StringMap is refused. */
  lemma GenFieldStringMap(res: Resolver, args: seq<TypeExpr>, nullable: bool, tbs: seq<TypeBinding>, fuel: nat)
    ensures GenField(res, TypeExpr(Primitive("StringMap"), args), nullable, tbs, fuel) == Err(StringMapNotImplemented)
  {
  }

  /** A reference other than `Ref` is named by its declaration, non-null unless nullable, unresolved. */
  lemma GenFieldReference(res: Resolver, sn: ScopedName, args: seq<TypeExpr>, nullable: bool, tbs: seq<TypeBinding>,
                          fuel: nat)
    requires sn != RefType
    ensures GenField(res, TypeExpr(Reference(sn), args), nullable, tbs, fuel)
            == Ok(FieldInfo([sn.name + NonNull(nullable)], false, []))
  {
  }

  /**
   * `Ref<T>`, after substitution: T not a reference gives no names and one
   * note; T not a struct is refused; otherwise the field type names of T,
   * with `isref` set.
   */
  lemma GenFieldRef(res: Resolver, t: TypeExpr, nullable: bool, tbs: seq<TypeBinding>, fuel: nat)
    requires t.typeRef == Reference(RefType)
    requires Substitute(t, tbs).Ok? && |Substitute(t, tbs).value.parameters| > 0
    ensures var ref := Substitute(t, tbs).value.parameters[0];
            var r := GenField(res, t, nullable, tbs, fuel);
            && (!ref.typeRef.Reference? ==> r == Ok(FieldInfo([], false, [RefArgNotReference(ref.typeRef)])))
            && (ref.typeRef.Reference? && ref.typeRef.ref in res && !res[ref.typeRef.ref].decl.type_.Struct? ==>
                  r == Err(RefTargetNotStruct(ref.typeRef.ref)))
            && (ref.typeRef.Reference? && ref.typeRef.ref in res && res[ref.typeRef.ref].decl.type_.Struct? && fuel > 0
                ==> var names := FieldTypeNames(res, res[ref.typeRef.ref].decl.type_.fields, fuel - 1);
                    && (r.Ok? <==> names.Ok?)
                    && (r.Ok? ==> r.value == FieldInfo(names.value, true, [])))
  {
  }

  /** A type parameter gives no names and one note rather than failing. */
  lemma GenFieldTypeParam(res: Resolver, t: TypeExpr, nullable: bool, tbs: seq<TypeBinding>, fuel: nat)
    requires t.typeRef.TypeParam?
    ensures GenField(res, t, nullable, tbs, fuel) == Ok(FieldInfo([], false, [TypeParamReached(t)]))
  {
  }

  /** Only a `Ref` at the top of the field type sets `isref`. */
  lemma GenFieldIsRef(res: Resolver, t: TypeExpr, nullable: bool, tbs: seq<TypeBinding>, fuel: nat)
    requires GenField(res, t, nullable, tbs, fuel).Ok? && GenField(res, t, nullable, tbs, fuel).value.isref
    ensures t.typeRef == Reference(RefType)
  {
  }

  /**
   * The notes of a field have at most one entry, and one only comes from a
   * type parameter or a `Ref<T>` with T not a reference, possibly under
   * Nullable wrappers.
   */
  lemma {:induction false} GenFieldAtMostOneNote(res: Resolver, t: TypeExpr, nullable: bool, tbs: seq<TypeBinding>,
                                                  fuel: nat)
    requires GenField(res, t, nullable, tbs, fuel).Ok?
    ensures |GenField(res, t, nullable, tbs, fuel).value.errors| <= 1
    ensures GenField(res, t, nullable, tbs, fuel).value.errors != [] ==>
              t.typeRef.TypeParam? || t.typeRef == Reference(RefType) || t.typeRef == Primitive("Nullable")
    decreases t
  {
    if t.typeRef == Primitive("Nullable") {
      GenFieldAtMostOneNote(res, t.parameters[0], true, tbs, fuel);
    }
  }

  // ----- Union branches -----

  /**
   * The type a union branch contributes: the referenced declaration's name,
   * or, when that declaration carries Box, the name of its first argument.
   * A branch that is not a reference is refused.
   */
  function BranchName(res: Resolver, f: Field): Result<string> {
    if !f.typeExpr.typeRef.Reference? then Err(BranchNotReference(f.name))
    else
      var sd :- Resolve(res, f.typeExpr.typeRef.ref);
      if GetAnnotation(sd.decl.annotations, BoxAnnotation).Some? then
        if |f.typeExpr.parameters| == 0 then Err(MissingTypeArgument)
        else if !f.typeExpr.parameters[0].typeRef.Reference? then Err(BranchNotReference(f.name))
        else Ok(f.typeExpr.parameters[0].typeRef.ref.name)
      else Ok(f.typeExpr.typeRef.ref.name)
  }

  /** The branch names in field order, duplicates kept; the first failure aborts. */
  function BranchNames(res: Resolver, fs: seq<Field>): Result<seq<string>> {
    if |fs| == 0 then Ok([])
    else
      var k := |fs| - 1;
      var init :- BranchNames(res, fs[..k]);
      var last :- BranchName(res, fs[k]);
      Ok(init + [last])
  }

  lemma {:induction false} BranchNamesStopsAtError(res: Resolver, fs: seq<Field>, k: nat)
    requires k <= |fs| && BranchNames(res, fs[..k]).Err?
    ensures BranchNames(res, fs) == BranchNames(res, fs[..k])
    decreases |fs| - k
  {
    if k < |fs| {
      assert fs[..k + 1][..k] == fs[..k];
      BranchNamesStopsAtError(res, fs, k + 1);
    } else {
      assert fs[..k] == fs;
    }
  }

  /** A successful branch list names exactly the branches, in order. */
  lemma {:induction false} BranchNamesOk(res: Resolver, fs: seq<Field>)
    requires BranchNames(res, fs).Ok?
    ensures |BranchNames(res, fs).value| == |fs|
    ensures forall i :: 0 <= i < |fs| ==> BranchName(res, fs[i]) == Ok(BranchNames(res, fs).value[i])
  {
    if |fs| > 0 {
      var k := |fs| - 1;
      BranchNamesOk(res, fs[..k]);
      assert forall i :: 0 <= i < k ==> fs[..k][i] == fs[i];
    }
  }

  /** _getUniqBranches: the branch names put through a Set, in first-seen order. */
  method UniqBranches(res: Resolver, fs: seq<Field>) returns (r: Result<seq<string>>)
    ensures var names := BranchNames(res, fs);
            && (r.Ok? <==> names.Ok?)
            && (r.Ok? ==> r.value == Seqs.Dedup(names.value))
            && (r.Err? ==> r.error == names.error)
  {
    var types: seq<string> := [];
    ghost var all: seq<string> := [];
    var i := 0;
    while i < |fs|
      invariant 0 <= i <= |fs|
      invariant BranchNames(res, fs[..i]) == Ok(all)
      invariant types == Seqs.Dedup(all)
    {
      assert fs[..i + 1][..i] == fs[..i];
      var name := BranchName(res, fs[i]);
      if name.Err? {
        BranchNamesStopsAtError(res, fs, i + 1);
        return Err(name.error);
      }
      Seqs.DedupAppend(all, name.value);
      Seqs.DedupProperties(all);
      if name.value !in types {
        types := types + [name.value];
      }
      all := all + [name.value];
      i := i + 1;
    }
    assert fs[..i] == fs;
    return Ok(types);
  }

  /** The union's member types: distinct, and exactly the branch names. */
  lemma UniqBranchesMembers(res: Resolver, fs: seq<Field>)
    requires BranchNames(res, fs).Ok?
    ensures var u := Seqs.Dedup(BranchNames(res, fs).value);
            && Seqs.Distinct(u)
            && forall x :: x in u <==> exists i :: 0 <= i < |fs| && BranchName(res, fs[i]) == Ok(x)
  {
    var names := BranchNames(res, fs).value;
    Seqs.DedupProperties(names);
    BranchNamesOk(res, fs);
    forall x | x in Seqs.Dedup(names) ensures exists i :: 0 <= i < |fs| && BranchName(res, fs[i]) == Ok(x) {
      var i :| 0 <= i < |names| && names[i] == x;
      assert BranchName(res, fs[i]) == Ok(x);
    }
    forall x | exists i :: 0 <= i < |fs| && BranchName(res, fs[i]) == Ok(x) ensures x in Seqs.Dedup(names) {
      var i :| 0 <= i < |fs| && BranchName(res, fs[i]) == Ok(x);
      assert names[i] == x;
    }
  }

  /** A Box-annotated branch stands for its first type argument. */
  lemma BranchNameBox(res: Resolver, f: Field)
    requires f.typeExpr.typeRef.Reference? && f.typeExpr.typeRef.ref in res
    requires GetAnnotation(res[f.typeExpr.typeRef.ref].decl.annotations, BoxAnnotation).Some?
    requires |f.typeExpr.parameters| > 0
    ensures var arg := f.typeExpr.parameters[0];
            BranchName(res, f) == if arg.typeRef.Reference? then Ok(arg.typeRef.ref.name)
                                  else Err(BranchNotReference(f.name))
  {
  }

  // ----- References -----

  /** The wrappers `collectReferences` looks through. */
  predicate IsWrapper(p: string) {
    p == "StringMap" || p == "Nullable" || p == "Vector"
  }

  /**
   * The qualified names `collectReferences` adds, in visiting order and
   * with repeats: the T of every `Ref<T>` reached through wrappers,
   * alias and newtype bodies and struct and union fields. `fuel` bounds the
   * declaration hops, which the source does not guard against cycles.
   */
  function References(res: Resolver, t: TypeExpr, fuel: nat): Result<seq<string>>
    decreases fuel, 0, t
  {
    match t.typeRef
    case Primitive(p) =>
      if !IsWrapper(p) then Ok([])
      else if |t.parameters| == 0 then Err(MissingTypeArgument)
      else References(res, t.parameters[0], fuel)
    case Reference(sn) =>
      if sn == RefType then
        if |t.parameters| == 0 then Err(MissingTypeArgument)
        else
          var arg := t.parameters[0].typeRef;
          if arg.Reference? then Ok([QualifiedName(arg.ref.moduleName, arg.ref.name)]) else Ok([])
      else if fuel == 0 then Err(OutOfFuel)
      else
        var sd :- Resolve(res, sn);
        (match sd.decl.type_
         case TypeAlias(_, body) => References(res, body, fuel - 1)
         case NewType(_, body, _) => References(res, body, fuel - 1)
         case Struct(_, fs) => FieldReferences(res, fs, fuel - 1)
         case Union(_, fs) => FieldReferences(res, fs, fuel - 1))
    case TypeParam(_) => Ok([])
  }

  /** The references of each field's type, in field order; the first failure aborts. */
  function FieldReferences(res: Resolver, fs: seq<Field>, fuel: nat): Result<seq<string>>
    decreases fuel, 1, |fs|
  {
    if |fs| == 0 then Ok([])
    else
      var k := |fs| - 1;
      var init :- FieldReferences(res, fs[..k], fuel);
      var last :- References(res, fs[k].typeExpr, fuel);
      Ok(init + last)
  }

  lemma FieldReferencesStep(res: Resolver, fs: seq<Field>, j: nat, fuel: nat, acc: seq<string>)
    requires j < |fs| && FieldReferences(res, fs[..j], fuel) == Ok(acc)
    ensures var r := References(res, fs[j].typeExpr, fuel);
            && (r.Err? ==> FieldReferences(res, fs[..j + 1], fuel) == Err(r.error))
            && (r.Ok? ==> FieldReferences(res, fs[..j + 1], fuel) == Ok(acc + r.value))
  {
    assert fs[..j + 1][..j] == fs[..j];
  }

  lemma {:induction false} FieldReferencesStopsAtError(res: Resolver, fs: seq<Field>, k: nat, fuel: nat)
    requires k <= |fs| && FieldReferences(res, fs[..k], fuel).Err?
    ensures FieldReferences(res, fs, fuel) == FieldReferences(res, fs[..k], fuel)
    decreases |fs| - k
  {
    if k < |fs| {
      assert fs[..k + 1][..k] == fs[..k];
      FieldReferencesStopsAtError(res, fs, k + 1, fuel);
    } else {
      assert fs[..k] == fs;
    }
  }

  /** Adding a list of names to a Set holding the distinct names of `seen`. */
  lemma DedupConcat(seen: seq<string>, a: seq<string>, b: seq<string>)
    ensures Seqs.Dedup(seen + a + b) == Seqs.Dedup(seen + (a + b))
  {
    assert seen + a + b == seen + (a + b);
  }

  /**
   * collectReferences: walks t and adds what it reaches to the Set `refs`,
   * which holds the distinct names of `seen`.
   */
  method CollectReferences(res: Resolver, t: TypeExpr, fuel: nat, refs: seq<string>, ghost seen: seq<string>)
    returns (r: Result<seq<string>>)
    requires refs == Seqs.Dedup(seen)
    ensures var l := References(res, t, fuel);
            && (r.Ok? <==> l.Ok?)
            && (r.Ok? ==> r.value == Seqs.Dedup(seen + l.value))
            && (r.Err? ==> r.error == l.error)
    decreases fuel, 0, t
  {
    match t.typeRef
    case Primitive(p) =>
      if !IsWrapper(p) {
        assert seen + [] == seen;
        return Ok(refs);
      }
      if |t.parameters| == 0 {
        return Err(MissingTypeArgument);
      }
      r := CollectReferences(res, t.parameters[0], fuel, refs, seen);
    case Reference(sn) =>
      if sn == RefType {
        if |t.parameters| == 0 {
          return Err(MissingTypeArgument);
        }
        var arg := t.parameters[0].typeRef;
        if !arg.Reference? {
          assert seen + [] == seen;
          return Ok(refs);
        }
        var name := QualifiedName(arg.ref.moduleName, arg.ref.name);
        Seqs.DedupAppend(seen, name);
        Seqs.DedupProperties(seen);
        if name in refs {
          return Ok(refs);
        }
        return Ok(refs + [name]);
      }
      if fuel == 0 {
        return Err(OutOfFuel);
      }
      var sd := Resolve(res, sn);
      if sd.Err? {
        return Err(sd.error);
      }
      match sd.value.decl.type_ {
        case TypeAlias(_, body) =>
          r := CollectReferences(res, body, fuel - 1, refs, seen);
        case NewType(_, body, _) =>
          r := CollectReferences(res, body, fuel - 1, refs, seen);
        case Struct(_, fs) =>
          r := CollectFieldReferences(res, fs, fuel - 1, refs, seen);
        case Union(_, fs) =>
          r := CollectFieldReferences(res, fs, fuel - 1, refs, seen);
      }
    case TypeParam(_) =>
      assert seen + [] == seen;
      return Ok(refs);
  }

  /** `fields.forEach(f => collectReferences(f.typeExpr))`. */
  method CollectFieldReferences(res: Resolver, fs: seq<Field>, fuel: nat, refs: seq<string>, ghost seen: seq<string>)
    returns (r: Result<seq<string>>)
    requires refs == Seqs.Dedup(seen)
    ensures var l := FieldReferences(res, fs, fuel);
            && (r.Ok? <==> l.Ok?)
            && (r.Ok? ==> r.value == Seqs.Dedup(seen + l.value))
            && (r.Err? ==> r.error == l.error)
    decreases fuel, 1
  {
    var acc := refs;
    ghost var got: seq<string> := [];
    assert seen + got == seen;
    var j := 0;
    while j < |fs|
      invariant 0 <= j <= |fs|
      invariant FieldReferences(res, fs[..j], fuel) == Ok(got)
      invariant acc == Seqs.Dedup(seen + got)
    {
      FieldReferencesStep(res, fs, j, fuel, got);
      var x := CollectReferences(res, fs[j].typeExpr, fuel, acc, seen + got);
      if x.Err? {
        FieldReferencesStopsAtError(res, fs, j + 1, fuel);
        return Err(x.error);
      }
      DedupConcat(seen, got, References(res, fs[j].typeExpr, fuel).value);
      acc := x.value;
      got := got + References(res, fs[j].typeExpr, fuel).value;
      j := j + 1;
    }
    assert fs[..j] == fs;
    return Ok(acc);
  }

  // ----- Schema output -----

  /** The bindings for a field's own type: its declaration's parameters paired with its arguments. */
  function FieldBindings(res: Resolver, f: Field): Result<seq<TypeBinding>> {
    if f.typeExpr.typeRef.Reference? then
      var sd :- Resolve(res, f.typeExpr.typeRef.ref);
      Ok(TypeBindings(sd.decl.type_.typeParams, f.typeExpr.parameters))
    else Ok([])
  }

  /** The fixed part of a note's text. */
  function NoteText(n: FieldNote): string {
    match n
    case RefArgNotReference(_) => "In Ref<T> T only references are supported."
    case TypeParamReached(_) => "typeParams???"
  }

  function FieldLine(name: string, tname: string): string {
    "    " + name + ": " + tname + "\n"
  }

  function NoteLine(name: string, n: FieldNote): string {
    "    # " + name + " -- " + NoteText(n) + "\n"
  }

  const IdLine := "    id: ID!\n"
  const PhantomLine := "    _phantom: Boolean\n"
  const CloseLine := "}\n\n"

  /** One field line per type name, in order. */
  function FieldLines(name: string, tnames: seq<string>): (r: seq<string>)
    ensures |r| == |tnames| && forall i :: 0 <= i < |tnames| ==> r[i] == FieldLine(name, tnames[i])
  {
    if |tnames| == 0 then [] else FieldLines(name, tnames[..|tnames| - 1]) + [FieldLine(name, tnames[|tnames| - 1])]
  }

  /** One comment line per note, in order. */
  function NoteLines(name: string, notes: seq<FieldNote>): (r: seq<string>)
    ensures |r| == |notes| && forall i :: 0 <= i < |notes| ==> r[i] == NoteLine(name, notes[i])
  {
    if |notes| == 0 then [] else NoteLines(name, notes[..|notes| - 1]) + [NoteLine(name, notes[|notes| - 1])]
  }

  /** What one struct field contributes. */
  function FieldOutput(name: string, info: FieldInfo): seq<string> {
    (if info.isref then [IdLine] else []) + FieldLines(name, info.tname) + NoteLines(name, info.errors)
  }

  function FieldOutputOf(res: Resolver, f: Field, fuel: nat): Result<seq<string>> {
    var tbs :- FieldBindings(res, f);
    var info :- GenField(res, f.typeExpr, false, tbs, fuel);
    Ok(FieldOutput(f.name, info))
  }

  function FieldOutputs(res: Resolver, fs: seq<Field>, fuel: nat): (r: seq<Result<seq<string>>>)
    ensures |r| == |fs| && forall i :: 0 <= i < |fs| ==> r[i] == FieldOutputOf(res, fs[i], fuel)
  {
    seq(|fs|, i requires 0 <= i < |fs| => FieldOutputOf(res, fs[i], fuel))
  }

  /**
   * A `Ref` field is preceded by `id: ID!`; then one line per type name and
   * one comment per note.
   */
  lemma FieldOutputShape(name: string, info: FieldInfo, k: nat)
    requires k == if info.isref then 1 else 0
    ensures |FieldOutput(name, info)| == k + |info.tname| + |info.errors|
    ensures info.isref ==> FieldOutput(name, info)[0] == IdLine
    ensures forall i :: 0 <= i < |info.tname| ==> FieldOutput(name, info)[k + i] == FieldLine(name, info.tname[i])
    ensures forall i :: 0 <= i < |info.errors| ==>
              FieldOutput(name, info)[k + |info.tname| + i] == NoteLine(name, info.errors[i])
  {
    var head: seq<string> := if info.isref then [IdLine] else [];
    assert FieldOutput(name, info) == head + FieldLines(name, info.tname) + NoteLines(name, info.errors);
    FieldOutputLinesAt(name, info, k);
    FieldOutputNotesAt(name, info, k);
  }

  lemma FieldOutputLinesAt(name: string, info: FieldInfo, k: nat)
    requires k == if info.isref then 1 else 0
    ensures forall i :: 0 <= i < |info.tname| ==> FieldOutput(name, info)[k + i] == FieldLine(name, info.tname[i])
  {
    var head: seq<string> := if info.isref then [IdLine] else [];
    var lines := FieldLines(name, info.tname);
    var notes := NoteLines(name, info.errors);
    assert FieldOutput(name, info) == head + lines + notes;
    assert |head| == k;
    forall i | 0 <= i < |info.tname|
      ensures (head + lines + notes)[k + i] == FieldLine(name, info.tname[i])
    {
      Seqs.Concat3At(head, lines, notes, i);
    }
  }

  lemma FieldOutputNotesAt(name: string, info: FieldInfo, k: nat)
    requires k == if info.isref then 1 else 0
    ensures forall i :: 0 <= i < |info.errors| ==>
              FieldOutput(name, info)[k + |info.tname| + i] == NoteLine(name, info.errors[i])
  {
    var head: seq<string> := if info.isref then [IdLine] else [];
    var lines := FieldLines(name, info.tname);
    var notes := NoteLines(name, info.errors);
    assert FieldOutput(name, info) == head + lines + notes;
    assert |head| == k && |lines| == |info.tname|;
    forall i | 0 <= i < |info.errors|
      ensures (head + lines + notes)[k + |info.tname| + i] == NoteLine(name, info.errors[i])
    {
      Seqs.Concat3At(head, lines, notes, i);
    }
  }

  function TypeOpen(name: string): string {
    "type " + name + " {\n"
  }

  /** The object type of a struct; one with no fields gets a `_phantom` field. */
  function StructLines(res: Resolver, c: ConcreteType, fuel: nat): Result<seq<string>> {
    var body :- Flatten(FieldOutputs(res, c.fields, fuel));
    Ok([TypeOpen(c.name)] + (if |c.fields| == 0 then [PhantomLine] else []) + body + [CloseLine])
  }

  /** A struct with no fields is rendered with only the `_phantom` field. */
  lemma StructLinesEmpty(res: Resolver, c: ConcreteType, fuel: nat)
    requires |c.fields| == 0
    ensures StructLines(res, c, fuel) == Ok([TypeOpen(c.name), PhantomLine, CloseLine])
  {
    assert FieldOutputs(res, c.fields, fuel) == [];
    assert Flatten([]) == Ok([]);
    assert [TypeOpen(c.name)] + [PhantomLine] + [] + [CloseLine] == [TypeOpen(c.name), PhantomLine, CloseLine];
  }

  /** The object type, member union and branch enum of a union. */
  function UnionHead(name: string, members: seq<string>): seq<string> {
    [TypeOpen(name), KindLine(name), ValueLine(name), "}\n", UnionLine(name, members), EnumOpen(name)]
  }

  function KindLine(name: string): string {
    "    kind: _" + name + "Branch!\n"
  }

  function ValueLine(name: string): string {
    "    value: _" + name + "Type!\n"
  }

  function UnionLine(name: string, members: seq<string>): string {
    "union _" + name + "Type = " + Text.Join(members, " | ") + "\n"
  }

  function EnumOpen(name: string): string {
    "enum _" + name + "Branch {\n"
  }

  function BranchLine(f: Field): string {
    "    " + f.name + "\n"
  }

  /** One enum value per branch, in order, duplicates of type kept. */
  function BranchLines(fs: seq<Field>): (r: seq<string>)
    ensures |r| == |fs| && forall i :: 0 <= i < |fs| ==> r[i] == BranchLine(fs[i])
  {
    if |fs| == 0 then [] else BranchLines(fs[..|fs| - 1]) + [BranchLine(fs[|fs| - 1])]
  }

  function UnionLines(res: Resolver, c: ConcreteType): Result<seq<string>> {
    var names :- BranchNames(res, c.fields);
    Ok(UnionHead(c.name, Seqs.Dedup(names)) + BranchLines(c.fields) + [CloseLine])
  }

  /** generateSchemaConcrete's output for one projected declaration. */
  function ConcreteLines(res: Resolver, c: ConcreteType, fuel: nat): Result<seq<string>> {
    if c.kind == StructKind then StructLines(res, c, fuel) else UnionLines(res, c)
  }

  function ConcreteOutputs(res: Resolver, cs: seq<ConcreteType>, fuel: nat): (r: seq<Result<seq<string>>>)
    ensures |r| == |cs| && forall i :: 0 <= i < |cs| ==> r[i] == ConcreteLines(res, cs[i], fuel)
  {
    seq(|cs|, i requires 0 <= i < |cs| => ConcreteLines(res, cs[i], fuel))
  }

  /** The references of every field of every projected declaration, in order. */
  function AllReferences(res: Resolver, cs: seq<ConcreteType>, fuel: nat): Result<seq<string>> {
    if |cs| == 0 then Ok([])
    else
      var k := |cs| - 1;
      var init :- AllReferences(res, cs[..k], fuel);
      var last :- FieldReferences(res, cs[k].fields, fuel);
      Ok(init + last)
  }

  lemma {:induction false} AllReferencesStopsAtError(res: Resolver, cs: seq<ConcreteType>, k: nat, fuel: nat)
    requires k <= |cs| && AllReferences(res, cs[..k], fuel).Err?
    ensures AllReferences(res, cs, fuel) == AllReferences(res, cs[..k], fuel)
    decreases |cs| - k
  {
    if k < |cs| {
      assert cs[..k + 1][..k] == cs[..k];
      AllReferencesStopsAtError(res, cs, k + 1, fuel);
    } else {
      assert cs[..k] == cs;
    }
  }

  // ----- The writer -----

  method WriteFieldLines(w: FileWriter, name: string, tnames: seq<string>)
    modifies w
    ensures w.content == old(w.content) + FieldLines(name, tnames)
  {
    var i := 0;
    while i < |tnames|
      invariant 0 <= i <= |tnames|
      invariant w.content == old(w.content) + FieldLines(name, tnames[..i])
    {
      Seqs.PrefixStep(tnames, i);
      w.Write(FieldLine(name, tnames[i]));
      i := i + 1;
    }
    assert tnames[..i] == tnames;
  }

  method WriteNoteLines(w: FileWriter, name: string, notes: seq<FieldNote>)
    modifies w
    ensures w.content == old(w.content) + NoteLines(name, notes)
  {
    var i := 0;
    while i < |notes|
      invariant 0 <= i <= |notes|
      invariant w.content == old(w.content) + NoteLines(name, notes[..i])
    {
      Seqs.PrefixStep(notes, i);
      w.Write(NoteLine(name, notes[i]));
      i := i + 1;
    }
    assert notes[..i] == notes;
  }

  lemma FieldOutputOfParts(res: Resolver, f: Field, fuel: nat, tbs: seq<TypeBinding>)
    requires FieldBindings(res, f) == Ok(tbs)
    ensures var info := GenField(res, f.typeExpr, false, tbs, fuel);
            FieldOutputOf(res, f, fuel) == if info.Ok? then Ok(FieldOutput(f.name, info.value)) else Err(info.error)
  {
  }

  /** One struct field: its bindings, `_genField`, then its lines; a failure writes nothing. */
  method GenerateField(w: FileWriter, res: Resolver, f: Field, fuel: nat) returns (r: Result<()>)
    modifies w
    ensures var out := FieldOutputOf(res, f, fuel);
            && (r.Ok? <==> out.Ok?)
            && (r.Ok? ==> w.content == old(w.content) + out.value)
            && (r.Err? ==> r.error == out.error && w.content == old(w.content))
  {
    var typeBindings: seq<TypeBinding> := [];
    if f.typeExpr.typeRef.Reference? {
      var sd := Resolve(res, f.typeExpr.typeRef.ref);
      if sd.Err? {
        return Err(sd.error);
      }
      typeBindings := CreateTypeBindings(sd.value.decl.type_.typeParams, f.typeExpr.parameters);
    }
    assert FieldBindings(res, f) == Ok(typeBindings);
    FieldOutputOfParts(res, f, fuel, typeBindings);
    var info := GenField(res, f.typeExpr, false, typeBindings, fuel);
    if info.Err? {
      return Err(info.error);
    }
    ghost var pre: seq<string> := if info.value.isref then [IdLine] else [];
    if info.value.isref {
      w.Write(IdLine);
    }
    assert w.content == old(w.content) + pre;
    WriteFieldLines(w, f.name, info.value.tname);
    WriteNoteLines(w, f.name, info.value.errors);
    Seqs.AppendAssoc4(old(w.content), pre, FieldLines(f.name, info.value.tname), NoteLines(f.name, info.value.errors));
    assert FieldOutput(f.name, info.value) == pre + FieldLines(f.name, info.value.tname) + NoteLines(f.name, info.value.errors);
    return Ok(());
  }

  /** The field loop of a struct. */
  method GenerateFields(w: FileWriter, res: Resolver, fs: seq<Field>, fuel: nat) returns (r: Result<()>)
    modifies w
    ensures var out := Flatten(FieldOutputs(res, fs, fuel));
            && (r.Ok? <==> out.Ok?)
            && (r.Ok? ==> w.content == old(w.content) + out.value)
            && (r.Err? ==> r.error == out.error)
  {
    ghost var rs := FieldOutputs(res, fs, fuel);
    ghost var body: seq<string> := [];
    var j := 0;
    while j < |fs|
      invariant 0 <= j <= |fs|
      invariant Flatten(rs[..j]) == Ok(body)
      invariant w.content == old(w.content) + body
    {
      FlattenStep(rs, j, body);
      var x := GenerateField(w, res, fs[j], fuel);
      if x.Err? {
        FlattenStopsAtError(rs, j + 1);
        return Err(x.error);
      }
      Seqs.AppendAssoc(old(w.content), body, rs[j].value);
      body := body + rs[j].value;
      j := j + 1;
    }
    assert rs[..j] == rs;
    return Ok(());
  }

  method GenerateStruct(w: FileWriter, res: Resolver, c: ConcreteType, fuel: nat) returns (r: Result<()>)
    modifies w
    ensures var out := StructLines(res, c, fuel);
            && (r.Ok? <==> out.Ok?)
            && (r.Ok? ==> w.content == old(w.content) + out.value)
            && (r.Err? ==> r.error == out.error)
  {
    ghost var pre: seq<string> := [TypeOpen(c.name)] + (if |c.fields| == 0 then [PhantomLine] else []);
    w.Write(TypeOpen(c.name));
    if |c.fields| == 0 {
      w.Write(PhantomLine);
    }
    assert w.content == old(w.content) + pre;
    var x := GenerateFields(w, res, c.fields, fuel);
    if x.Err? {
      return Err(x.error);
    }
    ghost var body := Flatten(FieldOutputs(res, c.fields, fuel)).value;
    w.Write(CloseLine);
    Seqs.AppendAssoc4(old(w.content), pre, body, [CloseLine]);
    return Ok(());
  }

  method WriteBranchLines(w: FileWriter, fs: seq<Field>)
    modifies w
    ensures w.content == old(w.content) + BranchLines(fs)
  {
    var i := 0;
    while i < |fs|
      invariant 0 <= i <= |fs|
      invariant w.content == old(w.content) + BranchLines(fs[..i])
    {
      Seqs.PrefixStep(fs, i);
      w.Write(BranchLine(fs[i]));
      i := i + 1;
    }
    assert fs[..i] == fs;
  }

  /**
   * A union: the object type, then the member union (which fails on a bad
   * branch after the object type is written), then the branch enum.
   */
  method GenerateUnion(w: FileWriter, res: Resolver, c: ConcreteType) returns (r: Result<()>)
    modifies w
    ensures var out := UnionLines(res, c);
            && (r.Ok? <==> out.Ok?)
            && (r.Ok? ==> w.content == old(w.content) + out.value)
            && (r.Err? ==> r.error == out.error)
  {
    w.Write(TypeOpen(c.name));
    w.Write(KindLine(c.name));
    w.Write(ValueLine(c.name));
    w.Write("}\n");
    var members := UniqBranches(res, c.fields);
    if members.Err? {
      return Err(members.error);
    }
    assert w.content == old(w.content) + [TypeOpen(c.name), KindLine(c.name), ValueLine(c.name), "}\n"];
    WriteUnionTail(w, c, members.value);
    Seqs.AppendAssoc(old(w.content), [TypeOpen(c.name), KindLine(c.name), ValueLine(c.name), "}\n"],
                     [UnionLine(c.name, members.value), EnumOpen(c.name)] + BranchLines(c.fields) + [CloseLine]);
    assert UnionHead(c.name, members.value) + BranchLines(c.fields) + [CloseLine]
           == [TypeOpen(c.name), KindLine(c.name), ValueLine(c.name), "}\n"]
              + ([UnionLine(c.name, members.value), EnumOpen(c.name)] + BranchLines(c.fields) + [CloseLine]);
    return Ok(());
  }

  /** The member union, then the branch enum. */
  method WriteUnionTail(w: FileWriter, c: ConcreteType, members: seq<string>)
    modifies w
    ensures w.content == old(w.content) + ([UnionLine(c.name, members), EnumOpen(c.name)] + BranchLines(c.fields)
                                           + [CloseLine])
  {
    w.Write(UnionLine(c.name, members));
    w.Write(EnumOpen(c.name));
    WriteBranchLines(w, c.fields);
    w.Write(CloseLine);
  }

  method GenerateSchemaConcrete(w: FileWriter, res: Resolver, c: ConcreteType, fuel: nat) returns (r: Result<()>)
    modifies w
    ensures var out := ConcreteLines(res, c, fuel);
            && (r.Ok? <==> out.Ok?)
            && (r.Ok? ==> w.content == old(w.content) + out.value)
            && (r.Err? ==> r.error == out.error)
  {
    if c.kind == StructKind {
      r := GenerateStruct(w, res, c, fuel);
    } else {
      r := GenerateUnion(w, res, c);
    }
  }

  /** The references loop: every field of every projected declaration, into one Set. */
  method CollectAllReferences(res: Resolver, concrete: seq<ConcreteType>, fuel: nat) returns (r: Result<seq<string>>)
    ensures var refs := AllReferences(res, concrete, fuel);
            && (r.Ok? <==> refs.Ok?)
            && (r.Ok? ==> r.value == Seqs.Dedup(refs.value))
  {
    var references: seq<string> := [];
    ghost var seen: seq<string> := [];
    var i := 0;
    while i < |concrete|
      invariant 0 <= i <= |concrete|
      invariant AllReferences(res, concrete[..i], fuel) == Ok(seen)
      invariant references == Seqs.Dedup(seen)
    {
      Seqs.PrefixStep(concrete, i);
      var x := CollectFieldReferences(res, concrete[i].fields, fuel, references, seen);
      if x.Err? {
        AllReferencesStopsAtError(res, concrete, i + 1, fuel);
        return Err(x.error);
      }
      references := x.value;
      seen := seen + FieldReferences(res, concrete[i].fields, fuel).value;
      i := i + 1;
    }
    assert concrete[..i] == concrete;
    return Ok(references);
  }

  /** The output loop: every projected declaration, in order. */
  method GenerateAll(w: FileWriter, res: Resolver, concrete: seq<ConcreteType>, fuel: nat) returns (r: Result<()>)
    modifies w
    ensures var out := Flatten(ConcreteOutputs(res, concrete, fuel));
            && (r.Ok? <==> out.Ok?)
            && (r.Ok? ==> w.content == old(w.content) + out.value)
  {
    ghost var rs := ConcreteOutputs(res, concrete, fuel);
    ghost var body: seq<string> := [];
    var i := 0;
    while i < |concrete|
      invariant 0 <= i <= |concrete|
      invariant Flatten(rs[..i]) == Ok(body)
      invariant w.content == old(w.content) + body
    {
      FlattenStep(rs, i, body);
      var x := GenerateSchemaConcrete(w, res, concrete[i], fuel);
      if x.Err? {
        FlattenStopsAtError(rs, i + 1);
        return Err(x.error);
      }
      Seqs.AppendAssoc(old(w.content), body, rs[i].value);
      body := body + rs[i].value;
      i := i + 1;
    }
    assert rs[..i] == rs;
    return Ok(());
  }

  /**
   * genCreateGraphqlSchema after loading: the references of every field are
   * collected (and returned, as the source logs them), then every projected
   * declaration is written in order. Any failure aborts the run.
   */
  method GenCreateGraphqlSchema(w: FileWriter, res: Resolver, concrete: seq<ConcreteType>, fuel: nat)
    returns (r: Result<seq<string>>)
    modifies w
    ensures var refs := AllReferences(res, concrete, fuel);
            var out := Flatten(ConcreteOutputs(res, concrete, fuel));
            && (r.Ok? <==> refs.Ok? && out.Ok?)
            && (r.Ok? ==> r.value == Seqs.Dedup(refs.value) && w.content == old(w.content) + out.value)
  {
    var references := CollectAllReferences(res, concrete, fuel);
    if references.Err? {
      return Err(references.error);
    }
    var x := GenerateAll(w, res, concrete, fuel);
    if x.Err? {
      return Err(x.error);
    }
    return Ok(references.value);
  }
}
