/**
 * The GraphQL loader: projects a declaration onto exactly one concrete
 * struct or union (aliases and newtypes are followed, re-binding type
 * parameters at each hop) and buckets the accepted declarations of the
 * loaded modules.
 */
module GraphqlLoad {
  import opened Adl
  import opened TypeSubst
  import Seqs

  datatype ConcreteKind = StructKind | UnionKind

  /** A struct or union after projection: its fields carry substituted types. */
  datatype ConcreteType = ConcreteType(
    moduleName: string,
    name: string,
    version: Option<int>,
    annotations: seq<Annotation>,
    kind: ConcreteKind,
    typeParams: seq<string>,
    fields: seq<Field>)

  datatype ScopedTypes = ScopedTypes(concrete: seq<ConcreteType>, generic: seq<ConcreteType>)

  /** The `kind:name` element a projection path records for a declaration. */
  function PathElement(sd: ScopedDecl): string {
    KindName(sd.decl.type_) + ":" + sd.decl.name
  }

  /** _fromField: the field with its type expression substituted, everything else kept. */
  function FromField(f: Field, bs: seq<TypeBinding>): (r: Result<seq<Field>>)
    ensures r.Ok? <==> Substitute(f.typeExpr, bs).Ok?
    ensures r.Ok? ==> r.value == [f.(typeExpr := Substitute(f.typeExpr, bs).value)]
  {
    var typeExpr :- Substitute(f.typeExpr, bs);
    Ok([Field(f.name, f.serializedName, typeExpr, f.default, f.annotations)])
  }

  /** `fields.flatMap(f => _fromField(f, typeBindings))`. */
  function FromFields(fs: seq<Field>, bs: seq<TypeBinding>): Result<seq<Field>> {
    if |fs| == 0 then Ok([])
    else
      var init :- FromFields(fs[..|fs| - 1], bs);
      var last :- FromField(fs[|fs| - 1], bs);
      Ok(init + last)
  }

  /**
   * The fields project exactly when every field type substitutes, and then
   * each field keeps its place with its type substituted.
   */
  lemma {:induction false} FromFieldsSpec(fs: seq<Field>, bs: seq<TypeBinding>)
    ensures FromFields(fs, bs).Ok? <==> forall i :: 0 <= i < |fs| ==> Substitute(fs[i].typeExpr, bs).Ok?
    ensures FromFields(fs, bs).Ok? ==> |FromFields(fs, bs).value| == |fs|
    ensures FromFields(fs, bs).Ok? ==> forall i :: 0 <= i < |fs| ==>
              FromFields(fs, bs).value[i] == fs[i].(typeExpr := Substitute(fs[i].typeExpr, bs).value)
  {
    if |fs| > 0 {
      var k := |fs| - 1;
      var init := fs[..k];
      FromFieldsSpec(init, bs);
      var ri := FromFields(init, bs);
      var l := FromField(fs[k], bs);
      if ri.Err? {
        var j :| 0 <= j < k && Substitute(init[j].typeExpr, bs).Err?;
        assert init[j] == fs[j];
      } else if l.Ok? {
        assert FromFields(fs, bs) == Ok(ri.value + l.value);
        forall i | 0 <= i < |fs|
          ensures Substitute(fs[i].typeExpr, bs).Ok?
          ensures (ri.value + l.value)[i] == fs[i].(typeExpr := Substitute(fs[i].typeExpr, bs).value)
        {
          if i < k {
            assert init[i] == fs[i];
            assert (ri.value + l.value)[i] == ri.value[i];
          } else {
            assert (ri.value + l.value)[i] == l.value[0];
          }
        }
      }
    }
  }

  /** _makeScopedType: a struct or union with its own header and projected fields. */
  function MakeScopedType(sd: ScopedDecl, kind: ConcreteKind, bs: seq<TypeBinding>): Result<ConcreteType>
    requires sd.decl.type_.Struct? || sd.decl.type_.Union?
  {
    var fields :- FromFields(sd.decl.type_.fields, bs);
    Ok(ConcreteType(sd.moduleName, sd.decl.name, sd.decl.version, sd.decl.annotations,
                    kind, sd.decl.type_.typeParams, fields))
  }

  /** True when c is the projection of struct or union sd under bs. */
  ghost predicate ProjectsTo(sd: ScopedDecl, bs: seq<TypeBinding>, c: ConcreteType) {
    && (sd.decl.type_.Struct? || sd.decl.type_.Union?)
    && c.moduleName == sd.moduleName && c.name == sd.decl.name
    && c.version == sd.decl.version && c.annotations == sd.decl.annotations
    && c.kind == (if sd.decl.type_.Struct? then StructKind else UnionKind)
    && c.typeParams == sd.decl.type_.typeParams
    && |c.fields| == |sd.decl.type_.fields|
    && forall i :: 0 <= i < |c.fields| ==>
         var f := sd.decl.type_.fields[i];
         Substitute(f.typeExpr, bs).Ok? && c.fields[i] == f.(typeExpr := Substitute(f.typeExpr, bs).value)
  }

  /**
   * _fromDecl. A struct or union projects to exactly one concrete
   * declaration and no generic one; an alias or newtype substitutes its
   * body and follows it. `fuel` bounds the number of alias hops, since the
   * source does not guard against cyclic aliases.
   */
  function FromDecl(res: Resolver, path: seq<string>, sd: ScopedDecl, bs: seq<TypeBinding>, fuel: nat)
    : (r: Result<ScopedTypes>)
    decreases fuel, 1
    ensures (sd.decl.type_.Struct? || sd.decl.type_.Union?) ==>
              (r.Ok? <==> forall i :: 0 <= i < |sd.decl.type_.fields| ==>
                                        Substitute(sd.decl.type_.fields[i].typeExpr, bs).Ok?)
    ensures (sd.decl.type_.Struct? || sd.decl.type_.Union?) && r.Ok? ==>
              |r.value.concrete| == 1 && r.value.generic == [] && ProjectsTo(sd, bs, r.value.concrete[0])
  {
    match sd.decl.type_
    case TypeAlias(_, typeExpr0) =>
      var typeExpr :- Substitute(typeExpr0, bs);
      FromTypeExpr(res, path + [PathElement(sd)], sd, typeExpr, fuel)
    case NewType(_, typeExpr0, _) =>
      var typeExpr :- Substitute(typeExpr0, bs);
      FromTypeExpr(res, path + [PathElement(sd)], sd, typeExpr, fuel)
    case Struct(_, _) =>
      FromFieldsSpec(sd.decl.type_.fields, bs);
      var c :- MakeScopedType(sd, StructKind, bs);
      Ok(ScopedTypes([c], []))
    case Union(_, _) =>
      FromFieldsSpec(sd.decl.type_.fields, bs);
      var c :- MakeScopedType(sd, UnionKind, bs);
      Ok(ScopedTypes([c], []))
  }

  /**
   * _fromTypeExpr: a reference is resolved and projected with bindings
   * from the target's type parameters to the reference's arguments.
   */
  function FromTypeExpr(res: Resolver, path: seq<string>, sd: ScopedDecl, t: TypeExpr, fuel: nat)
    : Result<ScopedTypes>
    decreases fuel, 0
  {
    match t.typeRef
    case Reference(sn) =>
      if fuel == 0 then Err(OutOfFuel)
      else
        var target :- Resolve(res, sn);
        FromDecl(res, path, target, TypeBindings(target.decl.type_.typeParams, t.parameters), fuel - 1)
    case Primitive(_) => Err(AliasOfPrimitive(path, NameOf(sd)))
    case TypeParam(_) => Err(AliasOfTypeParam(path, NameOf(sd)))
  }

  /**
   * An alias or newtype whose body substitutes to a primitive or a type
   * parameter is refused, naming the path walked so far and the declaration.
   */
  lemma AliasOfNonReference(res: Resolver, path: seq<string>, sd: ScopedDecl, bs: seq<TypeBinding>, fuel: nat)
    requires sd.decl.type_.TypeAlias? || sd.decl.type_.NewType?
    requires Substitute(sd.decl.type_.typeExpr, bs).Ok?
    requires !Substitute(sd.decl.type_.typeExpr, bs).value.typeRef.Reference?
    ensures var t := Substitute(sd.decl.type_.typeExpr, bs).value;
            FromDecl(res, path, sd, bs, fuel)
            == if t.typeRef.Primitive? then Err(AliasOfPrimitive(path + [PathElement(sd)], NameOf(sd)))
               else Err(AliasOfTypeParam(path + [PathElement(sd)], NameOf(sd)))
  {
  }

  /**
   * An alias or newtype whose body substitutes to a reference resolves it and
   * projects the target with bindings from the target's type parameters to
   * the reference's arguments.
   */
  lemma AliasOfReference(res: Resolver, path: seq<string>, sd: ScopedDecl, bs: seq<TypeBinding>, fuel: nat)
    requires sd.decl.type_.TypeAlias? || sd.decl.type_.NewType?
    requires Substitute(sd.decl.type_.typeExpr, bs).Ok?
    requires Substitute(sd.decl.type_.typeExpr, bs).value.typeRef.Reference?
    requires fuel > 0
    ensures var t := Substitute(sd.decl.type_.typeExpr, bs).value;
            var sn := t.typeRef.ref;
            FromDecl(res, path, sd, bs, fuel)
            == if sn !in res then Err(UnknownDecl(sn))
               else FromDecl(res, path + [PathElement(sd)], res[sn],
                             TypeBindings(res[sn].decl.type_.typeParams, t.parameters), fuel - 1)
  {
  }

  /**
   * getScopedTypes: projection from an empty binding list, the path seeded
   * with the start declaration's own `kind:name`.
   */
  function GetScopedTypes(res: Resolver, sd: ScopedDecl, fuel: nat): Result<ScopedTypes> {
    FromDecl(res, [PathElement(sd)], sd, [], fuel)
  }

  /**
   * A root alias or newtype of a primitive or a type parameter is refused
   * with a path that names it twice: once from the seed, once from its own
   * expansion step.
   */
  lemma RootAliasOfNonReference(res: Resolver, sd: ScopedDecl, fuel: nat)
    requires sd.decl.type_.TypeAlias? || sd.decl.type_.NewType?
    requires !sd.decl.type_.typeExpr.typeRef.Reference?
    ensures GetScopedTypes(res, sd, fuel)
            == if sd.decl.type_.typeExpr.typeRef.Primitive?
               then Err(AliasOfPrimitive([PathElement(sd), PathElement(sd)], NameOf(sd)))
               else Err(AliasOfTypeParam([PathElement(sd), PathElement(sd)], NameOf(sd)))
  {
    SubstituteEmpty(sd.decl.type_.typeExpr);
    AliasOfNonReference(res, [PathElement(sd)], sd, [], fuel);
    assert [PathElement(sd)] + [PathElement(sd)] == [PathElement(sd), PathElement(sd)];
  }

  /**
   * A root alias or newtype of a reference projects its target with the
   * path holding the root's `kind:name` twice.
   */
  lemma RootAliasOfReference(res: Resolver, sd: ScopedDecl, fuel: nat)
    requires sd.decl.type_.TypeAlias? || sd.decl.type_.NewType?
    requires sd.decl.type_.typeExpr.typeRef.Reference?
    requires fuel > 0
    ensures var t := sd.decl.type_.typeExpr;
            var sn := t.typeRef.ref;
            GetScopedTypes(res, sd, fuel)
            == if sn !in res then Err(UnknownDecl(sn))
               else FromDecl(res, [PathElement(sd), PathElement(sd)], res[sn],
                             TypeBindings(res[sn].decl.type_.typeParams, t.parameters), fuel - 1)
  {
    SubstituteEmpty(sd.decl.type_.typeExpr);
    AliasOfReference(res, [PathElement(sd)], sd, [], fuel);
    assert [PathElement(sd)] + [PathElement(sd)] == [PathElement(sd), PathElement(sd)];
  }

  /**
   * Every successful projection yields exactly one concrete declaration and
   * an empty generic list, and that declaration projects either the starting
   * declaration or a struct or union the resolver holds.
   */
  lemma {:induction false} FromDeclShape(res: Resolver, path: seq<string>, sd: ScopedDecl,
                                         bs: seq<TypeBinding>, fuel: nat)
    requires FromDecl(res, path, sd, bs, fuel).Ok?
    ensures var st := FromDecl(res, path, sd, bs, fuel).value;
            |st.concrete| == 1 && st.generic == []
            && exists target: ScopedDecl, tbs: seq<TypeBinding> ::
                 (target == sd || target in res.Values) && ProjectsTo(target, tbs, st.concrete[0])
    decreases fuel
  {
    var st := FromDecl(res, path, sd, bs, fuel).value;
    if sd.decl.type_.Struct? || sd.decl.type_.Union? {
      assert ProjectsTo(sd, bs, st.concrete[0]);
    } else {
      var t := Substitute(sd.decl.type_.typeExpr, bs).value;
      var path' := path + [PathElement(sd)];
      assert FromDecl(res, path, sd, bs, fuel) == FromTypeExpr(res, path', sd, t, fuel);
      var sn := t.typeRef.ref;
      var target := res[sn];
      var tbs := TypeBindings(target.decl.type_.typeParams, t.parameters);
      assert FromTypeExpr(res, path', sd, t, fuel) == FromDecl(res, path', target, tbs, fuel - 1);
      FromDeclShape(res, path', target, tbs, fuel - 1);
      var c := st.concrete[0];
      var target2: ScopedDecl, tbs2: seq<TypeBinding> :|
        (target2 == target || target2 in res.Values) && ProjectsTo(target2, tbs2, c);
      assert target2 in res.Values && ProjectsTo(target2, tbs2, c);
    }
  }

  /** The state `loadResources` builds while visiting declarations. */
  datatype LoadState = LoadState(
    concrete: seq<ConcreteType>,
    generic: seq<ConcreteType>,
    moduleSet: seq<string>,              // a JavaScript Set: distinct, in insertion order
    declMap: map<string, ScopedDecl>)

  datatype Resources = Resources(
    concrete: seq<ConcreteType>,
    generic: seq<ConcreteType>,
    moduleNames: seq<string>,
    declMap: map<string, ScopedDecl>)

  function DeclKey(sd: ScopedDecl): string {
    QualifiedName(sd.moduleName, sd.decl.name)
  }

  /** A declaration is bucketed when the filter accepts it and its module was asked for. */
  predicate Accepted(sd: ScopedDecl, filter: ScopedDecl -> bool, adlModules: seq<string>) {
    filter(sd) && sd.moduleName in adlModules
  }

  /** One visit of the `forEachDecl` callback. */
  function Visit(res: Resolver, st: LoadState, sd: ScopedDecl, filter: ScopedDecl -> bool,
                 adlModules: seq<string>, fuel: nat): Result<LoadState>
  {
    var declMap := st.declMap[DeclKey(sd) := sd];
    if !Accepted(sd, filter, adlModules) then Ok(st.(declMap := declMap))
    else
      var moduleSet := if sd.moduleName in st.moduleSet then st.moduleSet else st.moduleSet + [sd.moduleName];
      var sts :- GetScopedTypes(res, sd, fuel);
      Ok(LoadState(st.concrete + sts.concrete, st.generic + sts.generic, moduleSet, declMap))
  }

  /** The state after visiting decls in order; the first failure aborts. */
  function VisitAll(res: Resolver, decls: seq<ScopedDecl>, filter: ScopedDecl -> bool,
                    adlModules: seq<string>, fuel: nat): Result<LoadState>
  {
    if |decls| == 0 then Ok(LoadState([], [], [], map[]))
    else
      var st :- VisitAll(res, decls[..|decls| - 1], filter, adlModules, fuel);
      Visit(res, st, decls[|decls| - 1], filter, adlModules, fuel)
  }

  /**
   * loadResources over the declarations `forEachDecl` visits, in order.
   * Every declaration enters `declMap` (before the filter is consulted);
   * accepted ones are projected and their module recorded.
   */
  method LoadResources(res: Resolver, decls: seq<ScopedDecl>, filter: ScopedDecl -> bool,
                       adlModules: seq<string>, fuel: nat) returns (r: Result<Resources>)
    ensures r.Ok? <==> VisitAll(res, decls, filter, adlModules, fuel).Ok?
    ensures r.Ok? ==>
              var st := VisitAll(res, decls, filter, adlModules, fuel).value;
              r.value == Resources(st.concrete, st.generic, st.moduleSet, st.declMap)
  {
    var st := LoadState([], [], [], map[]);
    var i := 0;
    while i < |decls|
      invariant 0 <= i <= |decls|
      invariant VisitAll(res, decls[..i], filter, adlModules, fuel) == Ok(st)
    {
      var sd := decls[i];
      assert decls[..i + 1][..i] == decls[..i];
      st := st.(declMap := st.declMap[DeclKey(sd) := sd]);
      if filter(sd) && sd.moduleName in adlModules {
        if sd.moduleName !in st.moduleSet {
          st := st.(moduleSet := st.moduleSet + [sd.moduleName]);
        }
        var sts := GetScopedTypes(res, sd, fuel);
        if sts.Err? {
          assert VisitAll(res, decls[..i + 1], filter, adlModules, fuel).Err?;
          VisitAllStopsAtError(res, decls, i + 1, filter, adlModules, fuel);
          return Err(sts.error);
        }
        st := st.(concrete := st.concrete + sts.value.concrete, generic := st.generic + sts.value.generic);
      }
      i := i + 1;
    }
    assert decls[..i] == decls;
    return Ok(Resources(st.concrete, st.generic, st.moduleSet, st.declMap));
  }

  /** Once a prefix fails, every longer prefix fails. */
  lemma {:induction false} VisitAllStopsAtError(res: Resolver, decls: seq<ScopedDecl>, k: nat,
                                                filter: ScopedDecl -> bool, adlModules: seq<string>, fuel: nat)
    requires k <= |decls|
    requires VisitAll(res, decls[..k], filter, adlModules, fuel).Err?
    ensures VisitAll(res, decls, filter, adlModules, fuel).Err?
    decreases |decls| - k
  {
    if k < |decls| {
      assert decls[..k + 1][..k] == decls[..k];
      VisitAllStopsAtError(res, decls, k + 1, filter, adlModules, fuel);
    } else {
      assert decls[..k] == decls;
    }
  }

  /** The declarations the loader buckets, in visiting order. */
  function AcceptedDecls(decls: seq<ScopedDecl>, filter: ScopedDecl -> bool, adlModules: seq<string>)
    : seq<ScopedDecl>
  {
    if |decls| == 0 then []
    else
      var init := AcceptedDecls(decls[..|decls| - 1], filter, adlModules);
      if Accepted(decls[|decls| - 1], filter, adlModules) then init + [decls[|decls| - 1]] else init
  }

  function ModuleOf(sd: ScopedDecl): string {
    sd.moduleName
  }

  /** Unfolds one step of VisitAll. */
  lemma VisitAllLast(res: Resolver, decls: seq<ScopedDecl>, filter: ScopedDecl -> bool,
                     adlModules: seq<string>, fuel: nat)
    requires |decls| > 0
    requires VisitAll(res, decls, filter, adlModules, fuel).Ok?
    ensures VisitAll(res, decls[..|decls| - 1], filter, adlModules, fuel).Ok?
    ensures VisitAll(res, decls, filter, adlModules, fuel)
            == Visit(res, VisitAll(res, decls[..|decls| - 1], filter, adlModules, fuel).value,
                     decls[|decls| - 1], filter, adlModules, fuel)
  {
  }

  /**
   * After a successful load there is one concrete type per accepted
   * declaration, in visiting order, each the projection of that declaration,
   * and the generic list is empty.
   */
  lemma {:induction false} LoadedConcrete(res: Resolver, decls: seq<ScopedDecl>, filter: ScopedDecl -> bool,
                                          adlModules: seq<string>, fuel: nat)
    requires VisitAll(res, decls, filter, adlModules, fuel).Ok?
    ensures var st := VisitAll(res, decls, filter, adlModules, fuel).value;
            var accepted := AcceptedDecls(decls, filter, adlModules);
            && |st.concrete| == |accepted|
            && st.generic == []
            && forall i :: 0 <= i < |accepted| ==>
                 GetScopedTypes(res, accepted[i], fuel) == Ok(ScopedTypes([st.concrete[i]], []))
  {
    if |decls| > 0 {
      var k := |decls| - 1;
      VisitAllLast(res, decls, filter, adlModules, fuel);
      LoadedConcrete(res, decls[..k], filter, adlModules, fuel);
      var st0 := VisitAll(res, decls[..k], filter, adlModules, fuel).value;
      var st := VisitAll(res, decls, filter, adlModules, fuel).value;
      var acc0 := AcceptedDecls(decls[..k], filter, adlModules);
      if Accepted(decls[k], filter, adlModules) {
        var sts := GetScopedTypes(res, decls[k], fuel);
        FromDeclShape(res, [PathElement(decls[k])], decls[k], [], fuel);
        assert sts.value.concrete == [sts.value.concrete[0]];
        assert st.concrete == st0.concrete + sts.value.concrete;
        var acc := AcceptedDecls(decls, filter, adlModules);
        assert acc == acc0 + [decls[k]];
        forall i | 0 <= i < |acc| ensures GetScopedTypes(res, acc[i], fuel) == Ok(ScopedTypes([st.concrete[i]], [])) {
          if i < |acc0| {
            assert acc[i] == acc0[i] && st.concrete[i] == st0.concrete[i];
          } else {
            assert acc[i] == decls[k] && st.concrete[i] == sts.value.concrete[0];
          }
        }
      } else {
        assert st.concrete == st0.concrete && st.generic == st0.generic;
      }
    }
  }

  /** The module names are the accepted declarations' modules, each once, in first-seen order. */
  lemma {:induction false} LoadedModuleNames(res: Resolver, decls: seq<ScopedDecl>, filter: ScopedDecl -> bool,
                                             adlModules: seq<string>, fuel: nat)
    requires VisitAll(res, decls, filter, adlModules, fuel).Ok?
    ensures VisitAll(res, decls, filter, adlModules, fuel).value.moduleSet
            == Seqs.Dedup(Seqs.Map(AcceptedDecls(decls, filter, adlModules), ModuleOf))
  {
    if |decls| > 0 {
      var k := |decls| - 1;
      VisitAllLast(res, decls, filter, adlModules, fuel);
      LoadedModuleNames(res, decls[..k], filter, adlModules, fuel);
      var names := Seqs.Map(AcceptedDecls(decls[..k], filter, adlModules), ModuleOf);
      if Accepted(decls[k], filter, adlModules) {
        assert Seqs.Map(AcceptedDecls(decls, filter, adlModules), ModuleOf) == names + [decls[k].moduleName];
        Seqs.DedupAppend(names, decls[k].moduleName);
        Seqs.DedupProperties(names);
      }
    }
  }

  /** `declMap` after visiting decls: every declaration under its qualified name, later ones overwriting. */
  function DeclMapOf(decls: seq<ScopedDecl>): map<string, ScopedDecl> {
    if |decls| == 0 then map[]
    else DeclMapOf(decls[..|decls| - 1])[DeclKey(decls[|decls| - 1]) := decls[|decls| - 1]]
  }

  /** The loader's `declMap` holds every visited declaration, accepted or not. */
  lemma {:induction false} LoadedDeclMap(res: Resolver, decls: seq<ScopedDecl>, filter: ScopedDecl -> bool,
                                         adlModules: seq<string>, fuel: nat)
    requires VisitAll(res, decls, filter, adlModules, fuel).Ok?
    ensures VisitAll(res, decls, filter, adlModules, fuel).value.declMap == DeclMapOf(decls)
  {
    if |decls| > 0 {
      VisitAllLast(res, decls, filter, adlModules, fuel);
      LoadedDeclMap(res, decls[..|decls| - 1], filter, adlModules, fuel);
    }
  }

  /** The keys of `declMap` are exactly the visited qualified names. */
  lemma {:induction false} DeclMapKeys(decls: seq<ScopedDecl>, key: string)
    ensures key in DeclMapOf(decls) <==> exists i :: 0 <= i < |decls| && DeclKey(decls[i]) == key
  {
    if |decls| > 0 {
      var k := |decls| - 1;
      var p := decls[..k];
      DeclMapKeys(p, key);
      if key != DeclKey(decls[k]) && key in DeclMapOf(decls) {
        var i :| 0 <= i < k && DeclKey(p[i]) == key;
        assert DeclKey(decls[i]) == key;
      }
      if key != DeclKey(decls[k]) && exists i :: 0 <= i < |decls| && DeclKey(decls[i]) == key {
        var i :| 0 <= i < |decls| && DeclKey(decls[i]) == key;
        assert DeclKey(p[i]) == key;
      }
    }
  }

  /** Each qualified name maps to the last declaration visited under it. */
  lemma {:induction false} DeclMapLastWins(decls: seq<ScopedDecl>, i: nat)
    requires i < |decls|
    requires forall j :: i < j < |decls| ==> DeclKey(decls[j]) != DeclKey(decls[i])
    ensures DeclKey(decls[i]) in DeclMapOf(decls) && DeclMapOf(decls)[DeclKey(decls[i])] == decls[i]
  {
    var k := |decls| - 1;
    if i < k {
      var p := decls[..k];
      assert p[i] == decls[i];
      assert DeclKey(decls[k]) != DeclKey(decls[i]);
      DeclMapLastWins(p, i);
    }
  }
}
