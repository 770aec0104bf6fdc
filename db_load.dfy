/**
 * The database loader: projects a table or view declaration onto its
 * columns (aliases and newtypes are followed, `DbSpread` fields are
 * flattened in place), derives primary keys, and selects and sorts the
 * tables and views of the loaded modules.
 */
module DbLoad {
  import opened Adl
  import opened TypeSubst
  import opened DbUtils
  import Text
  import Seqs
  import GraphqlLoad

  /**
   * _fromDecl as a specification: an alias or newtype projects its
   * substituted body, a struct the concatenated projections of its fields,
   * and a union is refused. `fuel` bounds the declarations entered, since
   * the source has no guard against cycles through aliases or spreads.
   */
  function DeclColumns(res: Resolver, sd: ScopedDecl, bs: seq<TypeBinding>, fuel: nat): (r: Result<seq<Field>>)
    decreases fuel, 3, 0
    ensures sd.decl.type_.Union? ==> r == Err(NotAStructOrAlias)
    ensures sd.decl.type_.Struct? ==> r == FieldsColumns(res, sd.decl.type_.fields, bs, fuel)
    ensures ((sd.decl.type_.TypeAlias? || sd.decl.type_.NewType?) && Substitute(sd.decl.type_.typeExpr, bs).Ok?
             && !Substitute(sd.decl.type_.typeExpr, bs).value.typeRef.Reference?) ==> r == Err(NotADeclReference)
  {
    match sd.decl.type_
    case TypeAlias(_, typeExpr0) =>
      var typeExpr :- Substitute(typeExpr0, bs);
      ExprColumns(res, typeExpr, fuel)
    case NewType(_, typeExpr0, _) =>
      var typeExpr :- Substitute(typeExpr0, bs);
      ExprColumns(res, typeExpr, fuel)
    case Struct(_, fields) => FieldsColumns(res, fields, bs, fuel)
    case Union(_, _) => Err(NotAStructOrAlias)
  }

  /** The columns of fields in declaration order; the first failure aborts. */
  function FieldsColumns(res: Resolver, fs: seq<Field>, bs: seq<TypeBinding>, fuel: nat): Result<seq<Field>>
    decreases fuel, 2, |fs|
  {
    if |fs| == 0 then Ok([])
    else
      var init :- FieldsColumns(res, fs[..|fs| - 1], bs, fuel);
      var last :- FieldColumns(res, fs[|fs| - 1], bs, fuel);
      Ok(init + last)
  }

  /**
   * _fromField: a `DbSpread` field is replaced by the columns of its
   * substituted type; any other field is kept with its type substituted.
   */
  function FieldColumns(res: Resolver, f: Field, bs: seq<TypeBinding>, fuel: nat): (r: Result<seq<Field>>)
    decreases fuel, 1, 0
    ensures Substitute(f.typeExpr, bs).Err? ==> r == Err(Substitute(f.typeExpr, bs).error)
    ensures Substitute(f.typeExpr, bs).Ok? && !HasAnnotation(f.annotations, DbSpreadKey) ==>
              r == Ok([f.(typeExpr := Substitute(f.typeExpr, bs).value)])
    ensures Substitute(f.typeExpr, bs).Ok? && HasAnnotation(f.annotations, DbSpreadKey) ==>
              r == ExprColumns(res, Substitute(f.typeExpr, bs).value, fuel)
  {
    var typeExpr :- Substitute(f.typeExpr, bs);
    if HasAnnotation(f.annotations, DbSpreadKey) then ExprColumns(res, typeExpr, fuel)
    else Ok([Field(f.name, f.serializedName, typeExpr, f.default, f.annotations)])
  }

  /** _fromTypeExpr: only a reference to a declaration has columns. */
  function ExprColumns(res: Resolver, t: TypeExpr, fuel: nat): (r: Result<seq<Field>>)
    decreases fuel, 0, 0
    ensures !t.typeRef.Reference? ==> r == Err(NotADeclReference)
  {
    if !t.typeRef.Reference? then Err(NotADeclReference)
    else if fuel == 0 then Err(OutOfFuel)
    else
      var sd :- Resolve(res, t.typeRef.ref);
      DeclColumns(res, sd, TypeBindings(sd.decl.type_.typeParams, t.parameters), fuel - 1)
  }

  /** _fromDecl: the loop that accumulates a struct's columns field by field. */
  method FromDecl(res: Resolver, sd: ScopedDecl, bs: seq<TypeBinding>, fuel: nat) returns (r: Result<seq<Field>>)
    ensures r == DeclColumns(res, sd, bs, fuel)
  {
    match sd.decl.type_
    case TypeAlias(_, typeExpr0) =>
      var typeExpr := Substitute(typeExpr0, bs);
      if typeExpr.Err? { return Err(typeExpr.error); }
      return ExprColumns(res, typeExpr.value, fuel);
    case NewType(_, typeExpr0, _) =>
      var typeExpr := Substitute(typeExpr0, bs);
      if typeExpr.Err? { return Err(typeExpr.error); }
      return ExprColumns(res, typeExpr.value, fuel);
    case Struct(_, fields) =>
      r := StructColumns(res, fields, bs, fuel);
    case Union(_, _) =>
      return Err(NotAStructOrAlias);
  }

  /** The loop of _fromDecl over a struct's fields, accumulating their columns. */
  method StructColumns(res: Resolver, fields: seq<Field>, bs: seq<TypeBinding>, fuel: nat) returns (r: Result<seq<Field>>)
    ensures r == FieldsColumns(res, fields, bs, fuel)
  {
    var result: seq<Field> := [];
    var i := 0;
    while i < |fields|
      invariant 0 <= i <= |fields|
      invariant FieldsColumns(res, fields[..i], bs, fuel) == Ok(result)
    {
      var next := NextFieldColumns(res, fields, bs, fuel, i, result);
      if next.Err? {
        FieldsColumnsStopsAtError(res, fields, i + 1, bs, fuel);
        return next;
      }
      result := next.value;
      i := i + 1;
    }
    assert fields[..i] == fields;
    return Ok(result);
  }

  /** One pass of the field loop: the field's columns are appended to the result. */
  method NextFieldColumns(res: Resolver, fields: seq<Field>, bs: seq<TypeBinding>, fuel: nat, i: nat, result: seq<Field>)
    returns (r: Result<seq<Field>>)
    requires i < |fields|
    requires FieldsColumns(res, fields[..i], bs, fuel) == Ok(result)
    ensures r == FieldsColumns(res, fields[..i + 1], bs, fuel)
  {
    FieldsColumnsStep(res, fields, i, bs, fuel, result);
    var cols := FieldColumns(res, fields[i], bs, fuel);
    if cols.Err? {
      return Err(cols.error);
    }
    return Ok(result + cols.value);
  }

  /** One more field: its columns are appended, or its failure is the failure. */
  lemma FieldsColumnsStep(res: Resolver, fs: seq<Field>, i: nat, bs: seq<TypeBinding>, fuel: nat, acc: seq<Field>)
    requires i < |fs|
    requires FieldsColumns(res, fs[..i], bs, fuel) == Ok(acc)
    ensures var c := FieldColumns(res, fs[i], bs, fuel);
            FieldsColumns(res, fs[..i + 1], bs, fuel) == if c.Err? then Err(c.error) else Ok(acc + c.value)
  {
    assert fs[..i + 1][..i] == fs[..i];
  }

  /** Once the columns of a prefix of the fields fail, those of all the fields fail with the same error. */
  lemma {:induction false} FieldsColumnsStopsAtError(res: Resolver, fs: seq<Field>, k: nat, bs: seq<TypeBinding>, fuel: nat)
    requires k <= |fs|
    requires FieldsColumns(res, fs[..k], bs, fuel).Err?
    ensures FieldsColumns(res, fs, bs, fuel) == FieldsColumns(res, fs[..k], bs, fuel)
    decreases |fs| - k
  {
    if k < |fs| {
      assert fs[..k + 1][..k] == fs[..k];
      FieldsColumnsStopsAtError(res, fs, k + 1, bs, fuel);
    } else {
      assert fs[..k] == fs;
    }
  }

  /** getDbFields: the columns of a declaration under no bindings. */
  function DbFields(res: Resolver, sd: ScopedDecl, fuel: nat): Result<seq<Field>> {
    DeclColumns(res, sd, [], fuel)
  }

  /** The columns of non-empty fields that succeed: those of all but the last, then the last's. */
  lemma FieldsColumnsLast(res: Resolver, fs: seq<Field>, bs: seq<TypeBinding>, fuel: nat)
    requires |fs| > 0 && FieldsColumns(res, fs, bs, fuel).Ok?
    ensures FieldsColumns(res, fs[..|fs| - 1], bs, fuel).Ok? && FieldColumns(res, fs[|fs| - 1], bs, fuel).Ok?
    ensures FieldsColumns(res, fs, bs, fuel).value
            == FieldsColumns(res, fs[..|fs| - 1], bs, fuel).value + FieldColumns(res, fs[|fs| - 1], bs, fuel).value
  {
  }

  /** Non-empty fields whose leading fields and last field succeed have the joined columns. */
  lemma FieldsColumnsExtend(res: Resolver, fs: seq<Field>, bs: seq<TypeBinding>, fuel: nat, init: seq<Field>, last: seq<Field>)
    requires |fs| > 0
    requires FieldsColumns(res, fs[..|fs| - 1], bs, fuel) == Ok(init)
    requires FieldColumns(res, fs[|fs| - 1], bs, fuel) == Ok(last)
    ensures FieldsColumns(res, fs, bs, fuel) == Ok(init + last)
  {
  }

  /**
   * A struct's columns are its fields' columns concatenated in declaration
   * order: the columns of any split of the fields are the columns of the
   * two parts, joined.
   */
  lemma {:induction false} FieldsColumnsSplit(res: Resolver, fs: seq<Field>, k: nat, bs: seq<TypeBinding>, fuel: nat)
    requires k <= |fs|
    requires FieldsColumns(res, fs, bs, fuel).Ok?
    ensures FieldsColumns(res, fs[..k], bs, fuel).Ok? && FieldsColumns(res, fs[k..], bs, fuel).Ok?
    ensures FieldsColumns(res, fs, bs, fuel).value
            == FieldsColumns(res, fs[..k], bs, fuel).value + FieldsColumns(res, fs[k..], bs, fuel).value
    decreases |fs|
  {
    if k < |fs| {
      var n := |fs| - 1;
      var t := fs[k..];
      assert fs[..n][..k] == fs[..k];
      assert t[..|t| - 1] == fs[..n][k..];
      assert t[|t| - 1] == fs[n];
      FieldsColumnsLast(res, fs, bs, fuel);
      FieldsColumnsSplit(res, fs[..n], k, bs, fuel);
      var a := FieldsColumns(res, fs[..k], bs, fuel).value;
      var b := FieldsColumns(res, fs[..n][k..], bs, fuel).value;
      var l := FieldColumns(res, fs[n], bs, fuel).value;
      FieldsColumnsExtend(res, t, bs, fuel, b, l);
      Seqs.AppendAssoc(a, b, l);
    } else {
      assert fs[..k] == fs;
      assert fs[k..] == [];
    }
  }

  predicate NoSpread(fs: seq<Field>) {
    forall i :: 0 <= i < |fs| ==> !HasAnnotation(fs[i].annotations, DbSpreadKey)
  }

  /**
   * Without `DbSpread` fields, the columns are exactly the fields the
   * GraphQL loader projects: same fields, in order, types substituted.
   */
  lemma {:induction false} NoSpreadColumnsAreProjectedFields(res: Resolver, fs: seq<Field>, bs: seq<TypeBinding>, fuel: nat)
    requires NoSpread(fs)
    ensures FieldsColumns(res, fs, bs, fuel) == GraphqlLoad.FromFields(fs, bs)
    decreases |fs|
  {
    if |fs| > 0 {
      var n := |fs| - 1;
      NoSpreadColumnsAreProjectedFields(res, fs[..n], bs, fuel);
      var g := GraphqlLoad.FromFields(fs, bs);
      var g0 := GraphqlLoad.FromFields(fs[..n], bs);
      if g0.Ok? && Substitute(fs[n].typeExpr, bs).Ok? {
        assert g.Ok?;
        assert g.value == g0.value + [fs[n].(typeExpr := Substitute(fs[n].typeExpr, bs).value)];
      }
    }
  }

  predicate IsPrimaryKeyField(f: Field) {
    HasAnnotation(f.annotations, DbPrimaryKeyKey)
  }

  /** getPrimaryKey: the column names of the `DbPrimaryKey` fields, in field order. */
  function PrimaryKey(fields: seq<Field>, mung: NameMung): (r: seq<string>)
    ensures |r| <= |fields|
  {
    if |fields| == 0 then []
    else
      var n := |fields| - 1;
      PrimaryKey(fields[..n], mung)
      + (if IsPrimaryKeyField(fields[n]) then [ColumnName(fields[n], mung)] else [])
  }

  /** The primary key is empty exactly when no field is annotated. */
  lemma {:induction false} PrimaryKeyEmpty(fields: seq<Field>, mung: NameMung)
    ensures PrimaryKey(fields, mung) == [] <==> forall i :: 0 <= i < |fields| ==> !IsPrimaryKeyField(fields[i])
  {
    if |fields| > 0 {
      var n := |fields| - 1;
      PrimaryKeyEmpty(fields[..n], mung);
      assert forall i :: 0 <= i < n ==> fields[..n][i] == fields[i];
    }
  }

  /** The primary key of concatenated field lists is the concatenation of their keys. */
  lemma {:induction false} PrimaryKeyAppend(a: seq<Field>, b: seq<Field>, mung: NameMung)
    ensures PrimaryKey(a + b, mung) == PrimaryKey(a, mung) + PrimaryKey(b, mung)
    decreases |b|
  {
    if |b| > 0 {
      var n := |b| - 1;
      var ab := a + b;
      assert ab[..|ab| - 1] == a + b[..n];
      assert ab[|ab| - 1] == b[n];
      PrimaryKeyAppend(a, b[..n], mung);
      var last := if IsPrimaryKeyField(b[n]) then [ColumnName(b[n], mung)] else [];
      assert PrimaryKey(ab, mung) == PrimaryKey(a + b[..n], mung) + last;
      assert PrimaryKey(b, mung) == PrimaryKey(b[..n], mung) + last;
    } else {
      assert a + b == a;
    }
  }

  /** One field contributes its column name exactly when it is annotated. */
  lemma PrimaryKeyOne(f: Field, mung: NameMung)
    ensures PrimaryKey([f], mung) == if IsPrimaryKeyField(f) then [ColumnName(f, mung)] else []
  {
    assert [f][..0] == [];
  }

  function TableName(t: DbTable): string { t.name }

  function ViewName(v: DbView): string { v.name }

  /** The table record built for a `DbTable` declaration. */
  function MakeTable(res: Resolver, sd: ScopedDecl, mung: NameMung, fuel: nat): (r: Result<DbTable>)
    requires HasAnnotation(sd.decl.annotations, DbTableKey)
    ensures r.Ok? <==> DbFields(res, sd, fuel).Ok?
    ensures r.Ok? ==>
              && r.value.scopedName == NameOf(sd) && r.value.scopedDecl == sd
              && r.value.fields == DbFields(res, sd, fuel).value
              && Some(r.value.ann) == GetAnnotation(sd.decl.annotations, DbTableKey)
              && r.value.name == DbTableName(sd, mung)
              && r.value.primaryKey == PrimaryKey(r.value.fields, mung)
  {
    var name := DbTableName(sd, mung);
    var fields :- DbFields(res, sd, fuel);
    Ok(DbTable(NameOf(sd), sd, fields, GetAnnotation(sd.decl.annotations, DbTableKey).value,
               name, PrimaryKey(fields, mung)))
  }

  /** The view record built for a `DbView` declaration. */
  function MakeView(res: Resolver, sd: ScopedDecl, mung: NameMung, fuel: nat): (r: Result<DbView>)
    requires HasAnnotation(sd.decl.annotations, DbViewKey)
    ensures r.Ok? <==> DbFields(res, sd, fuel).Ok?
    ensures r.Ok? ==>
              && r.value.scopedDecl == sd && r.value.fields == DbFields(res, sd, fuel).value
              && Some(r.value.ann) == GetAnnotation(sd.decl.annotations, DbViewKey)
              && r.value.name == DbTableName(sd, mung)
  {
    var name := DbTableName(sd, mung);
    var fields :- DbFields(res, sd, fuel);
    Ok(DbView(sd, fields, GetAnnotation(sd.decl.annotations, DbViewKey).value, name))
  }

  /** A table declaration: the filter accepts it and its `DbTable` annotation is neither missing nor null. */
  predicate IsTableDecl(sd: ScopedDecl, filter: ScopedDecl -> bool) {
    filter(sd) && HasNonNullAnnotation(sd.decl.annotations, DbTableKey)
  }

  /** A view declaration: its `DbView` annotation is neither missing nor null. */
  predicate IsViewDecl(sd: ScopedDecl) {
    HasNonNullAnnotation(sd.decl.annotations, DbViewKey)
  }

  /** The declarations that become tables, in visiting order. */
  function TableDecls(decls: seq<ScopedDecl>, filter: ScopedDecl -> bool): (r: seq<ScopedDecl>)
    ensures forall i :: 0 <= i < |r| ==> IsTableDecl(r[i], filter)
    ensures forall i :: 0 <= i < |decls| && IsTableDecl(decls[i], filter) ==> decls[i] in r
  {
    if |decls| == 0 then []
    else
      var n := |decls| - 1;
      TableDecls(decls[..n], filter) + (if IsTableDecl(decls[n], filter) then [decls[n]] else [])
  }

  /** The declarations that become views, in visiting order; no filter applies. */
  function ViewDecls(decls: seq<ScopedDecl>): (r: seq<ScopedDecl>)
    ensures forall i :: 0 <= i < |r| ==> IsViewDecl(r[i])
    ensures forall i :: 0 <= i < |decls| && IsViewDecl(decls[i]) ==> decls[i] in r
  {
    if |decls| == 0 then []
    else
      var n := |decls| - 1;
      ViewDecls(decls[..n]) + (if IsViewDecl(decls[n]) then [decls[n]] else [])
  }

  function TableDeclOf(filter: ScopedDecl -> bool): ScopedDecl -> bool {
    (sd: ScopedDecl) => IsTableDecl(sd, filter)
  }

  function ViewDeclOf(): ScopedDecl -> bool {
    (sd: ScopedDecl) => IsViewDecl(sd)
  }

  lemma {:induction false} TableDeclsIsFilter(decls: seq<ScopedDecl>, filter: ScopedDecl -> bool)
    ensures TableDecls(decls, filter) == Seqs.Filter(decls, TableDeclOf(filter))
  {
    if |decls| > 0 {
      TableDeclsIsFilter(decls[..|decls| - 1], filter);
    }
  }

  lemma {:induction false} ViewDeclsIsFilter(decls: seq<ScopedDecl>)
    ensures ViewDecls(decls) == Seqs.Filter(decls, ViewDeclOf())
  {
    if |decls| > 0 {
      ViewDeclsIsFilter(decls[..|decls| - 1]);
    }
  }

  /**
   * The table declarations keep the visiting order: each sits at a position
   * of the input, and the positions increase.
   */
  lemma TableDeclsOrder(decls: seq<ScopedDecl>, filter: ScopedDecl -> bool) returns (pos: seq<nat>)
    ensures var r := TableDecls(decls, filter);
            && |pos| == |r|
            && (forall j :: 0 <= j < |pos| ==> pos[j] < |decls| && decls[pos[j]] == r[j])
            && (forall j, l :: 0 <= j < l < |pos| ==> pos[j] < pos[l])
  {
    TableDeclsIsFilter(decls, filter);
    pos := Seqs.FilterPositions(decls, TableDeclOf(filter));
  }

  /**
   * The view declarations keep the visiting order: each sits at a position
   * of the input, and the positions increase.
   */
  lemma ViewDeclsOrder(decls: seq<ScopedDecl>) returns (pos: seq<nat>)
    ensures var r := ViewDecls(decls);
            && |pos| == |r|
            && (forall j :: 0 <= j < |pos| ==> pos[j] < |decls| && decls[pos[j]] == r[j])
            && (forall j, l :: 0 <= j < l < |pos| ==> pos[j] < pos[l])
  {
    ViewDeclsIsFilter(decls);
    pos := Seqs.FilterPositions(decls, ViewDeclOf());
  }

  /** The tables in visiting order, before sorting; the first failure aborts. */
  function TablesOf(res: Resolver, decls: seq<ScopedDecl>, filter: ScopedDecl -> bool, mung: NameMung, fuel: nat)
    : Result<seq<DbTable>>
  {
    if |decls| == 0 then Ok([])
    else
      var n := |decls| - 1;
      var init :- TablesOf(res, decls[..n], filter, mung, fuel);
      if IsTableDecl(decls[n], filter) then
        var t :- MakeTable(res, decls[n], mung, fuel);
        Ok(init + [t])
      else Ok(init)
  }

  /** The views in visiting order, before sorting; the first failure aborts. */
  function ViewsOf(res: Resolver, decls: seq<ScopedDecl>, mung: NameMung, fuel: nat): Result<seq<DbView>> {
    if |decls| == 0 then Ok([])
    else
      var n := |decls| - 1;
      var init :- ViewsOf(res, decls[..n], mung, fuel);
      if IsViewDecl(decls[n]) then
        var v :- MakeView(res, decls[n], mung, fuel);
        Ok(init + [v])
      else Ok(init)
  }

  /** The resources loadDbResources returns: tables then views, each sorted by name. */
  function DbResourcesOf(res: Resolver, decls: seq<ScopedDecl>, filter: ScopedDecl -> bool, mung: NameMung, fuel: nat)
    : Result<DbResources>
  {
    var tables :- TablesOf(res, decls, filter, mung, fuel);
    var views :- ViewsOf(res, decls, mung, fuel);
    Ok(DbResources(Text.SortBy(tables, TableName), Text.SortBy(views, ViewName)))
  }

  /** One more declaration: its table is appended when it is one, or its failure is the failure. */
  lemma TablesOfStep(res: Resolver, decls: seq<ScopedDecl>, i: nat, filter: ScopedDecl -> bool, mung: NameMung,
                     fuel: nat, acc: seq<DbTable>)
    requires i < |decls|
    requires TablesOf(res, decls[..i], filter, mung, fuel) == Ok(acc)
    ensures TablesOf(res, decls[..i + 1], filter, mung, fuel)
            == if !IsTableDecl(decls[i], filter) then Ok(acc)
               else
                 var t := MakeTable(res, decls[i], mung, fuel);
                 if t.Err? then Err(t.error) else Ok(acc + [t.value])
  {
    assert decls[..i + 1][..i] == decls[..i];
  }

  /** One more declaration: its view is appended when it is one, or its failure is the failure. */
  lemma ViewsOfStep(res: Resolver, decls: seq<ScopedDecl>, i: nat, mung: NameMung, fuel: nat, acc: seq<DbView>)
    requires i < |decls|
    requires ViewsOf(res, decls[..i], mung, fuel) == Ok(acc)
    ensures ViewsOf(res, decls[..i + 1], mung, fuel)
            == if !IsViewDecl(decls[i]) then Ok(acc)
               else
                 var v := MakeView(res, decls[i], mung, fuel);
                 if v.Err? then Err(v.error) else Ok(acc + [v.value])
  {
    assert decls[..i + 1][..i] == decls[..i];
  }

  /** The first pass of loadDbResources: the accepted `DbTable` declarations, in visiting order. */
  method CollectTables(res: Resolver, decls: seq<ScopedDecl>, filter: ScopedDecl -> bool, mung: NameMung, fuel: nat)
    returns (r: Result<seq<DbTable>>)
    ensures r == TablesOf(res, decls, filter, mung, fuel)
  {
    var tables: seq<DbTable> := [];
    var i := 0;
    while i < |decls|
      invariant 0 <= i <= |decls|
      invariant TablesOf(res, decls[..i], filter, mung, fuel) == Ok(tables)
    {
      var sd := decls[i];
      TablesOfStep(res, decls, i, filter, mung, fuel, tables);
      if filter(sd) {
        var ann := GetAnnotation(sd.decl.annotations, DbTableKey);
        if ann.Some? && ann.value != JNull {
          var name := DbTableName(sd, mung);
          var fields := FromDecl(res, sd, [], fuel);
          if fields.Err? {
            TablesOfStopsAtError(res, decls, i + 1, filter, mung, fuel);
            return Err(fields.error);
          }
          var primaryKey := PrimaryKey(fields.value, mung);
          tables := tables + [DbTable(NameOf(sd), sd, fields.value, ann.value, name, primaryKey)];
        }
      }
      i := i + 1;
    }
    assert decls[..i] == decls;
    return Ok(tables);
  }

  /** The second pass of loadDbResources: every `DbView` declaration, in visiting order. */
  method CollectViews(res: Resolver, decls: seq<ScopedDecl>, mung: NameMung, fuel: nat)
    returns (r: Result<seq<DbView>>)
    ensures r == ViewsOf(res, decls, mung, fuel)
  {
    var views: seq<DbView> := [];
    var i := 0;
    while i < |decls|
      invariant 0 <= i <= |decls|
      invariant ViewsOf(res, decls[..i], mung, fuel) == Ok(views)
    {
      var sd := decls[i];
      ViewsOfStep(res, decls, i, mung, fuel, views);
      var ann := GetAnnotation(sd.decl.annotations, DbViewKey);
      if ann.Some? && ann.value != JNull {
        var name := DbTableName(sd, mung);
        var fields := FromDecl(res, sd, [], fuel);
        if fields.Err? {
          ViewsOfStopsAtError(res, decls, i + 1, mung, fuel);
          return Err(fields.error);
        }
        views := views + [DbView(sd, fields.value, ann.value, name)];
      }
      i := i + 1;
    }
    assert decls[..i] == decls;
    return Ok(views);
  }

  /**
   * loadDbResources over the declarations `forEachDecl` visits, in order:
   * the tables are collected and sorted by name, then the views.
   */
  method LoadDbResources(res: Resolver, decls: seq<ScopedDecl>, filter: ScopedDecl -> bool, mung: NameMung, fuel: nat)
    returns (r: Result<DbResources>)
    ensures r == DbResourcesOf(res, decls, filter, mung, fuel)
  {
    var tables := CollectTables(res, decls, filter, mung, fuel);
    if tables.Err? { return Err(tables.error); }
    var sortedTables := Text.SortBy(tables.value, TableName);
    var views := CollectViews(res, decls, mung, fuel);
    if views.Err? { return Err(views.error); }
    var sortedViews := Text.SortBy(views.value, ViewName);
    return Ok(DbResources(sortedTables, sortedViews));
  }

  lemma {:induction false} TablesOfStopsAtError(res: Resolver, decls: seq<ScopedDecl>, k: nat,
                                                filter: ScopedDecl -> bool, mung: NameMung, fuel: nat)
    requires k <= |decls|
    requires TablesOf(res, decls[..k], filter, mung, fuel).Err?
    ensures TablesOf(res, decls, filter, mung, fuel) == TablesOf(res, decls[..k], filter, mung, fuel)
    decreases |decls| - k
  {
    if k < |decls| {
      assert decls[..k + 1][..k] == decls[..k];
      TablesOfStopsAtError(res, decls, k + 1, filter, mung, fuel);
    } else {
      assert decls[..k] == decls;
    }
  }

  lemma {:induction false} ViewsOfStopsAtError(res: Resolver, decls: seq<ScopedDecl>, k: nat, mung: NameMung, fuel: nat)
    requires k <= |decls|
    requires ViewsOf(res, decls[..k], mung, fuel).Err?
    ensures ViewsOf(res, decls, mung, fuel) == ViewsOf(res, decls[..k], mung, fuel)
    decreases |decls| - k
  {
    if k < |decls| {
      assert decls[..k + 1][..k] == decls[..k];
      ViewsOfStopsAtError(res, decls, k + 1, mung, fuel);
    } else {
      assert decls[..k] == decls;
    }
  }

  /**
   * Tables come exactly from the filter-accepted `DbTable` declarations, one
   * each, in visiting order, before the sort.
   */
  lemma {:induction false} TablesOfDecls(res: Resolver, decls: seq<ScopedDecl>, filter: ScopedDecl -> bool,
                                         mung: NameMung, fuel: nat)
    requires TablesOf(res, decls, filter, mung, fuel).Ok?
    ensures var ts := TablesOf(res, decls, filter, mung, fuel).value;
            var ds := TableDecls(decls, filter);
            |ts| == |ds| && forall i :: 0 <= i < |ts| ==> MakeTable(res, ds[i], mung, fuel) == Ok(ts[i])
  {
    if |decls| > 0 {
      var n := |decls| - 1;
      TablesOfDecls(res, decls[..n], filter, mung, fuel);
    }
  }

  /** Views come exactly from the `DbView` declarations, filter or not, one each, in visiting order. */
  lemma {:induction false} ViewsOfDecls(res: Resolver, decls: seq<ScopedDecl>, mung: NameMung, fuel: nat)
    requires ViewsOf(res, decls, mung, fuel).Ok?
    ensures var vs := ViewsOf(res, decls, mung, fuel).value;
            var ds := ViewDecls(decls);
            |vs| == |ds| && forall i :: 0 <= i < |vs| ==> MakeView(res, ds[i], mung, fuel) == Ok(vs[i])
  {
    if |decls| > 0 {
      var n := |decls| - 1;
      ViewsOfDecls(res, decls[..n], mung, fuel);
    }
  }

  /** The loaded tables and views are sorted by name and are permutations of the collected ones. */
  lemma LoadedSorted(res: Resolver, decls: seq<ScopedDecl>, filter: ScopedDecl -> bool, mung: NameMung, fuel: nat)
    requires DbResourcesOf(res, decls, filter, mung, fuel).Ok?
    ensures var r := DbResourcesOf(res, decls, filter, mung, fuel).value;
            && Text.SortedBy(r.tables, TableName)
            && multiset(r.tables) == multiset(TablesOf(res, decls, filter, mung, fuel).value)
            && Text.SortedBy(r.views, ViewName)
            && multiset(r.views) == multiset(ViewsOf(res, decls, mung, fuel).value)
  {
    Text.SortByProperties(TablesOf(res, decls, filter, mung, fuel).value, TableName);
    Text.SortByProperties(ViewsOf(res, decls, mung, fuel).value, ViewName);
  }
}
