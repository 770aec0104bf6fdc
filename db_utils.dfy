/**
 * Column, foreign-key and table-name derivation for the database
 * generators, the records they share, and the buffered output writer.
 */
module DbUtils {
  import opened Adl
  import opened TypeSubst
  import Text

  const DocKey := ScopedName("sys.annotations", "Doc")
  const MaybeKey := ScopedName("sys.types", "Maybe")
  const DbTableKey := ScopedName("common.db", "DbTable")
  const DbSpreadKey := ScopedName("common.db", "DbSpread")
  const DbPrimaryKeyKey := ScopedName("common.db", "DbPrimaryKey")
  const DbViewKey := ScopedName("common.db", "DbView")
  const DbColumnNameKey := ScopedName("common.db", "DbColumnName")
  const DbColumnTypeKey := ScopedName("common.db", "DbColumnType")
  const DbKeyKey := ScopedName("common.db", "DbKey")

  /** A name-munging function such as snake_case conversion. */
  type NameMung = string -> string

  /**
   * A database profile: the id and enum column types and the mapping from a
   * decoded type kind to a column type, with its fallback.
   */
  datatype DbProfile = DbProfile(
    idColumnType: string,
    enumColumnType: string,
    primTypes: map<string, string>,
    primFallback: string)

  /** `dbProfile.primColumnType(ptype)`: the listed type, or the fallback. */
  function PrimColumnType(p: DbProfile, ptype: string): (r: string)
    ensures ptype in p.primTypes ==> r == p.primTypes[ptype]
    ensures ptype !in p.primTypes ==> r == p.primFallback
  {
    if ptype in p.primTypes then p.primTypes[ptype] else p.primFallback
  }

  datatype ForeignKey = ForeignKey(table: string, column: string)

  datatype ColumnType = ColumnType(sqltype: string, fkey: Option<ForeignKey>, notNullable: bool)

  datatype DbTable = DbTable(
    scopedName: ScopedName,
    scopedDecl: ScopedDecl,
    fields: seq<Field>,
    ann: Json,
    name: string,
    primaryKey: seq<string>)

  datatype DbView = DbView(scopedDecl: ScopedDecl, fields: seq<Field>, ann: Json, name: string)

  datatype DbResources = DbResources(tables: seq<DbTable>, views: seq<DbView>)

  /** getColumnName: a string `DbColumnName` annotation, else the munged field name. */
  function ColumnName(f: Field, mung: NameMung): (r: string)
    ensures StringAnnotation(f.annotations, DbColumnNameKey).Some? ==>
              r == StringAnnotation(f.annotations, DbColumnNameKey).value
    ensures StringAnnotation(f.annotations, DbColumnNameKey).None? ==> r == mung(f.name)
  {
    match StringAnnotation(f.annotations, DbColumnNameKey)
    case Some(s) => s
    case None => mung(f.name)
  }

  /**
   * The `kind` of the runtime's decoded type expression, as far as the
   * column mapping looks at it: the primitive's name, or "Reference".
   */
  function DecodedKind(t: TypeExpr): string {
    match t.typeRef
    case Primitive(p) => p
    case Reference(_) => "Reference"
    case TypeParam(_) => "TypeParam"
  }

  /** A union all of whose branches are Void. */
  predicate IsEnum(fields: seq<Field>) {
    forall i :: 0 <= i < |fields| ==> fields[i].typeExpr.typeRef == Primitive("Void")
  }

  /**
   * One expansion of a reference to a type alias (`alias` true) or to a
   * newtype (`alias` false): its body under the reference's arguments.
   * Anything else does not expand.
   */
  function ExpandOnce(res: Resolver, t: TypeExpr, alias: bool): (r: Result<Option<TypeExpr>>)
    ensures !t.typeRef.Reference? ==> r == Ok(None)
    ensures t.typeRef.Reference? && t.typeRef.ref in res
            && !(if alias then res[t.typeRef.ref].decl.type_.TypeAlias? else res[t.typeRef.ref].decl.type_.NewType?)
            ==> r == Ok(None)
    ensures r.Ok? && r.value.Some? ==>
              t.typeRef.Reference? && t.typeRef.ref in res
              && (if alias then res[t.typeRef.ref].decl.type_.TypeAlias? else res[t.typeRef.ref].decl.type_.NewType?)
  {
    match t.typeRef
    case Reference(sn) =>
      var sd :- Resolve(res, sn);
      if (alias && sd.decl.type_.TypeAlias?) || (!alias && sd.decl.type_.NewType?) then
        var body :- Substitute(sd.decl.type_.typeExpr, TypeBindings(sd.decl.type_.typeParams, t.parameters));
        Ok(Some(body))
      else Ok(None)
    case _ => Ok(None)
  }

  /** Expands type aliases at the head of t until it is no longer a reference to one. */
  function ExpandAliases(res: Resolver, t: TypeExpr, fuel: nat): (r: Result<TypeExpr>)
    decreases fuel
  {
    var e :- ExpandOnce(res, t, true);
    match e
    case None => Ok(t)
    case Some(t2) => if fuel == 0 then Err(OutOfFuel) else ExpandAliases(res, t2, fuel - 1)
  }

  /** True when t is a reference whose target is a type alias. */
  predicate IsAliasRef(res: Resolver, t: TypeExpr) {
    t.typeRef.Reference? && t.typeRef.ref in res && res[t.typeRef.ref].decl.type_.TypeAlias?
  }

  /** Alias expansion stops exactly at an expression that is not a reference to a type alias. */
  lemma {:induction false} ExpandAliasesResult(res: Resolver, t: TypeExpr, fuel: nat)
    requires ExpandAliases(res, t, fuel).Ok?
    ensures !IsAliasRef(res, ExpandAliases(res, t, fuel).value)
    ensures !IsAliasRef(res, t) ==> ExpandAliases(res, t, fuel).value == t
    decreases fuel
  {
    var e := ExpandOnce(res, t, true).value;
    if e.Some? {
      ExpandAliasesResult(res, e.value, fuel - 1);
    }
  }

  /**
   * getColumnType1: for a reference, the target's string `DbColumnType`
   * annotation, else the enum column type for an enum union, else the
   * column type of the expanded alias or newtype; anything left over
   * (primitives, struct and non-enum union references) goes to the
   * profile's mapping of its kind.
   */
  function ColumnType1(res: Resolver, t: TypeExpr, profile: DbProfile, fuel: nat): (r: Result<string>)
    decreases fuel
    ensures !t.typeRef.Reference? ==> r == Ok(PrimColumnType(profile, DecodedKind(t)))
    ensures t.typeRef.Reference? && t.typeRef.ref !in res ==> r == Err(UnknownDecl(t.typeRef.ref))
    ensures t.typeRef.Reference? && t.typeRef.ref in res ==>
              var sd := res[t.typeRef.ref];
              (StringAnnotation(sd.decl.annotations, DbColumnTypeKey).Some? ==>
                 r == Ok(StringAnnotation(sd.decl.annotations, DbColumnTypeKey).value))
              && ((StringAnnotation(sd.decl.annotations, DbColumnTypeKey).None?
                   && sd.decl.type_.Union? && IsEnum(sd.decl.type_.fields)) ==> r == Ok(profile.enumColumnType))
              && ((StringAnnotation(sd.decl.annotations, DbColumnTypeKey).None?
                   && (sd.decl.type_.Struct? || (sd.decl.type_.Union? && !IsEnum(sd.decl.type_.fields))))
                  ==> r == Ok(PrimColumnType(profile, "Reference")))
  {
    if !t.typeRef.Reference? then Ok(PrimColumnType(profile, DecodedKind(t)))
    else
      var sd :- Resolve(res, t.typeRef.ref);
      var ann := StringAnnotation(sd.decl.annotations, DbColumnTypeKey);
      if ann.Some? then Ok(ann.value)
      else if sd.decl.type_.Union? && IsEnum(sd.decl.type_.fields) then Ok(profile.enumColumnType)
      else
        var a :- ExpandOnce(res, t, true);
        var n :- ExpandOnce(res, t, false);
        var t2 := if a.Some? then a else n;
        if t2.None? then Ok(PrimColumnType(profile, DecodedKind(t)))
        else if fuel == 0 then Err(OutOfFuel)
        else ColumnType1(res, t2.value, profile, fuel - 1)
  }

  /**
   * An unannotated reference to a type alias or newtype has the column type
   * of the target's body under the reference's arguments.
   */
  lemma ColumnType1Expands(res: Resolver, t: TypeExpr, profile: DbProfile, fuel: nat)
    requires t.typeRef.Reference? && t.typeRef.ref in res
    requires StringAnnotation(res[t.typeRef.ref].decl.annotations, DbColumnTypeKey).None?
    requires res[t.typeRef.ref].decl.type_.TypeAlias? || res[t.typeRef.ref].decl.type_.NewType?
    requires fuel > 0
    ensures var sd := res[t.typeRef.ref];
            var body := Substitute(sd.decl.type_.typeExpr, TypeBindings(sd.decl.type_.typeParams, t.parameters));
            ColumnType1(res, t, profile, fuel)
            == if body.Err? then Err(body.error) else ColumnType1(res, body.value, profile, fuel - 1)
  {
  }

  /** `dbTables.find(t => scopedNamesEqual(sn, t.scopedName))`. */
  function FindTable(tables: seq<DbTable>, sn: ScopedName): (r: Option<DbTable>)
    ensures r.None? <==> forall i :: 0 <= i < |tables| ==> tables[i].scopedName != sn
    ensures r.Some? ==> r.value in tables && r.value.scopedName == sn
  {
    if |tables| == 0 then None
    else if tables[0].scopedName == sn then Some(tables[0])
    else FindTable(tables[1..], sn)
  }

  /**
   * getForeignKeyRef: after alias expansion, `DbKey<T>` with T a reference
   * to a table gives that table's name and its single primary-key column;
   * any other type has no foreign key.
   */
  function ForeignKeyRef(res: Resolver, tables: seq<DbTable>, t0: TypeExpr, mung: NameMung, fuel: nat)
    : (r: Result<Option<ForeignKey>>)
    ensures ExpandAliases(res, t0, fuel).Ok? ==>
              var t := ExpandAliases(res, t0, fuel).value;
              (t.typeRef != Reference(DbKeyKey) ==> r == Ok(None))
              && (t.typeRef == Reference(DbKeyKey) && |t.parameters| > 0 && t.parameters[0].typeRef.Reference? ==>
                    var sn := t.parameters[0].typeRef.ref;
                    && (FindTable(tables, sn).None? ==> r == Err(NoTableDeclaration(sn)))
                    && (FindTable(tables, sn).Some? && |FindTable(tables, sn).value.primaryKey| != 1
                        ==> r == Err(NoSingularPrimaryKey(sn)))
                    && (FindTable(tables, sn).Some? && |FindTable(tables, sn).value.primaryKey| == 1 && sn in res
                        ==> r == Ok(Some(ForeignKey(DbTableName(res[sn], mung), FindTable(tables, sn).value.primaryKey[0]))))
                    && (FindTable(tables, sn).Some? && |FindTable(tables, sn).value.primaryKey| == 1 && sn !in res
                        ==> r == Err(UnknownDecl(sn))))
              && (t.typeRef == Reference(DbKeyKey) && |t.parameters| == 0 ==> r == Err(MissingTypeArgument))
              && (t.typeRef == Reference(DbKeyKey) && |t.parameters| > 0 && !t.parameters[0].typeRef.Reference?
                  ==> r == Ok(None))
    ensures ExpandAliases(res, t0, fuel).Err? ==> r == Err(ExpandAliases(res, t0, fuel).error)
  {
    var t :- ExpandAliases(res, t0, fuel);
    if t.typeRef == Reference(DbKeyKey) then
      if |t.parameters| == 0 then Err(MissingTypeArgument)
      else
        var param0 := t.parameters[0];
        if !param0.typeRef.Reference? then Ok(None)
        else
          var sn := param0.typeRef.ref;
          var table := FindTable(tables, sn);
          if table.None? then Err(NoTableDeclaration(sn))
          else if |table.value.primaryKey| != 1 then Err(NoSingularPrimaryKey(sn))
          else
            var decl :- Resolve(res, sn);
            Ok(Some(ForeignKey(DbTableName(decl, mung), table.value.primaryKey[0])))
    else Ok(None)
  }

  /**
   * getDbTableName: a non-empty string `tableName` in the `DbTable`
   * annotation, else the munged declaration name with one trailing
   * "_table" removed.
   */
  function DbTableName(sd: ScopedDecl, mung: NameMung): (r: string)
    ensures TableNameField(sd).Some? ==> r == TableNameField(sd).value
    ensures TableNameField(sd).None? && Text.EndsWith(mung(sd.decl.name), "_table") ==>
              r + "_table" == mung(sd.decl.name)
    ensures TableNameField(sd).None? && !Text.EndsWith(mung(sd.decl.name), "_table") ==>
              r == mung(sd.decl.name)
  {
    match TableNameField(sd)
    case Some(name) => name
    case None =>
      var tableName := mung(sd.decl.name);
      if Text.EndsWith(tableName, "_table") then tableName[..|tableName| - 6] else tableName
  }

  /** The `tableName` of the `DbTable` annotation when it is a non-empty string. */
  function TableNameField(sd: ScopedDecl): Option<string> {
    match AssumeField(GetAnnotation(sd.decl.annotations, DbTableKey), "tableName")
    case Some(JString(s)) => if s != "" then Some(s) else None
    case _ => None
  }

  /**
   * assumeField: the member `key` of an object value; absent (undefined)
   * for a missing or null value and for any non-object.
   */
  function AssumeField(obj: Option<Json>, key: string): (r: Option<Json>)
    ensures r.Some? <==> obj.Some? && obj.value.JObject? && key in obj.value.members
    ensures r.Some? ==> r.value == obj.value.members[key]
  {
    match obj
    case Some(JObject(m)) => if key in m then Some(m[key]) else None
    case _ => None
  }

  /** True for `Nullable<T>` and `sys.types.Maybe<T>`: the columns that allow null. */
  predicate IsNullableType(t: TypeExpr) {
    t.typeRef == Primitive("Nullable") || t.typeRef == Reference(MaybeKey)
  }

  /** A field-level `DbColumnType` string, when it is non-empty (`annctype || ...`). */
  function ColumnTypeOverride(f: Field): Option<string> {
    match StringAnnotation(f.annotations, DbColumnTypeKey)
    case Some(s) => if s != "" then Some(s) else None
    case None => None
  }

  /** The type a column takes its SQL type and foreign key from: the argument of a nullable wrapper, else the type itself. */
  function ColumnInner(t: TypeExpr): TypeExpr {
    if IsNullableType(t) && |t.parameters| > 0 then t.parameters[0] else t
  }

  /**
   * getColumnType: nullable wrappers give a nullable column typed by their
   * argument; every other type gives a not-null column. A field-level
   * `DbColumnType` string overrides the SQL type in both cases; the SQL
   * type is computed before the foreign key.
   */
  function GetColumnType(res: Resolver, tables: seq<DbTable>, f: Field, profile: DbProfile,
                         mung: NameMung, fuel: nat): (r: Result<ColumnType>)
    ensures r.Ok? ==> (r.value.notNullable <==> !IsNullableType(f.typeExpr))
    ensures r.Ok? && ColumnTypeOverride(f).Some? ==> r.value.sqltype == ColumnTypeOverride(f).value
    ensures IsNullableType(f.typeExpr) && |f.typeExpr.parameters| == 0 ==> r == Err(MissingTypeArgument)
    ensures !IsNullableType(f.typeExpr) || |f.typeExpr.parameters| > 0 ==>
              var inner := ColumnInner(f.typeExpr);
              var ct1 := ColumnType1(res, inner, profile, fuel);
              var fk := ForeignKeyRef(res, tables, inner, mung, fuel);
              && (r.Ok? <==> (ColumnTypeOverride(f).Some? || ct1.Ok?) && fk.Ok?)
              && (r.Ok? ==> r.value.fkey == fk.value
                            && (ColumnTypeOverride(f).None? ==> r.value.sqltype == ct1.value))
              && (ColumnTypeOverride(f).None? && ct1.Err? ==> r == Err(ct1.error))
              && ((ColumnTypeOverride(f).Some? || ct1.Ok?) && fk.Err? ==> r == Err(fk.error))
  {
    var t := f.typeExpr;
    if IsNullableType(t) then
      if |t.parameters| == 0 then Err(MissingTypeArgument)
      else
        var sqltype :- if ColumnTypeOverride(f).Some? then Ok(ColumnTypeOverride(f).value)
                       else ColumnType1(res, t.parameters[0], profile, fuel);
        var fkey :- ForeignKeyRef(res, tables, t.parameters[0], mung, fuel);
        Ok(ColumnType(sqltype, fkey, false))
    else
      var sqltype :- if ColumnTypeOverride(f).Some? then Ok(ColumnTypeOverride(f).value)
                     else ColumnType1(res, t, profile, fuel);
      var fkey :- ForeignKeyRef(res, tables, t, mung, fuel);
      Ok(ColumnType(sqltype, fkey, true))
  }

  /**
   * A `Nullable<T>` or `Maybe<T>` field has the same SQL type and foreign key
   * as the same field typed plainly by T; only nullability differs.
   */
  lemma NullableColumnMatchesInner(res: Resolver, tables: seq<DbTable>, f: Field, profile: DbProfile,
                                   mung: NameMung, fuel: nat)
    requires IsNullableType(f.typeExpr) && |f.typeExpr.parameters| > 0
    requires !IsNullableType(f.typeExpr.parameters[0])
    ensures var inner := f.(typeExpr := f.typeExpr.parameters[0]);
            var r := GetColumnType(res, tables, f, profile, mung, fuel);
            var q := GetColumnType(res, tables, inner, profile, mung, fuel);
            r.Ok? == q.Ok?
            && (r.Ok? ==> r.value == q.value.(notNullable := false) && q.value.notNullable)
  {
  }

  /** The output buffer of one generated file; `close` (the file write) is not modelled. */
  class FileWriter {
    const path: string
    const verbose: bool
    var content: seq<string>

    constructor(path: string, verbose: bool)
      ensures this.path == path && this.verbose == verbose && content == []
    {
      this.path := path;
      this.verbose := verbose;
      content := [];
    }

    /** Appends one string to the buffer. */
    method Write(s: string)
      modifies this
      ensures content == old(content) + [s]
    {
      content := content + [s];
    }

    /** The text `close` would write: the buffer joined with "". */
    function Joined(): string
      reads this
    {
      Text.Join(content, "")
    }
  }
}
