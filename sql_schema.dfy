/**
 * The SQL schema generator: string literals and reserved-name quoting,
 * the database profiles, and the create-table text for each table with
 * its foreign-key, index and uniqueness constraints.
 */
module SqlSchema {
  import opened Adl
  import opened DbUtils
  import Text
  import Seqs

  // ----- SQL literals and identifiers -----

  /** Doubles every single quote (the escaping rule of a character string literal). */
  function EscapeQuotes(s: string): (r: string)
    ensures |r| >= |s|
  {
    if |s| == 0 then ""
    else (if s[0] == '\'' then "''" else [s[0]]) + EscapeQuotes(s[1..])
  }

  /** dbstr: a single-quoted SQL character string literal whose value is s. */
  function Dbstr(s: string): (r: string)
    ensures |r| >= 2 && r[0] == '\'' && r[|r| - 1] == '\''
  {
    "'" + EscapeQuotes(s) + "'"
  }

  /**
   * The value of a literal body: every doubled quote stands for one quote; a
   * lone quote ends the literal early, so such a body is not one literal.
   */
  function UnescapeQuotes(b: string): Option<string> {
    if |b| == 0 then Some("")
    else if b[0] == '\'' then
      if |b| >= 2 && b[1] == '\'' then
        match UnescapeQuotes(b[2..])
        case Some(rest) => Some("'" + rest)
        case None => None
      else None
    else
      match UnescapeQuotes(b[1..])
      case Some(rest) => Some([b[0]] + rest)
      case None => None
  }

  /** The value of a quoted literal, as a SQL reader would take it. */
  function ParseLiteral(lit: string): Option<string> {
    if |lit| >= 2 && lit[0] == '\'' && lit[|lit| - 1] == '\'' then UnescapeQuotes(lit[1..|lit| - 1])
    else None
  }

  lemma {:induction false} UnescapeEscape(s: string)
    ensures UnescapeQuotes(EscapeQuotes(s)) == Some(s)
  {
    if |s| > 0 {
      UnescapeEscape(s[1..]);
      var e := EscapeQuotes(s);
      if s[0] == '\'' {
        assert e[2..] == EscapeQuotes(s[1..]);
      } else {
        assert e[1..] == EscapeQuotes(s[1..]);
      }
      assert s == [s[0]] + s[1..];
    }
  }

  /** Reading back a literal dbstr produced gives the original string. */
  lemma DbstrRoundTrip(s: string)
    ensures ParseLiteral(Dbstr(s)) == Some(s)
  {
    var lit := Dbstr(s);
    assert lit[1..|lit| - 1] == EscapeQuotes(s);
    UnescapeEscape(s);
  }

  /** Different strings give different literals. */
  lemma DbstrInjective(a: string, b: string)
    requires Dbstr(a) == Dbstr(b)
    ensures a == b
  {
    DbstrRoundTrip(a);
    DbstrRoundTrip(b);
  }

  /** RESERVED_NAMES: the names that must be written as delimited identifiers. */
  const ReservedNames: set<string> := {"user"}

  /**
   * The names RESERVED_NAMES answers truthily for. It is an object literal, so
   * besides its own entries it also answers for every inherited member.
   */
  predicate IsReserved(s: string) {
    s in ReservedNames || s in ObjectPrototypeKeys
  }

  /** quoteReservedName: a name is delimited by double quotes exactly when it is reserved, else unchanged. */
  function QuoteReservedName(s: string): (r: string)
    ensures IsReserved(s) <==> r != s
    ensures IsReserved(s) ==> r == "\"" + s + "\""
  {
    if IsReserved(s) then "\"" + s + "\"" else s
  }

  /** Names inherited from Object.prototype are delimited too, as the object lookup finds them. */
  lemma InheritedNamesQuoted()
    ensures QuoteReservedName("user") == "\"user\""
    ensures QuoteReservedName("constructor") == "\"constructor\""
    ensures QuoteReservedName("toString") == "\"toString\""
    ensures QuoteReservedName("users") == "users"
  {
    assert "users" !in ReservedNames;
    assert "users" !in ObjectPrototypeKeys;
  }

  /** Quoting keeps names apart: names without a double quote never collide after quoting. */
  lemma QuoteReservedNameInjective(a: string, b: string)
    requires '"' !in a && '"' !in b
    requires QuoteReservedName(a) == QuoteReservedName(b)
    ensures a == b
  {
    var qa, qb := QuoteReservedName(a), QuoteReservedName(b);
    if IsReserved(a) && IsReserved(b) {
      assert a == qa[1..|qa| - 1] && b == qb[1..|qb| - 1];
    }
  }

  // ----- Profiles -----

  const PostgresProfile := DbProfile("text", "text", map[
    "String" := "text", "Bool" := "boolean", "Json" := "json",
    "Int8" := "smallint", "Int16" := "smallint", "Int32" := "integer", "Int64" := "bigint",
    "Word8" := "smallint", "Word16" := "smallint", "Word32" := "integer", "Word64" := "bigint",
    "Float" := "real", "Double" := "double precision"], "json")

  const Postgres2Profile := DbProfile("text", "text", map[
    "String" := "text", "Bool" := "boolean", "Json" := "jsonb",
    "Int8" := "smallint", "Int16" := "smallint", "Int32" := "integer", "Int64" := "bigint",
    "Word8" := "smallint", "Word16" := "smallint", "Word32" := "integer", "Word64" := "bigint",
    "Float" := "real", "Double" := "double precision"], "jsonb")

  const Mssql2Profile := DbProfile("nvarchar(64)", "nvarchar(64)", map[
    "String" := "nvarchar(max)",
    "Int8" := "smallint", "Int16" := "smallint", "Int32" := "int", "Int64" := "bigint",
    "Word8" := "smallint", "Word16" := "smallint", "Word32" := "int", "Word64" := "bigint",
    "Float" := "float(24)", "Double" := "float(53)", "Bool" := "bit"], "nvarchar(max)")

  datatype ProfileName = Postgresql | Postgresql2 | Mssql2

  /** getDbProfile: the named profile; postgresql2 when none is given. */
  function GetDbProfile(name: Option<ProfileName>): (r: DbProfile)
    ensures name.None? ==> r == Postgres2Profile
    ensures name == Some(Postgresql) ==> r == PostgresProfile
    ensures name == Some(Postgresql2) ==> r == Postgres2Profile
    ensures name == Some(Mssql2) ==> r == Mssql2Profile
  {
    match name
    case None => Postgres2Profile
    case Some(Postgresql2) => Postgres2Profile
    case Some(Postgresql) => PostgresProfile
    case Some(Mssql2) => Mssql2Profile
  }

  const IntegerKinds: seq<string> := ["Int8", "Int16", "Int32", "Int64", "Word8", "Word16", "Word32", "Word64"]

  /**
   * Integer and word widths map to fixed column types: 8 and 16 bits to
   * smallint, 32 to integer (int on SQL Server), 64 to bigint; unsigned
   * words share the signed type of their width.
   */
  lemma ProfileIntegerTypes(p: Option<ProfileName>)
    ensures var prof := GetDbProfile(p);
            && PrimColumnType(prof, "Int8") == "smallint" && PrimColumnType(prof, "Int16") == "smallint"
            && PrimColumnType(prof, "Int32") == (if p == Some(Mssql2) then "int" else "integer")
            && PrimColumnType(prof, "Int64") == "bigint"
            && forall i :: 0 <= i < 4 ==>
                 PrimColumnType(prof, IntegerKinds[i + 4]) == PrimColumnType(prof, IntegerKinds[i])
  {
  }

  /** Unlisted kinds fall back to json, jsonb and nvarchar(max) respectively. */
  lemma ProfileFallbacks(ptype: string)
    requires ptype !in ["String", "Bool", "Json", "Float", "Double"] && ptype !in IntegerKinds
    ensures PrimColumnType(PostgresProfile, ptype) == "json"
    ensures PrimColumnType(Postgres2Profile, ptype) == "jsonb"
    ensures PrimColumnType(Mssql2Profile, ptype) == "nvarchar(max)"
  {
  }

  /** The two PostgreSQL profiles differ only in how JSON is stored. */
  lemma PostgresProfilesDiffer(ptype: string)
    ensures PrimColumnType(PostgresProfile, ptype) == PrimColumnType(Postgres2Profile, ptype)
            <==> (ptype != "Json" && ptype in PostgresProfile.primTypes)
  {
  }

  // ----- Create-table text -----

  /** One line of a create-table body: its code and an optional comment ("" for none). */
  datatype Line = Line(code: string, comment: string)

  /** The constraint adding a foreign key for column `col` of table `tname`. */
  function FkConstraint(tname: string, col: string, fk: ForeignKey): string {
    "alter table " + QuoteReservedName(tname) + " add constraint " + tname + "_" + col
    + "_fk foreign key (" + col + ") references " + QuoteReservedName(fk.table) + "(" + fk.column + ");"
  }

  /** The n-th index of table `tname`. */
  function IndexConstraint(tname: string, n: nat, cols: seq<string>): string {
    "create index " + tname + "_" + Text.NatToString(n) + "_idx on " + QuoteReservedName(tname)
    + "(" + Text.Join(cols, ", ") + ");"
  }

  /** The n-th uniqueness constraint of table `tname`. */
  function UniqueConstraint(tname: string, n: nat, cols: seq<string>): string {
    "alter table " + QuoteReservedName(tname) + " add constraint " + tname + "_" + Text.NatToString(n)
    + "_con unique (" + Text.Join(cols, ", ") + ");"
  }

  /** What one field contributes: its column line and, with a foreign key, one constraint. */
  datatype Column = Column(line: Line, fk: seq<string>)

  /**
   * The column of field f: its name, SQL type and `not null`, commented with
   * its ADL type; a foreign-key constraint exactly when the column type has
   * an `fkey`.
   */
  function ColumnOf(res: Resolver, tables: seq<DbTable>, tname: string, f: Field, profile: DbProfile,
                    mung: NameMung, typeText: TypeExpr -> string, fuel: nat): Result<Column>
  {
    var ct := GetColumnType(res, tables, f, profile, mung, fuel);
    if ct.Err? then Err(ct.error)
    else
      var col := ColumnName(f, mung);
      var code := col + " " + ct.value.sqltype + (if ct.value.notNullable then " not null" else "");
      Ok(Column(Line(code, typeText(f.typeExpr)),
                if ct.value.fkey.Some? then [FkConstraint(tname, col, ct.value.fkey.value)] else []))
  }

  /**
   * A field's column exists when its column type does; its line is marked
   * `not null` exactly when the field is not Nullable or Maybe, and it adds
   * a foreign-key constraint exactly when the column type has an `fkey`.
   */
  lemma ColumnOfSpec(res: Resolver, tables: seq<DbTable>, tname: string, f: Field, profile: DbProfile,
                     mung: NameMung, typeText: TypeExpr -> string, fuel: nat)
    ensures var r := ColumnOf(res, tables, tname, f, profile, mung, typeText, fuel);
            var ct := GetColumnType(res, tables, f, profile, mung, fuel);
            && (r.Ok? <==> ct.Ok?)
            && (r.Ok? ==>
                  && r.value.line.code == ColumnName(f, mung) + " " + ct.value.sqltype
                                          + (if IsNullableType(f.typeExpr) then "" else " not null")
                  && r.value.line.comment == typeText(f.typeExpr)
                  && (ct.value.fkey.None? <==> r.value.fk == [])
                  && (ct.value.fkey.Some? ==> r.value.fk == [FkConstraint(tname, ColumnName(f, mung), ct.value.fkey.value)]))
  {
  }

  /** The foreign-key part of ColumnOfSpec on its own. */
  lemma ColumnOfFk(res: Resolver, tables: seq<DbTable>, tname: string, f: Field, profile: DbProfile,
                   mung: NameMung, typeText: TypeExpr -> string, fuel: nat)
    ensures var r := ColumnOf(res, tables, tname, f, profile, mung, typeText, fuel);
            var ct := GetColumnType(res, tables, f, profile, mung, fuel);
            && (r.Ok? <==> ct.Ok?)
            && (r.Ok? ==>
                  && (ct.value.fkey.None? <==> r.value.fk == [])
                  && (ct.value.fkey.Some? ==> r.value.fk == [FkConstraint(tname, ColumnName(f, mung), ct.value.fkey.value)]))
  {
  }

  /** The lines and foreign-key constraints a table's fields give. */
  datatype ColumnsOut = ColumnsOut(lines: seq<Line>, fks: seq<string>)

  /** The column of every field, in field order. */
  function FieldColumns(res: Resolver, tables: seq<DbTable>, tname: string, fields: seq<Field>, profile: DbProfile,
                        mung: NameMung, typeText: TypeExpr -> string, fuel: nat): (r: seq<Result<Column>>)
    ensures |r| == |fields|
    ensures forall i :: 0 <= i < |fields| ==> r[i] == ColumnOf(res, tables, tname, fields[i], profile, mung, typeText, fuel)
  {
    seq(|fields|, i requires 0 <= i < |fields| => ColumnOf(res, tables, tname, fields[i], profile, mung, typeText, fuel))
  }

  /** Lines and constraints of a sequence of columns; the first failure aborts. */
  function CollectColumns(cs: seq<Result<Column>>): Result<ColumnsOut> {
    if |cs| == 0 then Ok(ColumnsOut([], []))
    else
      var n := |cs| - 1;
      var init := CollectColumns(cs[..n]);
      if init.Err? then init
      else if cs[n].Err? then Err(cs[n].error)
      else Ok(ColumnsOut(init.value.lines + [cs[n].value.line], init.value.fks + cs[n].value.fk))
  }

  /** The columns of a table's fields in order; the first field whose type fails aborts. */
  function ColumnsOf(res: Resolver, tables: seq<DbTable>, tname: string, fields: seq<Field>, profile: DbProfile,
                     mung: NameMung, typeText: TypeExpr -> string, fuel: nat): Result<ColumnsOut>
  {
    CollectColumns(FieldColumns(res, tables, tname, fields, profile, mung, typeText, fuel))
  }

  /** The positions of the columns that carry a foreign-key constraint. */
  function FkIndices(cs: seq<Result<Column>>): (r: seq<nat>)
    ensures forall j :: 0 <= j < |r| ==> r[j] < |cs| && cs[r[j]].Ok? && cs[r[j]].value.fk != []
    ensures forall j, l :: 0 <= j < l < |r| ==> r[j] < r[l]
  {
    if |cs| == 0 then []
    else
      var n := |cs| - 1;
      FkIndices(cs[..n]) + (if cs[n].Ok? && cs[n].value.fk != [] then [n] else [])
  }

  /**
   * Collecting succeeds exactly when every column does; then there is one
   * line per column, in order.
   */
  lemma {:induction false} CollectColumnsLines(cs: seq<Result<Column>>)
    ensures CollectColumns(cs).Ok? <==> forall i :: 0 <= i < |cs| ==> cs[i].Ok?
    ensures CollectColumns(cs).Ok? ==>
              var out := CollectColumns(cs).value;
              |out.lines| == |cs| && forall i :: 0 <= i < |cs| ==> out.lines[i] == cs[i].value.line
  {
    if |cs| > 0 {
      var n := |cs| - 1;
      var init := cs[..n];
      assert forall i :: 0 <= i < n ==> init[i] == cs[i];
      CollectColumnsLines(init);
      var ri := CollectColumns(init);
      if ri.Ok? && cs[n].Ok? {
        var out := CollectColumns(cs).value;
        assert out.lines == ri.value.lines + [cs[n].value.line];
        forall i | 0 <= i < |cs|
          ensures out.lines[i] == cs[i].value.line
        {
          if i < n {
            assert out.lines[i] == ri.value.lines[i];
          }
        }
      }
    }
  }

  /**
   * When collecting succeeds, the constraints are those of the columns that
   * have one, in order.
   */
  lemma {:induction false} CollectColumnsFks(cs: seq<Result<Column>>)
    requires forall i :: 0 <= i < |cs| ==> cs[i].Ok? ==> |cs[i].value.fk| <= 1
    requires CollectColumns(cs).Ok?
    ensures var out := CollectColumns(cs).value;
            var fi := FkIndices(cs);
            |out.fks| == |fi| && forall j :: 0 <= j < |fi| ==> cs[fi[j]].value.fk == [out.fks[j]]
  {
    if |cs| > 0 {
      var n := |cs| - 1;
      var init := cs[..n];
      assert forall i :: 0 <= i < n ==> init[i] == cs[i];
      var ri := CollectColumns(init);
      assert ri.Ok? && cs[n].Ok?;
      CollectColumnsFks(init);
      var out := CollectColumns(cs).value;
      var c := cs[n].value;
      assert out.fks == ri.value.fks + c.fk;
      var fi0 := FkIndices(init);
      var fi := FkIndices(cs);
      assert fi == fi0 + (if c.fk != [] then [n] else []);
      forall j | 0 <= j < |fi|
        ensures cs[fi[j]].value.fk == [out.fks[j]]
      {
        if j < |fi0| {
          assert fi[j] == fi0[j];
          assert out.fks[j] == ri.value.fks[j];
        } else {
          assert fi[j] == n;
          assert out.fks[j] == c.fk[0];
        }
      }
    }
  }

  /**
   * A table's columns exist when every field's column type does; then it
   * has one line per field, in field order.
   */
  lemma ColumnsOfLines(res: Resolver, tables: seq<DbTable>, tname: string, fields: seq<Field>,
                       profile: DbProfile, mung: NameMung, typeText: TypeExpr -> string, fuel: nat)
    ensures var cs := FieldColumns(res, tables, tname, fields, profile, mung, typeText, fuel);
            var r := ColumnsOf(res, tables, tname, fields, profile, mung, typeText, fuel);
            && (r.Ok? <==> forall i :: 0 <= i < |fields| ==> GetColumnType(res, tables, fields[i], profile, mung, fuel).Ok?)
            && (r.Ok? ==> |r.value.lines| == |fields| && forall i :: 0 <= i < |fields| ==> r.value.lines[i] == cs[i].value.line)
  {
    var cs := FieldColumns(res, tables, tname, fields, profile, mung, typeText, fuel);
    forall i | 0 <= i < |fields|
      ensures cs[i].Ok? <==> GetColumnType(res, tables, fields[i], profile, mung, fuel).Ok?
    {
      ColumnOfFk(res, tables, tname, fields[i], profile, mung, typeText, fuel);
    }
    CollectColumnsLines(cs);
  }

  /**
   * The foreign-key constraints of a table's columns: one for exactly each
   * field whose column type has an `fkey`, in field order.
   */
  lemma ColumnsOfFks(res: Resolver, tables: seq<DbTable>, tname: string, fields: seq<Field>,
                     profile: DbProfile, mung: NameMung, typeText: TypeExpr -> string, fuel: nat)
    requires ColumnsOf(res, tables, tname, fields, profile, mung, typeText, fuel).Ok?
    ensures forall i :: 0 <= i < |fields| ==> GetColumnType(res, tables, fields[i], profile, mung, fuel).Ok?
    ensures var cs := FieldColumns(res, tables, tname, fields, profile, mung, typeText, fuel);
            var r := ColumnsOf(res, tables, tname, fields, profile, mung, typeText, fuel);
            var fi := FkIndices(cs);
            && |r.value.fks| == |fi|
            && (forall j, l :: 0 <= j < l < |fi| ==> fi[j] < fi[l])
            && (forall j :: 0 <= j < |fi| ==>
                  GetColumnType(res, tables, fields[fi[j]], profile, mung, fuel).value.fkey.Some?)
            && (forall i :: 0 <= i < |fields| && GetColumnType(res, tables, fields[i], profile, mung, fuel).value.fkey.Some?
                  ==> exists j :: 0 <= j < |fi| && fi[j] == i)
            && forall j :: 0 <= j < |fi| ==>
                 r.value.fks[j] == FkConstraint(tname, ColumnName(fields[fi[j]], mung),
                                                GetColumnType(res, tables, fields[fi[j]], profile, mung, fuel).value.fkey.value)
  {
    var cs := FieldColumns(res, tables, tname, fields, profile, mung, typeText, fuel);
    forall i | 0 <= i < |fields| {
      ColumnOfFk(res, tables, tname, fields[i], profile, mung, typeText, fuel);
    }
    CollectColumnsLines(cs);
    CollectColumnsFks(cs);
    forall i | 0 <= i < |cs| && cs[i].Ok? && cs[i].value.fk != []
      ensures exists j :: 0 <= j < |FkIndices(cs)| && FkIndices(cs)[j] == i
    {
      FkIndicesComplete(cs, i);
    }
  }

  lemma {:induction false} FkIndicesComplete(cs: seq<Result<Column>>, i: nat)
    requires i < |cs| && cs[i].Ok? && cs[i].value.fk != []
    ensures exists j :: 0 <= j < |FkIndices(cs)| && FkIndices(cs)[j] == i
  {
    var n := |cs| - 1;
    if i < n {
      assert cs[..n][i] == cs[i];
      FkIndicesComplete(cs[..n], i);
      var j :| 0 <= j < |FkIndices(cs[..n])| && FkIndices(cs[..n])[j] == i;
      assert FkIndices(cs)[j] == i;
    } else {
      assert FkIndices(cs)[|FkIndices(cs)| - 1] == i;
    }
  }

  /** The body of the column-line loop: one field's line and, with a foreign key, its constraint. */
  method FieldColumn(res: Resolver, tables: seq<DbTable>, tname: string, f: Field, profile: DbProfile,
                     mung: NameMung, typeText: TypeExpr -> string, fuel: nat) returns (r: Result<Column>)
    ensures r == ColumnOf(res, tables, tname, f, profile, mung, typeText, fuel)
  {
    var columnName := ColumnName(f, mung);
    var columnType := GetColumnType(res, tables, f, profile, mung, fuel);
    if columnType.Err? {
      return Err(columnType.error);
    }
    var code := columnName + " " + columnType.value.sqltype + (if columnType.value.notNullable then " not null" else "");
    var fk: seq<string> := [];
    if columnType.value.fkey.Some? {
      fk := [FkConstraint(tname, columnName, columnType.value.fkey.value)];
    }
    return Ok(Column(Line(code, typeText(f.typeExpr)), fk));
  }

  /** The column-line loop of generateCreateSqlSchema for one table. */
  method ColumnLines(res: Resolver, tables: seq<DbTable>, tname: string, fields: seq<Field>, profile: DbProfile,
                     mung: NameMung, typeText: TypeExpr -> string, fuel: nat) returns (r: Result<ColumnsOut>)
    ensures r == ColumnsOf(res, tables, tname, fields, profile, mung, typeText, fuel)
  {
    ghost var cs := FieldColumns(res, tables, tname, fields, profile, mung, typeText, fuel);
    var out := ColumnsOut([], []);
    var i := 0;
    while i < |fields|
      invariant 0 <= i <= |fields|
      invariant CollectColumns(cs[..i]) == Ok(out)
    {
      var next := NextColumn(res, tables, tname, fields, profile, mung, typeText, fuel, i, out);
      if next.Err? {
        CollectColumnsStopsAtError(cs, i + 1);
        return next;
      }
      out := next.value;
      i := i + 1;
    }
    assert cs[..i] == cs;
    return Ok(out);
  }

  /** One pass of the column-line loop: the field's line is pushed, and its constraint when it has one. */
  method NextColumn(res: Resolver, tables: seq<DbTable>, tname: string, fields: seq<Field>, profile: DbProfile,
                    mung: NameMung, typeText: TypeExpr -> string, fuel: nat, i: nat, out: ColumnsOut)
    returns (r: Result<ColumnsOut>)
    requires i < |fields|
    requires CollectColumns(FieldColumns(res, tables, tname, fields, profile, mung, typeText, fuel)[..i]) == Ok(out)
    ensures r == CollectColumns(FieldColumns(res, tables, tname, fields, profile, mung, typeText, fuel)[..i + 1])
  {
    ghost var cs := FieldColumns(res, tables, tname, fields, profile, mung, typeText, fuel);
    CollectColumnsStep(cs, i, out);
    var c := FieldColumn(res, tables, tname, fields[i], profile, mung, typeText, fuel);
    assert c == cs[i];
    if c.Err? {
      return Err(c.error);
    }
    return Ok(ColumnsOut(out.lines + [c.value.line], out.fks + c.value.fk));
  }

  /** One more column: its line and constraints are appended, or its failure is the failure. */
  lemma CollectColumnsStep(cs: seq<Result<Column>>, i: nat, out: ColumnsOut)
    requires i < |cs|
    requires CollectColumns(cs[..i]) == Ok(out)
    ensures CollectColumns(cs[..i + 1])
            == if cs[i].Err? then Err(cs[i].error)
               else Ok(ColumnsOut(out.lines + [cs[i].value.line], out.fks + cs[i].value.fk))
  {
    assert cs[..i + 1][..i] == cs[..i];
  }

  lemma {:induction false} CollectColumnsStopsAtError(cs: seq<Result<Column>>, k: nat)
    requires k <= |cs|
    requires CollectColumns(cs[..k]).Err?
    ensures CollectColumns(cs) == CollectColumns(cs[..k])
    decreases |cs| - k
  {
    if k < |cs| {
      assert cs[..k + 1][..k] == cs[..k];
      CollectColumnsStopsAtError(cs, k + 1);
    } else {
      assert cs[..k] == cs;
    }
  }

  /** findColName as a specification: the column of the first field so named, else the name itself. */
  function ColNameFor(fields: seq<Field>, s: string, mung: NameMung): string {
    if |fields| == 0 then s
    else if fields[0].name == s then ColumnName(fields[0], mung)
    else ColNameFor(fields[1..], s, mung)
  }

  /** A name that is no field's name is used unchanged as a column name. */
  lemma {:induction false} ColNameForAbsent(fields: seq<Field>, s: string, mung: NameMung)
    requires forall i :: 0 <= i < |fields| ==> fields[i].name != s
    ensures ColNameFor(fields, s, mung) == s
  {
    if |fields| > 0 {
      assert forall i :: 0 <= i < |fields| - 1 ==> fields[1..][i] == fields[i + 1];
      ColNameForAbsent(fields[1..], s, mung);
    }
  }

  /** A field name maps to the column name of the first field with that name. */
  lemma {:induction false} ColNameForFirst(fields: seq<Field>, s: string, mung: NameMung, i: nat)
    requires i < |fields| && fields[i].name == s
    requires forall j :: 0 <= j < i ==> fields[j].name != s
    ensures ColNameFor(fields, s, mung) == ColumnName(fields[i], mung)
  {
    if i > 0 {
      assert forall j :: 0 <= j < i - 1 ==> fields[1..][j] == fields[j + 1];
      ColNameForFirst(fields[1..], s, mung, i - 1);
    }
  }

  /** findColName: the loop over the table's fields with an early return. */
  method FindColName(fields: seq<Field>, s: string, mung: NameMung) returns (r: string)
    ensures r == ColNameFor(fields, s, mung)
  {
    var i := 0;
    while i < |fields|
      invariant 0 <= i <= |fields|
      invariant ColNameFor(fields, s, mung) == ColNameFor(fields[i..], s, mung)
    {
      if fields[i].name == s {
        return ColumnName(fields[i], mung);
      }
      assert fields[i..][1..] == fields[i + 1..];
      i := i + 1;
    }
    return s;
  }

  function ColNames(fields: seq<Field>, names: seq<string>, mung: NameMung): (r: seq<string>)
    ensures |r| == |names| && forall i :: 0 <= i < |names| ==> r[i] == ColNameFor(fields, names[i], mung)
  {
    seq(|names|, i requires 0 <= i < |names| => ColNameFor(fields, names[i], mung))
  }

  /** The index loop: the i-th listed index becomes index number i + 1. */
  method IndexConstraints(tname: string, fields: seq<Field>, indexes: seq<seq<string>>, mung: NameMung)
    returns (r: seq<string>)
    ensures |r| == |indexes|
    ensures forall i :: 0 <= i < |indexes| ==> r[i] == IndexConstraint(tname, i + 1, ColNames(fields, indexes[i], mung))
  {
    r := [];
    var i := 0;
    while i < |indexes|
      invariant 0 <= i <= |indexes| && |r| == i
      invariant forall j :: 0 <= j < i ==> r[j] == IndexConstraint(tname, j + 1, ColNames(fields, indexes[j], mung))
    {
      r := r + [IndexConstraint(tname, i + 1, ColNames(fields, indexes[i], mung))];
      i := i + 1;
    }
  }

  /** The uniqueness loop: the i-th listed constraint becomes constraint number i + 1. */
  method UniqueConstraints(tname: string, fields: seq<Field>, uniques: seq<seq<string>>, mung: NameMung)
    returns (r: seq<string>)
    ensures |r| == |uniques|
    ensures forall i :: 0 <= i < |uniques| ==> r[i] == UniqueConstraint(tname, i + 1, ColNames(fields, uniques[i], mung))
  {
    r := [];
    var i := 0;
    while i < |uniques|
      invariant 0 <= i <= |uniques| && |r| == i
      invariant forall j :: 0 <= j < i ==> r[j] == UniqueConstraint(tname, j + 1, ColNames(fields, uniques[j], mung))
    {
      r := r + [UniqueConstraint(tname, i + 1, ColNames(fields, uniques[i], mung))];
      i := i + 1;
    }
  }

  /** The `primary key(...)` line, present only for a non-empty primary key. */
  function PrimaryKeyLines(fields: seq<Field>, pk: seq<string>, mung: NameMung): (r: seq<Line>)
    ensures |r| == (if |pk| > 0 then 1 else 0)
    ensures |pk| > 0 ==> r[0].comment == "" && Text.StartsWith(r[0].code, "primary key(")
  {
    if |pk| > 0 then [Line("primary key(" + Text.Join(ColNames(fields, pk, mung), ",") + ")", "")] else []
  }

  /** A body line as written: a comma unless it is the last line, then the padded comment if any. */
  function RenderLine(l: Line, last: bool): string {
    var code := l.code + (if last then "" else ",");
    if l.comment != "" then Text.PadEnd(code, 36) + " -- " + l.comment else code
  }

  function RenderedLines(lines: seq<Line>): (r: seq<string>)
    ensures |r| == |lines|
    ensures forall i :: 0 <= i < |lines| ==> r[i] == "  " + RenderLine(lines[i], i == |lines| - 1) + "\n"
  {
    seq(|lines|, i requires 0 <= i < |lines| => "  " + RenderLine(lines[i], i == |lines| - 1) + "\n")
  }

  /** Every line but the last has a comma right after its code, and the last has none. */
  lemma RenderLineComma(l: Line, last: bool)
    ensures Text.StartsWith(RenderLine(l, last), l.code + ",") <==> !last
  {
    var r := RenderLine(l, last);
    var code := l.code + (if last then "" else ",");
    if l.comment != "" {
      var p := Text.PadEnd(code, 36);
      assert r == p + " -- " + l.comment;
      assert r[..|code|] == code;
      if last {
        assert r[|l.code|] == ' ';
        assert (l.code + ",")[|l.code|] == ',';
      } else {
        assert r[..|l.code + ","|] == l.code + ",";
      }
    }
  }

  /** A commented line puts its comment after column 36, behind ` -- `. */
  lemma RenderLineComment(l: Line, last: bool)
    requires l.comment != ""
    ensures Text.EndsWith(RenderLine(l, last), " -- " + l.comment)
    ensures |RenderLine(l, last)| >= 36 + 4 + |l.comment|
  {
  }

  /** The create-table block of one table as the writer receives it. */
  function TableBlock(tname: string, lines: seq<Line>): (r: seq<string>)
    ensures |r| == |lines| + 3
  {
    TableOpen(tname) + RenderedLines(lines) + [TableClose()]
  }

  function TableOpen(tname: string): seq<string> {
    ["\n", "create table " + QuoteReservedName(tname) + "(\n"]
  }

  function TableClose(): string {
    ");\n"
  }

  /** Writes each string in turn. */
  method WriteAll(w: FileWriter, items: seq<string>)
    modifies w
    ensures w.content == old(w.content) + items
  {
    var k := 0;
    while k < |items|
      invariant 0 <= k <= |items|
      invariant w.content == old(w.content) + items[..k]
    {
      w.Write(items[k]);
      assert items[..k + 1] == items[..k] + [items[k]];
      k := k + 1;
    }
    assert items[..k] == items;
  }

  /** One create-table block: the opening lines, the column lines, the closing line. */
  method WriteTable(w: FileWriter, tname: string, lines: seq<Line>)
    modifies w
    ensures w.content == old(w.content) + TableBlock(tname, lines)
  {
    w.Write("\n");
    w.Write("create table " + QuoteReservedName(tname) + "(\n");
    assert w.content == old(w.content) + TableOpen(tname);
    WriteLines(w, lines);
    w.Write(TableClose());
    Seqs.AppendAssoc4(old(w.content), TableOpen(tname), RenderedLines(lines), [TableClose()]);
  }

  /** The line-writing loop of one create-table block. */
  method WriteLines(w: FileWriter, lines: seq<Line>)
    modifies w
    ensures w.content == old(w.content) + RenderedLines(lines)
  {
    ghost var rendered := RenderedLines(lines);
    var i := 0;
    while i < |lines|
      invariant 0 <= i <= |lines|
      invariant w.content == old(w.content) + rendered[..i]
    {
      var line := lines[i].code;
      if i < |lines| - 1 {
        line := line + ",";
      }
      if lines[i].comment != "" {
        line := Text.PadEnd(line, 36);
        line := line + " -- " + lines[i].comment;
      }
      assert line == RenderLine(lines[i], i == |lines| - 1);
      w.Write("  " + line + "\n");
      assert rendered[..i + 1] == rendered[..i] + [rendered[i]];
      Seqs.AppendAssoc(old(w.content), rendered[..i], [rendered[i]]);
      i := i + 1;
    }
    assert rendered[..i] == rendered;
  }

  // ----- Table annotation options -----

  /** The strings of a JSON list; entries that are not strings are dropped. */
  function Strings(items: seq<Json>): (r: seq<string>)
    ensures |r| <= |items|
    ensures (forall i :: 0 <= i < |items| ==> items[i].JString?) ==>
              |r| == |items| && forall i :: 0 <= i < |items| ==> r[i] == items[i].s
  {
    if |items| == 0 then []
    else (if items[0].JString? then [items[0].s] else []) + Strings(items[1..])
  }

  /** `(ann[key] || []) as string[]`. */
  function StringListOption(ann: Json, key: string): seq<string> {
    match AssumeField(Some(ann), key)
    case Some(JArray(items)) => Strings(items)
    case _ => []
  }

  /** `(ann[key] || []) as string[][]`. */
  function StringListsOption(ann: Json, key: string): seq<seq<string>> {
    match AssumeField(Some(ann), key)
    case Some(JArray(items)) =>
      seq(|items|, i requires 0 <= i < |items| => if items[i].JArray? then Strings(items[i].items) else [])
    case _ => []
  }

  /** Everything one table contributes: its block, its constraints and its extra SQL. */
  datatype TableOut = TableOut(block: seq<string>, constraints: seq<string>, extraSql: seq<string>)

  /** The body lines of a table: one per column, then the primary key when there is one. */
  function BodyLines(cols: ColumnsOut, t: DbTable, mung: NameMung): seq<Line> {
    cols.lines + PrimaryKeyLines(t.fields, t.primaryKey, mung)
  }

  /** The `DbTable` annotation fields read for indexes, uniqueness constraints and extra SQL. */
  function IndexesField(): string { "indexes" }
  function UniquesField(): string { "uniquenessConstraints" }
  function ExtraSqlField(): string { "extraSql" }

  function IndexesOf(t: DbTable, mung: NameMung): (r: seq<string>)
    ensures var indexes := StringListsOption(t.ann, IndexesField());
            |r| == |indexes|
            && forall i :: 0 <= i < |indexes| ==> r[i] == IndexConstraint(t.name, i + 1, ColNames(t.fields, indexes[i], mung))
  {
    var indexes := StringListsOption(t.ann, IndexesField());
    seq(|indexes|, i requires 0 <= i < |indexes| => IndexConstraint(t.name, i + 1, ColNames(t.fields, indexes[i], mung)))
  }

  function UniquesOf(t: DbTable, mung: NameMung): (r: seq<string>)
    ensures var uniques := StringListsOption(t.ann, UniquesField());
            |r| == |uniques|
            && forall i :: 0 <= i < |uniques| ==> r[i] == UniqueConstraint(t.name, i + 1, ColNames(t.fields, uniques[i], mung))
  {
    var uniques := StringListsOption(t.ann, UniquesField());
    seq(|uniques|, i requires 0 <= i < |uniques| => UniqueConstraint(t.name, i + 1, ColNames(t.fields, uniques[i], mung)))
  }

  /** The contribution of table t, as the per-table body of generateCreateSqlSchema builds it. */
  function TableOutOf(res: Resolver, tables: seq<DbTable>, t: DbTable, profile: DbProfile, mung: NameMung,
                      typeText: TypeExpr -> string, fuel: nat): Result<TableOut>
  {
    var cols := ColumnsOf(res, tables, t.name, t.fields, profile, mung, typeText, fuel);
    if cols.Err? then Err(cols.error)
    else Ok(TableOut(TableBlock(t.name, BodyLines(cols.value, t, mung)),
                     cols.value.fks + IndexesOf(t, mung) + UniquesOf(t, mung),
                     StringListOption(t.ann, ExtraSqlField())))
  }

  /** A table's block is the create-table line, one line per field, the primary-key line when it has a key, and the closing line. */
  lemma TableBlockShape(res: Resolver, tables: seq<DbTable>, t: DbTable, profile: DbProfile, mung: NameMung,
                        typeText: TypeExpr -> string, fuel: nat)
    requires TableOutOf(res, tables, t, profile, mung, typeText, fuel).Ok?
    ensures |TableOutOf(res, tables, t, profile, mung, typeText, fuel).value.block|
            == |t.fields| + (if |t.primaryKey| > 0 then 1 else 0) + 3
  {
    ColumnsOfLines(res, tables, t.name, t.fields, profile, mung, typeText, fuel);
  }

  /**
   * A table's constraints are its foreign keys, then its indexes numbered
   * from 1, then its uniqueness constraints numbered from 1.
   */
  lemma TableConstraintsShape(res: Resolver, tables: seq<DbTable>, t: DbTable, profile: DbProfile, mung: NameMung,
                              typeText: TypeExpr -> string, fuel: nat)
    requires TableOutOf(res, tables, t, profile, mung, typeText, fuel).Ok?
    ensures var out := TableOutOf(res, tables, t, profile, mung, typeText, fuel).value;
            var fks := ColumnsOf(res, tables, t.name, t.fields, profile, mung, typeText, fuel).value.fks;
            var indexes := StringListsOption(t.ann, IndexesField());
            var uniques := StringListsOption(t.ann, UniquesField());
            && |out.constraints| == |fks| + |indexes| + |uniques|
            && out.constraints[..|fks|] == fks
            && (forall i :: 0 <= i < |indexes| ==>
                  out.constraints[|fks| + i] == IndexConstraint(t.name, i + 1, ColNames(t.fields, indexes[i], mung)))
            && (forall i :: 0 <= i < |uniques| ==>
                  out.constraints[|fks| + |indexes| + i] == UniqueConstraint(t.name, i + 1, ColNames(t.fields, uniques[i], mung)))
  {
    var out := TableOutOf(res, tables, t, profile, mung, typeText, fuel).value;
    var fks := ColumnsOf(res, tables, t.name, t.fields, profile, mung, typeText, fuel).value.fks;
    var idx := IndexesOf(t, mung);
    var uniq := UniquesOf(t, mung);
    assert out.constraints == fks + idx + uniq;
    Seqs.Concat3Parts(fks, idx, uniq);
  }

  /**
   * The per-table body of generateCreateSqlSchema: it writes the table's
   * block and returns its contribution; a failing column writes nothing.
   */
  method GenerateTable(w: FileWriter, res: Resolver, tables: seq<DbTable>, t: DbTable, profile: DbProfile,
                       mung: NameMung, typeText: TypeExpr -> string, fuel: nat) returns (r: Result<TableOut>)
    modifies w
    ensures r == TableOutOf(res, tables, t, profile, mung, typeText, fuel)
    ensures r.Ok? ==> w.content == old(w.content) + r.value.block
    ensures r.Err? ==> w.content == old(w.content)
  {
    var indexes := StringListsOption(t.ann, IndexesField());
    var uniquenessConstraints := StringListsOption(t.ann, UniquesField());
    var extraSql := StringListOption(t.ann, ExtraSqlField());
    var cols := ColumnLines(res, tables, t.name, t.fields, profile, mung, typeText, fuel);
    if cols.Err? {
      return Err(cols.error);
    }
    var lines := cols.value.lines + PrimaryKeyLines(t.fields, t.primaryKey, mung);
    WriteTable(w, t.name, lines);
    var idx := IndexConstraints(t.name, t.fields, indexes, mung);
    var uniq := UniqueConstraints(t.name, t.fields, uniquenessConstraints, mung);
    assert idx == IndexesOf(t, mung);
    assert uniq == UniquesOf(t, mung);
    return Ok(TableOut(TableBlock(t.name, lines), cols.value.fks + idx + uniq, extraSql));
  }

  /** The contributions of a sequence of tables, concatenated in order; the first failure aborts. */
  function CollectTables(outs: seq<Result<TableOut>>): Result<TableOut> {
    if |outs| == 0 then Ok(TableOut([], [], []))
    else
      var n := |outs| - 1;
      var init := CollectTables(outs[..n]);
      if init.Err? then init
      else if outs[n].Err? then Err(outs[n].error)
      else Ok(TableOut(init.value.block + outs[n].value.block, init.value.constraints + outs[n].value.constraints,
                       init.value.extraSql + outs[n].value.extraSql))
  }

  lemma {:induction false} CollectTablesStopsAtError(outs: seq<Result<TableOut>>, k: nat)
    requires k <= |outs|
    requires CollectTables(outs[..k]).Err?
    ensures CollectTables(outs) == CollectTables(outs[..k])
    decreases |outs| - k
  {
    if k < |outs| {
      assert outs[..k + 1][..k] == outs[..k];
      CollectTablesStopsAtError(outs, k + 1);
    } else {
      assert outs[..k] == outs;
    }
  }

  /** Each table's contribution, in table order. */
  function TableOuts(res: Resolver, tables: seq<DbTable>, profile: DbProfile, mung: NameMung,
                     typeText: TypeExpr -> string, fuel: nat): (r: seq<Result<TableOut>>)
    ensures |r| == |tables|
    ensures forall i :: 0 <= i < |tables| ==> r[i] == TableOutOf(res, tables, tables[i], profile, mung, typeText, fuel)
  {
    seq(|tables|, i requires 0 <= i < |tables| => TableOutOf(res, tables, tables[i], profile, mung, typeText, fuel))
  }

  /** The header lines: the distinct module names of the tables, in first-seen order. */
  function Header(tables: seq<DbTable>): seq<string> {
    var moduleNames := Seqs.Dedup(seq(|tables|, i requires 0 <= i < |tables| => tables[i].scopedDecl.moduleName));
    ["-- Schema auto-generated from adl modules: " + Text.Join(moduleNames, ", ") + "\n",
     "--\n",
     "-- column comments show original ADL types\n"]
  }

  /** One `create extension` line per requested extension, after a blank line. */
  function ExtensionLines(extensions: seq<string>): (r: seq<string>)
    ensures |extensions| == 0 ==> r == []
    ensures |extensions| > 0 ==>
              (|r| == |extensions| + 1 && r[0] == "\n"
               && forall i :: 0 <= i < |extensions| ==> r[i + 1] == "create extension " + extensions[i] + ";\n")
  {
    if |extensions| == 0 then []
    else ["\n"] + seq(|extensions|, i requires 0 <= i < |extensions| => "create extension " + extensions[i] + ";\n")
  }

  /** Each string followed by a newline, after a blank line when there are any. */
  function Trailer(items: seq<string>): (r: seq<string>)
    ensures |items| == 0 ==> r == []
    ensures |items| > 0 ==>
              (|r| == |items| + 1 && r[0] == "\n"
               && forall i :: 0 <= i < |items| ==> r[i + 1] == items[i] + "\n")
  {
    if |items| == 0 then []
    else ["\n"] + seq(|items|, i requires 0 <= i < |items| => items[i] + "\n")
  }

  /** One more table: its contribution is appended, or its failure is the failure. */
  lemma CollectTablesStep(outs: seq<Result<TableOut>>, i: nat, acc: TableOut)
    requires i < |outs|
    requires CollectTables(outs[..i]) == Ok(acc)
    ensures CollectTables(outs[..i + 1])
            == if outs[i].Err? then Err(outs[i].error)
               else Ok(TableOut(acc.block + outs[i].value.block, acc.constraints + outs[i].value.constraints,
                                acc.extraSql + outs[i].value.extraSql))
  {
    assert outs[..i + 1][..i] == outs[..i];
  }

  /**
   * The table loop of generateCreateSqlSchema: each table's block is
   * written in order while the constraints and extra SQL are gathered.
   */
  method GenerateTables(w: FileWriter, res: Resolver, tables: seq<DbTable>, profile: DbProfile, mung: NameMung,
                        typeText: TypeExpr -> string, fuel: nat) returns (r: Result<(seq<string>, seq<string>)>)
    modifies w
    ensures var out := CollectTables(TableOuts(res, tables, profile, mung, typeText, fuel));
            && (r.Ok? <==> out.Ok?)
            && (r.Err? ==> r.error == out.error)
            && (r.Ok? ==> r.value == (out.value.constraints, out.value.extraSql)
                          && w.content == old(w.content) + out.value.block)
  {
    var constraints: seq<string> := [];
    var allExtraSql: seq<string> := [];
    ghost var outs := TableOuts(res, tables, profile, mung, typeText, fuel);
    ghost var blocks: seq<string> := [];
    var i := 0;
    while i < |tables|
      invariant 0 <= i <= |tables|
      invariant CollectTables(outs[..i]) == Ok(TableOut(blocks, constraints, allExtraSql))
      invariant w.content == old(w.content) + blocks
    {
      CollectTablesStep(outs, i, TableOut(blocks, constraints, allExtraSql));
      var out := GenerateTable(w, res, tables, tables[i], profile, mung, typeText, fuel);
      assert out == outs[i];
      if out.Err? {
        CollectTablesStopsAtError(outs, i + 1);
        return Err(out.error);
      }
      Seqs.AppendAssoc(old(w.content), blocks, out.value.block);
      blocks := blocks + out.value.block;
      constraints := constraints + out.value.constraints;
      allExtraSql := allExtraSql + out.value.extraSql;
      i := i + 1;
    }
    assert outs[..i] == outs;
    return Ok((constraints, allExtraSql));
  }

  /**
   * generateCreateSqlSchema: the header and extensions, each table's block
   * in order, then every table's constraints, then every table's extra SQL.
   * A column whose type cannot be mapped stops the generation.
   */
  method GenerateCreateSqlSchema(w: FileWriter, res: Resolver, tables: seq<DbTable>, extensions: seq<string>,
                                 profileName: Option<ProfileName>, mung: NameMung,
                                 typeText: TypeExpr -> string, fuel: nat) returns (r: Result<()>)
    modifies w
    ensures var out := CollectTables(TableOuts(res, tables, GetDbProfile(profileName), mung, typeText, fuel));
            && (r.Ok? <==> out.Ok?)
            && (r.Ok? ==> w.content == old(w.content) + Header(tables) + ExtensionLines(extensions) + out.value.block
                                       + Trailer(out.value.constraints) + Trailer(out.value.extraSql))
  {
    WriteAll(w, Header(tables));
    WriteAll(w, ExtensionLines(extensions));
    var profile := GetDbProfile(profileName);
    var out := GenerateTables(w, res, tables, profile, mung, typeText, fuel);
    if out.Err? {
      return Err(out.error);
    }
    WriteAll(w, Trailer(out.value.0));
    WriteAll(w, Trailer(out.value.1));
    return Ok(());
  }
}
