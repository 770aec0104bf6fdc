/**
 * The Prisma schema generator: a header, the datasource and generator
 * blocks of the one module that carries a `PrismaBlocks` annotation, then
 * one `model` block per table, its columns typed by the Prisma profile and
 * its back-relations taken from a parent-to-children map built first.
 *
 * Column names and table names are used unmunged (the identity name-mung).
 */
module PrismaSchema {
  import opened Adl
  import opened DbUtils
  import Text
  import Seqs
  import SqlSchema
  import P = PrismaModel

  // ----- URLs -----

  /** pb_url: an environment URL as `env("v")`, a literal URL as `"v"`. */
  function PbUrl(url: P.Url): (r: string)
    ensures url.kind == P.Env ==> Text.StartsWith(r, "env(\"") && Text.EndsWith(r, "\")")
    ensures url.kind == P.Literal ==> |r| == |url.value| + 2 && r[0] == '"' && r[|r| - 1] == '"'
  {
    match url.kind
    case Env => "env(\"" + url.value + "\")"
    case Literal => "\"" + url.value + "\""
  }

  /** Reads a rendered URL back. */
  function ParseUrl(s: string): Option<P.Url> {
    if |s| >= 7 && s[..5] == "env(\"" && s[|s| - 2..] == "\")" then Some(P.Url(P.Env, s[5..|s| - 2]))
    else if |s| >= 2 && s[0] == '"' && s[|s| - 1] == '"' then Some(P.Url(P.Literal, s[1..|s| - 1]))
    else None
  }

  /** The rendering loses nothing: the kind and the value can be read back. */
  lemma PbUrlRoundTrip(url: P.Url)
    ensures ParseUrl(PbUrl(url)) == Some(url)
  {
    var s := PbUrl(url);
    match url.kind
    case Env =>
      assert s[..5] == "env(\"";
      assert s[|s| - 2..] == "\")";
      assert s[5..|s| - 2] == url.value;
    case Literal =>
      if |s| >= 7 {
        assert s[..5][0] == '"';
      }
      assert s[1..|s| - 1] == url.value;
  }

  lemma PbUrlInjective(a: P.Url, b: P.Url)
    requires PbUrl(a) == PbUrl(b)
    ensures a == b
  {
    PbUrlRoundTrip(a);
    PbUrlRoundTrip(b);
  }

  // ----- The module-level PrismaBlocks annotation -----

  /** A loaded ADL module: its name and its decoded `PrismaBlocks` annotation, if any. */
  datatype AdlModule = AdlModule(name: string, prismaBlock: Option<P.PrismaBlocks>)

  /** The modules that carry the annotation, in module order. */
  function BlockModules(modules: seq<AdlModule>): (r: seq<AdlModule>)
    ensures |r| <= |modules|
    ensures forall i :: 0 <= i < |r| ==> r[i].prismaBlock.Some? && r[i] in modules
    ensures forall i :: 0 <= i < |modules| && modules[i].prismaBlock.Some? ==> modules[i] in r
  {
    if |modules| == 0 then []
    else
      var n := |modules| - 1;
      BlockModules(modules[..n]) + (if modules[n].prismaBlock.Some? then [modules[n]] else [])
  }

  function HasBlock(): AdlModule -> bool {
    (m: AdlModule) => m.prismaBlock.Some?
  }

  lemma {:induction false} BlockModulesIsFilter(modules: seq<AdlModule>)
    ensures BlockModules(modules) == Seqs.Filter(modules, HasBlock())
  {
    if |modules| > 0 {
      BlockModulesIsFilter(modules[..|modules| - 1]);
    }
  }

  /**
   * The annotated modules keep the module order: each sits at a position of
   * the input, and the positions increase.
   */
  lemma BlockModulesOrder(modules: seq<AdlModule>) returns (pos: seq<nat>)
    ensures var r := BlockModules(modules);
            && |pos| == |r|
            && (forall j :: 0 <= j < |pos| ==> pos[j] < |modules| && modules[pos[j]] == r[j])
            && (forall j, l :: 0 <= j < l < |pos| ==> pos[j] < pos[l])
  {
    BlockModulesIsFilter(modules);
    pos := Seqs.FilterPositions(modules, HasBlock());
  }

  /** No module carries the annotation exactly when the list of block modules is empty. */
  lemma {:induction false} BlockModulesEmpty(modules: seq<AdlModule>)
    ensures BlockModules(modules) == [] <==> forall i :: 0 <= i < |modules| ==> modules[i].prismaBlock.None?
  {
    if |modules| > 0 {
      var n := |modules| - 1;
      BlockModulesEmpty(modules[..n]);
      assert forall i :: 0 <= i < n ==> modules[..n][i] == modules[i];
    }
  }

  function ModuleNames(ms: seq<AdlModule>): (r: seq<string>)
    ensures |r| == |ms| && forall i :: 0 <= i < |ms| ==> r[i] == ms[i].name
  {
    seq(|ms|, i requires 0 <= i < |ms| => ms[i].name)
  }

  /**
   * The single-block check: no annotated module is an error, more than one
   * is an error naming every annotated module; otherwise that module.
   */
  function SelectPrismaBlock(modules: seq<AdlModule>): (r: Result<AdlModule>)
    ensures var bs := BlockModules(modules);
            && (r == Err(NoPrismaBlock) <==> |bs| == 0)
            && (r == Err(MultiplePrismaBlocks(ModuleNames(bs))) <==> |bs| > 1)
            && (r.Ok? <==> |bs| == 1)
            && (r.Ok? ==> r.value == bs[0] && r.value.prismaBlock.Some? && r.value in modules)
  {
    var bs := BlockModules(modules);
    if |bs| == 0 then Err(NoPrismaBlock)
    else if |bs| > 1 then Err(MultiplePrismaBlocks(ModuleNames(bs)))
    else Ok(bs[0])
  }

  // ----- Datasource and generator blocks -----

  /** The datasource block name: the given one when it is non-null and non-empty, else "db". */
  function BlockName(pb: P.PrismaBlocks): (r: string)
    ensures r != ""
    ensures pb.datasourceBlockName.Some? && pb.datasourceBlockName.value != "" ==> r == pb.datasourceBlockName.value
    ensures pb.datasourceBlockName.None? || pb.datasourceBlockName.value == "" ==> r == "db"
  {
    match pb.datasourceBlockName
    case Some(s) => if s != "" then s else "db"
    case None => "db"
  }

  /** if_not_null / the string case of conditional: a `key = "v"` line for a truthy string. */
  function IfNotNull(key: string, v: Option<string>): (r: seq<string>)
    ensures |r| == (if v.Some? && v.value != "" then 1 else 0)
    ensures |r| == 1 ==> r[0] == "  " + key + " = \"" + v.value + "\"\n"
  {
    if v.Some? && v.value != "" then ["  " + key + " = \"" + v.value + "\"\n"] else []
  }

  function Quoted(items: seq<string>): (r: seq<string>)
    ensures |r| == |items| && forall i :: 0 <= i < |items| ==> r[i] == "\"" + items[i] + "\""
  {
    seq(|items|, i requires 0 <= i < |items| => "\"" + items[i] + "\"")
  }

  /** if_not_empty / the list case of conditional: a `key = ["a", "b"]` line for a non-empty list. */
  function IfNotEmpty(key: string, items: seq<string>): (r: seq<string>)
    ensures |r| == (if |items| > 0 then 1 else 0)
    ensures |r| == 1 ==> r[0] == "  " + key + " = [" + Text.Join(Quoted(items), ", ") + "]\n"
  {
    if |items| > 0 then ["  " + key + " = [" + Text.Join(Quoted(items), ", ") + "]\n"] else []
  }

  function MapOption<T, U>(o: Option<T>, f: T -> U): Option<U> {
    match o
    case Some(v) => Some(f(v))
    case None => None
  }

  /** The datasource block: name, provider, url, the set optional members, then a blank line. */
  function DatasourceLines(pb: P.PrismaBlocks): seq<string> {
    var ds := pb.datasource;
    ["datasource " + BlockName(pb) + " {\n",
     "  provider = \"" + P.ProviderName(ds.provider) + "\"\n",
     "  url = " + PbUrl(ds.url) + "\n"]
    + IfNotNull("shadowDatabaseUrl", ds.shadowDatabaseUrl)
    + IfNotNull("directUrl", ds.directUrl)
    + IfNotNull("relationMode", MapOption(ds.relationMode, P.RelationModeName))
    + IfNotEmpty("extensions", ds.extensions)
    + ["}\n", "\n"]
  }

  /** One generator block: name, provider, then the set optional members in a fixed order. */
  function GeneratorLines(name: string, gen: P.Generator): seq<string> {
    ["generator " + name + " {\n",
     "  provider = \"" + gen.provider + "\"\n"]
    + IfNotNull("output", gen.output)
    + IfNotEmpty("previewFeatures", gen.previewFeatures)
    + IfNotNull("engineType", MapOption(gen.engineType, P.EngineTypeName))
    + IfNotEmpty("binaryTargets", gen.binaryTargets)
    + ["}\n", "\n"]
  }

  function GeneratorsLines(gens: seq<(string, P.Generator)>): seq<string> {
    if |gens| == 0 then []
    else
      var n := |gens| - 1;
      GeneratorsLines(gens[..n]) + GeneratorLines(gens[n].0, gens[n].1)
  }

  /** Everything written for the selected module's blocks. */
  function BlockLines(m: AdlModule): seq<string>
    requires m.prismaBlock.Some?
  {
    ["//\n", "// Blocks from " + m.name + "\n", "\n"]
    + DatasourceLines(m.prismaBlock.value) + GeneratorsLines(m.prismaBlock.value.generators)
  }

  /**
   * A datasource block opens with its name, provider and url, gets one line
   * per optional member that is set, and closes with "}" and a blank line.
   */
  lemma DatasourceLinesShape(pb: P.PrismaBlocks)
    ensures var ds := pb.datasource;
            var lines := DatasourceLines(pb);
            && |lines| == 5 + |IfNotNull("shadowDatabaseUrl", ds.shadowDatabaseUrl)| + |IfNotNull("directUrl", ds.directUrl)|
                            + (if ds.relationMode.Some? then 1 else 0) + (if |ds.extensions| > 0 then 1 else 0)
            && lines[0] == "datasource " + BlockName(pb) + " {\n"
            && lines[2] == "  url = " + PbUrl(ds.url) + "\n"
            && lines[|lines| - 2] == "}\n"
  {
    var ds := pb.datasource;
    if ds.relationMode.Some? {
      assert P.RelationModeName(ds.relationMode.value) != "";
    }
  }

  // ----- The Prisma profile -----

  const Prisma2Profile := DbProfile("String", "String", map[
    "String" := "String", "Bool" := "Boolean", "Json" := "Json",
    "Int8" := "Int", "Int16" := "Int", "Int32" := "Int", "Int64" := "BigInt",
    "Word8" := "Int", "Word16" := "Int", "Word32" := "Int", "Word64" := "BigInt",
    "Float" := "Float", "Double" := "Decimal"], "Json")

  /** The 64-bit widths map to BigInt, Double to Decimal, and an unlisted kind falls back to Json. */
  lemma Prisma2ProfileTypes(ptype: string)
    ensures ptype == "Int64" || ptype == "Word64" ==> PrimColumnType(Prisma2Profile, ptype) == "BigInt"
    ensures ptype == "Double" ==> PrimColumnType(Prisma2Profile, ptype) == "Decimal"
    ensures ptype in SqlSchema.IntegerKinds && ptype != "Int64" && ptype != "Word64" ==>
              PrimColumnType(Prisma2Profile, ptype) == "Int"
    ensures ptype !in Prisma2Profile.primTypes ==> PrimColumnType(Prisma2Profile, ptype) == "Json"
  {
  }

  /** Names are used as they are. */
  function Identity(s: string): string {
    s
  }

  // ----- parent2child -----

  type ChildMap = map<string, seq<string>>

  /** The children recorded for a table name; none when it has no entry. */
  function Lookup(m: ChildMap, parent: string): seq<string> {
    if parent in m then m[parent] else []
  }

  /**
   * parent2child is an object literal: a name with no entry of its own that
   * names an inherited member still reads as present, and that member has
   * no `push` or `forEach`.
   */
  predicate Inherited(m: ChildMap, key: string) {
    key !in m && key in ObjectPrototypeKeys
  }

  /**
   * The kid lookup of one model: the recorded children, none for a name
   * without an entry, and a failure for an inherited member.
   */
  function Kids(m: ChildMap, name: string): (r: Result<seq<string>>)
    ensures r.Err? <==> Inherited(m, name)
    ensures r.Ok? ==> r.value == Lookup(m, name)
  {
    if name in m then Ok(m[name])
    else if name in ObjectPrototypeKeys then Err(NotAnArray(name))
    else Ok([])
  }

  /** Appends one child to a parent's list, creating the list if needed. */
  function AddChild(m: ChildMap, parent: string, child: string): (r: ChildMap)
    ensures Lookup(r, parent) == Lookup(m, parent) + [child]
    ensures forall p :: p != parent ==> Lookup(r, p) == Lookup(m, p)
  {
    m[parent := Lookup(m, parent) + [child]]
  }

  /** The two branches of the source's update: push onto an existing list, or start one. */
  lemma AddChildCases(m: ChildMap, parent: string, child: string)
    ensures parent in m ==> AddChild(m, parent, child) == m[parent := m[parent] + [child]]
    ensures parent !in m ==> AddChild(m, parent, child) == m[parent := [child]]
  {
    if parent !in m {
      assert Lookup(m, parent) + [child] == [child];
    }
  }

  function ColumnTypeOf(res: Resolver, tables: seq<DbTable>, f: Field, fuel: nat): Result<ColumnType> {
    GetColumnType(res, tables, f, Prisma2Profile, Identity, fuel)
  }

  /** The column type of each field, in field order. */
  function ColumnTypes(res: Resolver, tables: seq<DbTable>, fs: seq<Field>, fuel: nat): (r: seq<Result<ColumnType>>)
    ensures |r| == |fs| && forall i :: 0 <= i < |fs| ==> r[i] == ColumnTypeOf(res, tables, fs[i], fuel)
  {
    seq(|fs|, i requires 0 <= i < |fs| => ColumnTypeOf(res, tables, fs[i], fuel))
  }

  /**
   * The inner loop of parent2child over one table's column types, starting
   * from map m: each foreign key adds `child` under the referenced table.
   */
  function AddChildren(cts: seq<Result<ColumnType>>, child: string, m: ChildMap): Result<ChildMap> {
    if |cts| == 0 then Ok(m)
    else
      var n := |cts| - 1;
      var m1 :- AddChildren(cts[..n], child, m);
      var ct :- cts[n];
      if ct.fkey.None? then Ok(m1)
      else if Inherited(m1, ct.fkey.value.table) then Err(NotAnArray(ct.fkey.value.table))
      else Ok(AddChild(m1, ct.fkey.value.table, child))
  }

  /** parent2child over a sequence of tables, in table order. */
  function Parent2Child(res: Resolver, tables: seq<DbTable>, ts: seq<DbTable>, fuel: nat): Result<ChildMap> {
    if |ts| == 0 then Ok(map[])
    else
      var n := |ts| - 1;
      var m :- Parent2Child(res, tables, ts[..n], fuel);
      AddChildren(ColumnTypes(res, tables, ts[n].fields, fuel), SqlSchema.QuoteReservedName(ts[n].name), m)
  }

  /** The children `parent` gets from one table's column types, by definition: one per field keyed to it. */
  function ChildrenIn(cts: seq<Result<ColumnType>>, child: string, parent: string): seq<string> {
    if |cts| == 0 then []
    else
      var n := |cts| - 1;
      ChildrenIn(cts[..n], child, parent)
      + (if cts[n].Ok? && cts[n].value.fkey.Some? && cts[n].value.fkey.value.table == parent then [child] else [])
  }

  /** The children of `parent` among tables ts: each table's quoted name once per field that references `parent`. */
  function Children(res: Resolver, tables: seq<DbTable>, ts: seq<DbTable>, parent: string, fuel: nat): seq<string> {
    if |ts| == 0 then []
    else
      var n := |ts| - 1;
      Children(res, tables, ts[..n], parent, fuel)
      + ChildrenIn(ColumnTypes(res, tables, ts[n].fields, fuel), SqlSchema.QuoteReservedName(ts[n].name), parent)
  }

  lemma {:induction false} AddChildrenSpec(cts: seq<Result<ColumnType>>, child: string, m: ChildMap, parent: string)
    requires AddChildren(cts, child, m).Ok?
    ensures Lookup(AddChildren(cts, child, m).value, parent) == Lookup(m, parent) + ChildrenIn(cts, child, parent)
  {
    if |cts| > 0 {
      var n := |cts| - 1;
      AddChildrenSpec(cts[..n], child, m, parent);
    }
  }

  /**
   * parent2child maps every table name to the quoted names of the tables
   * whose fields reference it, one entry per referencing field, in
   * table-then-field order and with repeats kept.
   */
  lemma {:induction false} Parent2ChildSpec(res: Resolver, tables: seq<DbTable>, ts: seq<DbTable>, fuel: nat,
                                            parent: string)
    requires Parent2Child(res, tables, ts, fuel).Ok?
    ensures Lookup(Parent2Child(res, tables, ts, fuel).value, parent) == Children(res, tables, ts, parent, fuel)
  {
    if |ts| > 0 {
      var n := |ts| - 1;
      Parent2ChildSpec(res, tables, ts[..n], fuel, parent);
      AddChildrenSpec(ColumnTypes(res, tables, ts[n].fields, fuel), SqlSchema.QuoteReservedName(ts[n].name),
                      Parent2Child(res, tables, ts[..n], fuel).value, parent);
    }
  }

  /** Only own names become entries: a foreign key to an inherited name fails before it is added. */
  lemma {:induction false} AddChildrenKeysOwn(cts: seq<Result<ColumnType>>, child: string, m: ChildMap)
    requires forall k :: k in m ==> k !in ObjectPrototypeKeys
    requires AddChildren(cts, child, m).Ok?
    ensures forall k :: k in AddChildren(cts, child, m).value ==> k !in ObjectPrototypeKeys
  {
    if |cts| > 0 {
      AddChildrenKeysOwn(cts[..|cts| - 1], child, m);
    }
  }

  /** No entry of parent2child is named like an inherited member. */
  lemma {:induction false} Parent2ChildKeysOwn(res: Resolver, tables: seq<DbTable>, ts: seq<DbTable>, fuel: nat)
    requires Parent2Child(res, tables, ts, fuel).Ok?
    ensures forall k :: k in Parent2Child(res, tables, ts, fuel).value ==> k !in ObjectPrototypeKeys
  {
    if |ts| > 0 {
      var n := |ts| - 1;
      Parent2ChildKeysOwn(res, tables, ts[..n], fuel);
      AddChildrenKeysOwn(ColumnTypes(res, tables, ts[n].fields, fuel), SqlSchema.QuoteReservedName(ts[n].name),
                         Parent2Child(res, tables, ts[..n], fuel).value);
    }
  }

  /**
   * Over the parent2child the generator builds, the kid lookup of a table
   * fails exactly for a name inherited from Object.prototype; otherwise it
   * gives the table's children as Parent2ChildSpec describes them.
   */
  lemma KidsOfParent2Child(res: Resolver, tables: seq<DbTable>, fuel: nat, name: string)
    requires Parent2Child(res, tables, tables, fuel).Ok?
    ensures var kids := Kids(Parent2Child(res, tables, tables, fuel).value, name);
            && (kids.Err? <==> name in ObjectPrototypeKeys)
            && (kids.Ok? ==> kids.value == Children(res, tables, tables, name, fuel))
  {
    Parent2ChildKeysOwn(res, tables, tables, fuel);
    Parent2ChildSpec(res, tables, tables, fuel, name);
  }

  lemma AddChildrenStep(cts: seq<Result<ColumnType>>, child: string, m0: ChildMap, j: nat, m: ChildMap)
    requires j < |cts| && AddChildren(cts[..j], child, m0) == Ok(m)
    ensures cts[j].Err? ==> AddChildren(cts[..j + 1], child, m0) == Err(cts[j].error)
    ensures cts[j].Ok? && cts[j].value.fkey.Some? && Inherited(m, cts[j].value.fkey.value.table) ==>
              AddChildren(cts[..j + 1], child, m0) == Err(NotAnArray(cts[j].value.fkey.value.table))
    ensures cts[j].Ok? && cts[j].value.fkey.Some? && !Inherited(m, cts[j].value.fkey.value.table) ==>
              AddChildren(cts[..j + 1], child, m0) == Ok(AddChild(m, cts[j].value.fkey.value.table, child))
    ensures cts[j].Ok? && cts[j].value.fkey.None? ==> AddChildren(cts[..j + 1], child, m0) == Ok(m)
  {
    assert cts[..j + 1][..j] == cts[..j];
  }

  lemma {:induction false} AddChildrenStopsAtError(cts: seq<Result<ColumnType>>, child: string, m: ChildMap, k: nat)
    requires k <= |cts| && AddChildren(cts[..k], child, m).Err?
    ensures AddChildren(cts, child, m) == AddChildren(cts[..k], child, m)
    decreases |cts| - k
  {
    if k < |cts| {
      assert cts[..k + 1][..k] == cts[..k];
      AddChildrenStopsAtError(cts, child, m, k + 1);
    } else {
      assert cts[..k] == cts;
    }
  }

  lemma {:induction false} Parent2ChildStopsAtError(res: Resolver, tables: seq<DbTable>, ts: seq<DbTable>,
                                                    fuel: nat, k: nat)
    requires k <= |ts| && Parent2Child(res, tables, ts[..k], fuel).Err?
    ensures Parent2Child(res, tables, ts, fuel) == Parent2Child(res, tables, ts[..k], fuel)
    decreases |ts| - k
  {
    if k < |ts| {
      assert ts[..k + 1][..k] == ts[..k];
      Parent2ChildStopsAtError(res, tables, ts, fuel, k + 1);
    } else {
      assert ts[..k] == ts;
    }
  }

  /** One pass of the fields loop: the field's foreign key, if any, records the child under its table. */
  method AddFieldChild(res: Resolver, tables: seq<DbTable>, f: Field, child: string, m: ChildMap, fuel: nat)
    returns (r: Result<ChildMap>)
    ensures var ct := ColumnTypeOf(res, tables, f, fuel);
            r == if ct.Err? then Err(ct.error)
                 else if ct.value.fkey.None? then Ok(m)
                 else if Inherited(m, ct.value.fkey.value.table) then Err(NotAnArray(ct.value.fkey.value.table))
                 else Ok(AddChild(m, ct.value.fkey.value.table, child))
  {
    var columnType := ColumnTypeOf(res, tables, f, fuel);
    if columnType.Err? {
      return Err(columnType.error);
    }
    if columnType.value.fkey.None? {
      return Ok(m);
    }
    var parent := columnType.value.fkey.value.table;
    AddChildCases(m, parent, child);
    if parent in m {
      return Ok(m[parent := m[parent] + [child]]);
    } else if parent in ObjectPrototypeKeys {
      return Err(NotAnArray(parent));
    } else {
      return Ok(m[parent := [child]]);
    }
  }

  /** The fields loop of parent2child for one table. */
  method AddTableChildren(res: Resolver, tables: seq<DbTable>, t: DbTable, m0: ChildMap, fuel: nat)
    returns (r: Result<ChildMap>)
    ensures r == AddChildren(ColumnTypes(res, tables, t.fields, fuel), SqlSchema.QuoteReservedName(t.name), m0)
  {
    ghost var cts := ColumnTypes(res, tables, t.fields, fuel);
    var child := SqlSchema.QuoteReservedName(t.name);
    var m := m0;
    var j := 0;
    while j < |t.fields|
      invariant 0 <= j <= |t.fields|
      invariant AddChildren(cts[..j], child, m0) == Ok(m)
    {
      AddChildrenStep(cts, child, m0, j, m);
      var next := AddFieldChild(res, tables, t.fields[j], child, m, fuel);
      assert cts[j] == ColumnTypeOf(res, tables, t.fields[j], fuel);
      if next.Err? {
        AddChildrenStopsAtError(cts, child, m0, j + 1);
        return next;
      }
      m := next.value;
      j := j + 1;
    }
    assert cts[..j] == cts;
    return Ok(m);
  }

  /** One more table: its field loop continues from the map of the tables before it. */
  lemma Parent2ChildStep(res: Resolver, tables: seq<DbTable>, ts: seq<DbTable>, fuel: nat, i: nat, m: ChildMap)
    requires i < |ts| && Parent2Child(res, tables, ts[..i], fuel) == Ok(m)
    ensures Parent2Child(res, tables, ts[..i + 1], fuel)
            == AddChildren(ColumnTypes(res, tables, ts[i].fields, fuel), SqlSchema.QuoteReservedName(ts[i].name), m)
  {
    assert ts[..i + 1][..i] == ts[..i];
  }

  /** The nested loops that fill parent2child. */
  method BuildParent2Child(res: Resolver, tables: seq<DbTable>, fuel: nat) returns (r: Result<ChildMap>)
    ensures r == Parent2Child(res, tables, tables, fuel)
  {
    var m: ChildMap := map[];
    var i := 0;
    while i < |tables|
      invariant 0 <= i <= |tables|
      invariant Parent2Child(res, tables, tables[..i], fuel) == Ok(m)
    {
      Parent2ChildStep(res, tables, tables, fuel, i, m);
      var next := AddTableChildren(res, tables, tables[i], m, fuel);
      if next.Err? {
        Parent2ChildStopsAtError(res, tables, tables, fuel, i + 1);
        return next;
      }
      m := next.value;
      i := i + 1;
    }
    assert tables[..i] == tables;
    return Ok(m);
  }

  // ----- Model blocks -----

  const FieldCommentKey := ScopedName("common.prisma", "FieldComment")

  /** The ` /// comment` suffix of a field with a `FieldComment` annotation. */
  function CommentSuffix(f: Field): string {
    match GetAnnotation(f.annotations, FieldCommentKey)
    case Some(fc) => " /// " + TemplateText(fc)
    case None => ""
  }

  /** The relation line that follows a foreign-key column. */
  function RelationLine(col: string, fk: ForeignKey): string {
    var parent := SqlSchema.QuoteReservedName(fk.table);
    col + "_" + parent + " " + parent + " @relation(fields: [" + col + "], references: [" + fk.column + "])"
  }

  /** The lines of one field: its column, then its relation when it has a foreign key. */
  function FieldLines(f: Field, ct: ColumnType): seq<string> {
    var col := ColumnName(f, Identity);
    [col + " " + ct.sqltype + (if ct.notNullable then "" else "?") + CommentSuffix(f)]
    + (if ct.fkey.Some? then [RelationLine(col, ct.fkey.value)] else [])
  }

  function FieldLinesOf(res: Resolver, tables: seq<DbTable>, f: Field, fuel: nat): Result<seq<string>> {
    var ct :- ColumnTypeOf(res, tables, f, fuel);
    Ok(FieldLines(f, ct))
  }

  /**
   * A field's column line carries "?" exactly when its type is a nullable
   * wrapper, and a second, `@relation` line follows exactly when its column
   * has a foreign key.
   */
  lemma FieldLinesShape(res: Resolver, tables: seq<DbTable>, f: Field, fuel: nat)
    requires ColumnTypeOf(res, tables, f, fuel).Ok?
    ensures var ct := ColumnTypeOf(res, tables, f, fuel).value;
            var lines := FieldLinesOf(res, tables, f, fuel);
            var col := ColumnName(f, Identity);
            && lines.Ok?
            && lines.value[0] == col + " " + ct.sqltype + (if IsNullableType(f.typeExpr) then "?" else "") + CommentSuffix(f)
            && (|lines.value| == 2 <==> ct.fkey.Some?)
            && |lines.value| <= 2
            && (ct.fkey.Some? ==> lines.value[1] == RelationLine(col, ct.fkey.value))
  {
  }

  function FieldLinesAll(res: Resolver, tables: seq<DbTable>, fs: seq<Field>, fuel: nat): (r: seq<Result<seq<string>>>)
    ensures |r| == |fs| && forall i :: 0 <= i < |fs| ==> r[i] == FieldLinesOf(res, tables, fs[i], fuel)
  {
    seq(|fs|, i requires 0 <= i < |fs| => FieldLinesOf(res, tables, fs[i], fuel))
  }

  /** `@@id([...])` for a non-empty primary key. */
  function IdLines(t: DbTable): (r: seq<string>)
    ensures |r| == (if |t.primaryKey| > 0 then 1 else 0)
  {
    if |t.primaryKey| > 0 then [IdLine(t)] else []
  }

  function IdLine(t: DbTable): string {
    "@@id([" + Text.Join(SqlSchema.ColNames(t.fields, t.primaryKey, Identity), ",") + "])"
  }

  /** An `@@index([...])` or `@@unique([...])` line: the group's names mapped to column names. */
  function GroupLine(attr: string, t: DbTable, group: seq<string>): string {
    attr + "([" + Text.Join(SqlSchema.ColNames(t.fields, group, Identity), ", ") + "])"
  }

  /** One group line per listed column group, in order. */
  function GroupLines(attr: string, t: DbTable, groups: seq<seq<string>>): (r: seq<string>)
    ensures |r| == |groups|
    ensures forall i :: 0 <= i < |groups| ==> r[i] == GroupLine(attr, t, groups[i])
  {
    if |groups| == 0 then []
    else GroupLines(attr, t, groups[..|groups| - 1]) + [GroupLine(attr, t, groups[|groups| - 1])]
  }

  /** The back-relation line for a child table: the field and its list type share the child's name. */
  function KidLine(kid: string): string {
    kid + " " + kid + "[]"
  }

  /** One back-relation line per child. */
  function KidLines(kids: seq<string>): (r: seq<string>)
    ensures |r| == |kids| && forall i :: 0 <= i < |kids| ==> r[i] == KidLine(kids[i])
  {
    if |kids| == 0 then []
    else KidLines(kids[..|kids| - 1]) + [KidLine(kids[|kids| - 1])]
  }

  /** The table's `indexes` annotation: the column groups to index. */
  function Indexes(t: DbTable): seq<seq<string>> {
    SqlSchema.StringListsOption(t.ann, "indexes")
  }

  /** The table's `uniquenessConstraints` annotation: the column groups that are unique. */
  function Uniques(t: DbTable): seq<seq<string>> {
    SqlSchema.StringListsOption(t.ann, "uniquenessConstraints")
  }

  /** The lines after the columns: the id, the indexes, the uniqueness constraints, the back-relations. */
  function TrailingLines(t: DbTable, kids: seq<string>): seq<string> {
    IdLines(t) + GroupLines("@@index", t, Indexes(t))
    + GroupLines("@@unique", t, Uniques(t))
    + KidLines(kids)
  }

  lemma GroupLinePrefix(attr: string, t: DbTable, group: seq<string>)
    ensures Text.StartsWith(GroupLine(attr, t, group), attr + "([")
  {
    var x := Text.Join(SqlSchema.ColNames(t.fields, group, Identity), ", ");
    assert (attr + "([" + x + "])")[..|attr + "(["|] == attr + "([";
  }

  lemma IdLinePrefix(t: DbTable)
    ensures Text.StartsWith(IdLine(t), "@@id" + "([")
  {
    var x := Text.Join(SqlSchema.ColNames(t.fields, t.primaryKey, Identity), ",");
    assert ("@@id" + "([" + x + "])")[..|"@@id" + "(["|] == "@@id" + "([";
  }

  /** Where each part of a four-part concatenation lands. */
  lemma PartsAt(a: seq<string>, b: seq<string>, c: seq<string>, d: seq<string>, pa: string, pb: string, pc: string)
    requires forall i :: 0 <= i < |a| ==> Text.StartsWith(a[i], pa)
    requires forall i :: 0 <= i < |b| ==> Text.StartsWith(b[i], pb)
    requires forall i :: 0 <= i < |c| ==> Text.StartsWith(c[i], pc)
    ensures var lines := a + b + c + d;
            && |lines| == |a| + |b| + |c| + |d|
            && (forall i :: 0 <= i < |a| ==> Text.StartsWith(lines[i], pa))
            && (forall i :: |a| <= i < |a| + |b| ==> Text.StartsWith(lines[i], pb))
            && (forall i :: |a| + |b| <= i < |a| + |b| + |c| ==> Text.StartsWith(lines[i], pc))
            && (forall i :: 0 <= i < |d| ==> lines[|lines| - |d| + i] == d[i])
  {
    var lines := a + b + c + d;
    forall i | |a| <= i < |a| + |b| ensures Text.StartsWith(lines[i], pb) {
      assert lines[i] == b[i - |a|];
    }
    forall i | |a| + |b| <= i < |a| + |b| + |c| ensures Text.StartsWith(lines[i], pc) {
      assert lines[i] == c[i - |a| - |b|];
    }
  }

  /**
   * After the columns come `@@id` only for a non-empty key, then one
   * `@@index` line per index, one `@@unique` line per uniqueness
   * constraint, and one back-relation line per child, in that order.
   */
  lemma TrailingLinesOrder(t: DbTable, kids: seq<string>)
    ensures var indexes := Indexes(t);
            var uniques := Uniques(t);
            var lines := TrailingLines(t, kids);
            var k := if |t.primaryKey| > 0 then 1 else 0;
            && |lines| == k + |indexes| + |uniques| + |kids|
            && (k == 1 ==> Text.StartsWith(lines[0], "@@id" + "(["))
            && (forall i :: k <= i < k + |indexes| ==> Text.StartsWith(lines[i], "@@index" + "(["))
            && (forall i :: k + |indexes| <= i < k + |indexes| + |uniques| ==> Text.StartsWith(lines[i], "@@unique" + "(["))
  {
    var indexes := Indexes(t);
    var uniques := Uniques(t);
    var id := IdLines(t);
    var ix := GroupLines("@@index", t, indexes);
    var un := GroupLines("@@unique", t, uniques);
    if |t.primaryKey| > 0 {
      IdLinePrefix(t);
    }
    forall i | 0 <= i < |ix| ensures Text.StartsWith(ix[i], "@@index" + "([") {
      GroupLinePrefix("@@index", t, indexes[i]);
    }
    forall i | 0 <= i < |un| ensures Text.StartsWith(un[i], "@@unique" + "([") {
      GroupLinePrefix("@@unique", t, uniques[i]);
    }
    PartsAt(id, ix, un, KidLines(kids), "@@id" + "([", "@@index" + "([", "@@unique" + "([");
  }

  /** The trailing lines end with one back-relation line per child, in the children's order. */
  lemma TrailingLinesKids(t: DbTable, kids: seq<string>)
    ensures var lines := TrailingLines(t, kids);
            && |kids| <= |lines|
            && forall i :: 0 <= i < |kids| ==> lines[|lines| - |kids| + i] == KidLine(kids[i])
  {
    var front := IdLines(t) + GroupLines("@@index", t, Indexes(t)) + GroupLines("@@unique", t, Uniques(t));
    var kl := KidLines(kids);
    assert TrailingLines(t, kids) == front + kl;
    forall i | 0 <= i < |kids| ensures (front + kl)[|front| + i] == KidLine(kids[i]) {
    }
  }

  /** Each line indented by two spaces and ended by a newline. */
  function Indented(lines: seq<string>): (r: seq<string>)
    ensures |r| == |lines| && forall i :: 0 <= i < |lines| ==> r[i] == "  " + lines[i] + "\n"
  {
    if |lines| == 0 then []
    else Indented(lines[..|lines| - 1]) + ["  " + lines[|lines| - 1] + "\n"]
  }

  /** The rendered model block of a table. */
  function ModelBlock(t: DbTable, lines: seq<string>): seq<string> {
    ["\n", "model " + SqlSchema.QuoteReservedName(t.name) + " {\n"] + Indented(lines) + ["}\n"]
  }

  /** What one table contributes: its model block and its extra SQL. */
  datatype ModelOut = ModelOut(block: seq<string>, extraSql: seq<string>)

  function ModelOutOf(res: Resolver, tables: seq<DbTable>, t: DbTable, p2c: ChildMap, fuel: nat): Result<ModelOut> {
    var cols :- Flatten(FieldLinesAll(res, tables, t.fields, fuel));
    var kids :- Kids(p2c, t.name);
    Ok(ModelOut(ModelBlock(t, cols + TrailingLines(t, kids)),
                SqlSchema.StringListOption(t.ann, "extraSql")))
  }

  // ----- The generator -----

  lemma Append4<T>(a: seq<T>, b: seq<T>, c: seq<T>, d: seq<T>, e: seq<T>)
    ensures a + b + c + d + e == a + (b + c + d + e)
  {
  }

  /** One pass of the column loop: the field's column line and relation line are pushed. */
  method PushFieldLines(res: Resolver, tables: seq<DbTable>, f: Field, fuel: nat, lines: seq<string>)
    returns (r: Result<seq<string>>)
    ensures FieldLinesOf(res, tables, f, fuel).Err? ==> r == Err(FieldLinesOf(res, tables, f, fuel).error)
    ensures FieldLinesOf(res, tables, f, fuel).Ok? ==> r == Ok(lines + FieldLinesOf(res, tables, f, fuel).value)
  {
    var columnType := ColumnTypeOf(res, tables, f, fuel);
    if columnType.Err? {
      return Err(columnType.error);
    }
    var ct := columnType.value;
    var col := ColumnName(f, Identity);
    var out := lines + [col + " " + ct.sqltype + (if ct.notNullable then "" else "?") + CommentSuffix(f)];
    if ct.fkey.Some? {
      out := out + [RelationLine(col, ct.fkey.value)];
    }
    Seqs.AppendAssoc(lines, [col + " " + ct.sqltype + (if ct.notNullable then "" else "?") + CommentSuffix(f)],
                     if ct.fkey.Some? then [RelationLine(col, ct.fkey.value)] else []);
    assert FieldLinesOf(res, tables, f, fuel) == Ok(FieldLines(f, ct));
    assert out == lines + FieldLines(f, ct);
    return Ok(out);
  }

  /** The column loop of one table: each field's column line, then its relation line. */
  method PrismaColumnLines(res: Resolver, tables: seq<DbTable>, fs: seq<Field>, fuel: nat) returns (r: Result<seq<string>>)
    ensures r == Flatten(FieldLinesAll(res, tables, fs, fuel))
  {
    ghost var rs := FieldLinesAll(res, tables, fs, fuel);
    var lines: seq<string> := [];
    var j := 0;
    while j < |fs|
      invariant 0 <= j <= |fs|
      invariant Flatten(rs[..j]) == Ok(lines)
    {
      FlattenStep(rs, j, lines);
      var next := PushFieldLines(res, tables, fs[j], fuel, lines);
      if next.Err? {
        FlattenStopsAtError(rs, j + 1);
        return next;
      }
      lines := next.value;
      j := j + 1;
    }
    assert rs[..j] == rs;
    return Ok(lines);
  }

  /** The push loop for one kind of column group. */
  method PushGroups(lines: seq<string>, attr: string, t: DbTable, groups: seq<seq<string>>) returns (r: seq<string>)
    ensures r == lines + GroupLines(attr, t, groups)
  {
    r := lines;
    var i := 0;
    while i < |groups|
      invariant 0 <= i <= |groups|
      invariant r == lines + GroupLines(attr, t, groups[..i])
    {
      Seqs.PrefixStep(groups, i);
      r := r + [GroupLine(attr, t, groups[i])];
      i := i + 1;
    }
    assert groups[..i] == groups;
  }

  /** The push loop for the back-relations of one table. */
  method PushKids(lines: seq<string>, kids: seq<string>) returns (r: seq<string>)
    ensures r == lines + KidLines(kids)
  {
    r := lines;
    var i := 0;
    while i < |kids|
      invariant 0 <= i <= |kids|
      invariant r == lines + KidLines(kids[..i])
    {
      Seqs.PrefixStep(kids, i);
      r := r + [KidLine(kids[i])];
      i := i + 1;
    }
    assert kids[..i] == kids;
  }

  /** The write loop of one model block. */
  method WriteModel(w: FileWriter, t: DbTable, lines: seq<string>)
    modifies w
    ensures w.content == old(w.content) + ModelBlock(t, lines)
  {
    w.Write("\n");
    w.Write("model " + SqlSchema.QuoteReservedName(t.name) + " {\n");
    ghost var start := w.content;
    var i := 0;
    while i < |lines|
      invariant 0 <= i <= |lines|
      invariant w.content == start + Indented(lines[..i])
    {
      Seqs.PrefixStep(lines, i);
      w.Write("  " + lines[i] + "\n");
      i := i + 1;
    }
    assert lines[..i] == lines;
    w.Write("}\n");
  }

  /** The lines of one model block, before rendering: the columns, then the trailing lines. */
  method PrismaModelLines(res: Resolver, tables: seq<DbTable>, t: DbTable, p2c: ChildMap, fuel: nat)
    returns (r: Result<seq<string>>)
    ensures var cols := Flatten(FieldLinesAll(res, tables, t.fields, fuel));
            && (r.Ok? <==> cols.Ok? && !Inherited(p2c, t.name))
            && (r.Ok? ==> r.value == cols.value + TrailingLines(t, Lookup(p2c, t.name)))
            && (cols.Err? ==> r == Err(cols.error))
            && (cols.Ok? && Inherited(p2c, t.name) ==> r == Err(NotAnArray(t.name)))
  {
    var indexes := Indexes(t);
    var uniquenessConstraints := Uniques(t);
    var cols := PrismaColumnLines(res, tables, t.fields, fuel);
    if cols.Err? {
      return Err(cols.error);
    }
    var lines := cols.value;
    if |t.primaryKey| > 0 {
      lines := lines + [IdLine(t)];
    }
    assert lines == cols.value + IdLines(t);
    lines := PushGroups(lines, "@@index", t, indexes);
    lines := PushGroups(lines, "@@unique", t, uniquenessConstraints);
    var kids := Kids(p2c, t.name);
    if kids.Err? {
      return Err(kids.error);
    }
    lines := PushKids(lines, kids.value);
    Append4(cols.value, IdLines(t), GroupLines("@@index", t, indexes), GroupLines("@@unique", t, uniquenessConstraints),
            KidLines(Lookup(p2c, t.name)));
    return Ok(lines);
  }

  /**
   * The per-table body of generateCreatePrismaSchema: it writes the table's
   * model block and returns its extra SQL; a failing column writes nothing.
   */
  method GenerateModel(w: FileWriter, res: Resolver, tables: seq<DbTable>, t: DbTable, p2c: ChildMap, fuel: nat)
    returns (r: Result<seq<string>>)
    modifies w
    ensures var out := ModelOutOf(res, tables, t, p2c, fuel);
            && (r.Ok? <==> out.Ok?)
            && (r.Ok? ==> r.value == out.value.extraSql && w.content == old(w.content) + out.value.block)
            && (r.Err? ==> r.error == out.error && w.content == old(w.content))
  {
    var extraSql := SqlSchema.StringListOption(t.ann, "extraSql");
    var lines := PrismaModelLines(res, tables, t, p2c, fuel);
    if lines.Err? {
      return Err(lines.error);
    }
    WriteModel(w, t, lines.value);
    return Ok(extraSql);
  }

  /** The contributions of a sequence of tables, concatenated in order; the first failure aborts. */
  function CollectModels(outs: seq<Result<ModelOut>>): Result<ModelOut> {
    if |outs| == 0 then Ok(ModelOut([], []))
    else
      var n := |outs| - 1;
      var init :- CollectModels(outs[..n]);
      var last :- outs[n];
      Ok(ModelOut(init.block + last.block, init.extraSql + last.extraSql))
  }

  lemma {:induction false} CollectModelsStopsAtError(outs: seq<Result<ModelOut>>, k: nat)
    requires k <= |outs| && CollectModels(outs[..k]).Err?
    ensures CollectModels(outs) == CollectModels(outs[..k])
    decreases |outs| - k
  {
    if k < |outs| {
      assert outs[..k + 1][..k] == outs[..k];
      CollectModelsStopsAtError(outs, k + 1);
    } else {
      assert outs[..k] == outs;
    }
  }

  /** Each table's contribution, in table order. */
  function ModelOuts(res: Resolver, tables: seq<DbTable>, p2c: ChildMap, fuel: nat): (r: seq<Result<ModelOut>>)
    ensures |r| == |tables|
    ensures forall i :: 0 <= i < |tables| ==> r[i] == ModelOutOf(res, tables, tables[i], p2c, fuel)
  {
    seq(|tables|, i requires 0 <= i < |tables| => ModelOutOf(res, tables, tables[i], p2c, fuel))
  }

  /** The header lines: the distinct module names of the tables, in first-seen order. */
  function Header(tables: seq<DbTable>): seq<string> {
    var moduleNames := Seqs.Dedup(seq(|tables|, i requires 0 <= i < |tables| => tables[i].scopedDecl.moduleName));
    ["// Schema auto-generated from adl modules: " + Text.Join(moduleNames, ", ") + "\n",
     "//\n",
     "// column comments show original ADL types\n"]
  }

  /** The table loop of generateCreatePrismaSchema: every model block in order, and all extra SQL. */
  method GenerateModels(w: FileWriter, res: Resolver, tables: seq<DbTable>, p2c: ChildMap, fuel: nat)
    returns (r: Result<seq<string>>)
    modifies w
    ensures var out := CollectModels(ModelOuts(res, tables, p2c, fuel));
            && (r.Ok? <==> out.Ok?)
            && (r.Ok? ==> r.value == out.value.extraSql && w.content == old(w.content) + out.value.block)
  {
    ghost var outs := ModelOuts(res, tables, p2c, fuel);
    ghost var blocks: seq<string> := [];
    var allExtraSql: seq<string> := [];
    var i := 0;
    while i < |tables|
      invariant 0 <= i <= |tables|
      invariant CollectModels(outs[..i]) == Ok(ModelOut(blocks, allExtraSql))
      invariant w.content == old(w.content) + blocks
    {
      Seqs.PrefixStep(outs, i);
      ghost var before := w.content;
      var extraSql := GenerateModel(w, res, tables, tables[i], p2c, fuel);
      if extraSql.Err? {
        CollectModelsStopsAtError(outs, i + 1);
        return Err(extraSql.error);
      }
      Seqs.AppendAssoc(old(w.content), blocks, outs[i].value.block);
      blocks := blocks + outs[i].value.block;
      allExtraSql := allExtraSql + extraSql.value;
      i := i + 1;
    }
    assert outs[..i] == outs;
    return Ok(allExtraSql);
  }

  /**
   * generateCreatePrismaSchema: the header, then the blocks of the single
   * annotated module; extensions passed as a parameter are refused; then
   * parent2child is built and every table's model block written, then the
   * extra SQL. A missing or repeated PrismaBlocks annotation, or a column
   * whose type cannot be mapped, stops the generation.
   */
  method GenerateCreatePrismaSchema(w: FileWriter, res: Resolver, tables: seq<DbTable>, modules: seq<AdlModule>,
                                    extensions: seq<string>, fuel: nat) returns (r: Result<()>)
    modifies w
    ensures var sel := SelectPrismaBlock(modules);
            && (sel.Err? ==> r == Err(sel.error))
            && (sel.Ok? && |extensions| > 0 ==> r == Err(ExtensionsNotAllowed))
    ensures var sel := SelectPrismaBlock(modules);
            var p2c := Parent2Child(res, tables, tables, fuel);
            && (r.Ok? <==> sel.Ok? && |extensions| == 0 && p2c.Ok?
                           && CollectModels(ModelOuts(res, tables, p2c.value, fuel)).Ok?)
            && (r.Ok? ==>
                  var out := CollectModels(ModelOuts(res, tables, p2c.value, fuel)).value;
                  w.content == old(w.content) + Header(tables) + BlockLines(sel.value) + out.block
                               + SqlSchema.Trailer(out.extraSql))
  {
    SqlSchema.WriteAll(w, Header(tables));
    var blocks := SelectPrismaBlock(modules);
    if blocks.Err? {
      return Err(blocks.error);
    }
    SqlSchema.WriteAll(w, BlockLines(blocks.value));
    if |extensions| > 0 {
      return Err(ExtensionsNotAllowed);
    }
    var parent2child := BuildParent2Child(res, tables, fuel);
    if parent2child.Err? {
      return Err(parent2child.error);
    }
    ghost var start := w.content;
    var allExtraSql := GenerateModels(w, res, tables, parent2child.value, fuel);
    if allExtraSql.Err? {
      return Err(allExtraSql.error);
    }
    SqlSchema.WriteAll(w, SqlSchema.Trailer(allExtraSql.value));
    return Ok(());
  }
}
