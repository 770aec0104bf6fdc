/**
 * The `common.prisma` ADL module as generated TypeScript: the Prisma block
 * records a database module carries as an annotation, their default-filling
 * constructors, the enumerations of the closed string unions, and the map
 * from qualified name to declaration.
 *
 * An optional constructor argument is an `Option`: `None` when it is omitted
 * (`undefined`), `Some(v)` when it is supplied. A nullable member is itself an
 * `Option`, `None` standing for `null`.
 */
module PrismaModel {
  import opened Adl

  datatype Provider = Postgresql | Mysql | Sqlite | Sqlserver | Mongodb | Cockroachdb

  /** The string each provider is serialised as. */
  function ProviderName(p: Provider): string {
    match p
    case Postgresql => "postgresql"
    case Mysql => "mysql"
    case Sqlite => "sqlite"
    case Sqlserver => "sqlserver"
    case Mongodb => "mongodb"
    case Cockroachdb => "cockroachdb"
  }

  datatype RelationMode = ForeignKeys | Prisma

  function RelationModeName(m: RelationMode): string {
    match m
    case ForeignKeys => "foreignKeys"
    case Prisma => "prisma"
  }

  datatype EngineType = Library | Binary

  function EngineTypeName(e: EngineType): string {
    match e
    case Library => "library"
    case Binary => "binary"
  }

  /** The two branches of the `Url` union. */
  datatype UrlKind = Env | Literal

  datatype Url = Url(kind: UrlKind, value: string)

  datatype Datasource = Datasource(
    provider: Provider,
    url: Url,
    shadowDatabaseUrl: Option<string>,
    directUrl: Option<string>,
    relationMode: Option<RelationMode>,
    extensions: seq<string>)

  datatype Generator = Generator(
    provider: string,
    output: Option<string>,
    previewFeatures: seq<string>,
    engineType: Option<EngineType>,
    binaryTargets: seq<string>)

  /** The generators are a string-keyed object; its entries are kept in key order. */
  datatype PrismaBlocks = PrismaBlocks(
    datasourceBlockName: Option<string>,
    datasource: Datasource,
    generators: seq<(string, Generator)>)

  /** A supplied argument, or the default when it is omitted (`x === undefined ? d : x`). */
  function OrDefault<T>(arg: Option<T>, d: T): (r: T)
    ensures arg.None? ==> r == d
    ensures arg.Some? ==> r == arg.value
  {
    if arg.Some? then arg.value else d
  }

  /** makePrismaBlocks: the block name defaults to "db" only when it is omitted. */
  function MakePrismaBlocks(datasourceBlockName: Option<Option<string>>, datasource: Datasource,
                            generators: seq<(string, Generator)>): (r: PrismaBlocks)
    ensures datasourceBlockName.None? ==> r.datasourceBlockName == Some("db")
    ensures datasourceBlockName.Some? ==> r.datasourceBlockName == datasourceBlockName.value
    ensures r.datasource == datasource && r.generators == generators
  {
    PrismaBlocks(OrDefault(datasourceBlockName, Some("db")), datasource, generators)
  }

  /** makeDatasource: nullable members default to null and the extensions to the empty list. */
  function MakeDatasource(provider: Provider, url: Url, shadowDatabaseUrl: Option<Option<string>>,
                          directUrl: Option<Option<string>>, relationMode: Option<Option<RelationMode>>,
                          extensions: Option<seq<string>>): (r: Datasource)
  {
    Datasource(provider, url, OrDefault(shadowDatabaseUrl, None), OrDefault(directUrl, None),
               OrDefault(relationMode, None), OrDefault(extensions, []))
  }

  /** makeGenerator: nullable members default to null and the lists to the empty list. */
  function MakeGenerator(provider: string, output: Option<Option<string>>, previewFeatures: Option<seq<string>>,
                         engineType: Option<Option<EngineType>>, binaryTargets: Option<seq<string>>): (r: Generator)
  {
    Generator(provider, OrDefault(output, None), OrDefault(previewFeatures, []),
              OrDefault(engineType, None), OrDefault(binaryTargets, []))
  }

  /** makeUrl: the union value of that branch carrying that string. */
  function MakeUrl(kind: UrlKind, value: string): (r: Url)
  {
    Url(kind, value)
  }

  /**
   * Omitting every optional argument gives null for each nullable member
   * and the empty list for each list member, whatever the required ones are.
   */
  lemma MakeDatasourceDefaults(provider: Provider, url: Url)
    ensures var d := MakeDatasource(provider, url, None, None, None, None);
            && d.provider == provider && d.url == url
            && d.shadowDatabaseUrl.None? && d.directUrl.None? && d.relationMode.None?
            && d.extensions == []
  {
  }

  /** Supplying every member of a datasource rebuilds exactly that datasource. */
  lemma MakeDatasourcePassesThrough(d: Datasource)
    ensures MakeDatasource(d.provider, d.url, Some(d.shadowDatabaseUrl), Some(d.directUrl),
                           Some(d.relationMode), Some(d.extensions)) == d
  {
  }

  /** Each supplied argument, including an explicit null, is kept as given. */
  lemma MakeDatasourceMembers(provider: Provider, url: Url, shadowDatabaseUrl: Option<Option<string>>,
                              directUrl: Option<Option<string>>, relationMode: Option<Option<RelationMode>>,
                              extensions: Option<seq<string>>)
    ensures var d := MakeDatasource(provider, url, shadowDatabaseUrl, directUrl, relationMode, extensions);
            && (shadowDatabaseUrl.Some? ==> d.shadowDatabaseUrl == shadowDatabaseUrl.value)
            && (directUrl.Some? ==> d.directUrl == directUrl.value)
            && (relationMode.Some? ==> d.relationMode == relationMode.value)
            && (extensions.Some? ==> d.extensions == extensions.value)
            && (extensions.None? ==> d.extensions == [])
  {
  }

  lemma MakeGeneratorDefaults(provider: string)
    ensures var g := MakeGenerator(provider, None, None, None, None);
            && g.provider == provider
            && g.output.None? && g.engineType.None?
            && g.previewFeatures == [] && g.binaryTargets == []
  {
  }

  lemma MakeGeneratorPassesThrough(g: Generator)
    ensures MakeGenerator(g.provider, Some(g.output), Some(g.previewFeatures), Some(g.engineType),
                          Some(g.binaryTargets)) == g
  {
  }

  lemma MakeUrlMembers(kind: UrlKind, value: string)
    ensures MakeUrl(kind, value).kind == kind && MakeUrl(kind, value).value == value
  {
  }

  // ----- Enumerations -----

  const ValuesProvider: seq<Provider> := [Postgresql, Mysql, Sqlite, Sqlserver, Mongodb, Cockroachdb]
  const ValuesRelationMode: seq<RelationMode> := [ForeignKeys, Prisma]
  const ValuesEngineType: seq<EngineType> := [Library, Binary]

  /** valuesProvider lists each of the six providers exactly once. */
  lemma ValuesProviderComplete(p: Provider)
    ensures multiset(ValuesProvider)[p] == 1
  {
  }

  lemma ValuesRelationModeComplete(m: RelationMode)
    ensures multiset(ValuesRelationMode)[m] == 1
  {
  }

  lemma ValuesEngineTypeComplete(e: EngineType)
    ensures multiset(ValuesEngineType)[e] == 1
  {
  }

  /** Different providers are serialised differently. */
  lemma ProviderNameInjective(p: Provider, q: Provider)
    requires ProviderName(p) == ProviderName(q)
    ensures p == q
  {
  }

  // ----- The declarations of common.prisma -----

  const ModuleName := "common.prisma"

  function Prim(name: string): TypeExpr {
    TypeExpr(Primitive(name), [])
  }

  function Ref(name: string): TypeExpr {
    TypeExpr(Reference(ScopedName(ModuleName, name)), [])
  }

  function Nullable(t: TypeExpr): TypeExpr {
    TypeExpr(Primitive("Nullable"), [t])
  }

  /** A field whose serialised name is its name, without annotations. */
  function PlainField(name: string, t: TypeExpr, default: Option<Json>): Field {
    Field(name, name, t, default, [])
  }

  function VoidBranch(name: string): Field {
    PlainField(name, Prim("Void"), None)
  }

  function ModuleDecl(name: string, t: DeclType): ScopedDecl {
    ScopedDecl(ModuleName, Decl(name, None, t, []))
  }

  const PrismaBlocksAst := ModuleDecl("PrismaBlocks", Struct([], [
    PlainField("datasource_block_name", Nullable(Prim("String")), Some(JString("db"))),
    PlainField("datasource", Ref("Datasource"), None),
    PlainField("generators", TypeExpr(Primitive("StringMap"), [Ref("Generator")]), None)]))

  const DatasourceAst := ModuleDecl("Datasource", Struct([], [
    PlainField("provider", Ref("Provider"), None),
    PlainField("url", Ref("Url"), None),
    PlainField("shadowDatabaseUrl", Nullable(Prim("String")), Some(JNull)),
    PlainField("directUrl", Nullable(Prim("String")), Some(JNull)),
    PlainField("relationMode", Nullable(Ref("RelationMode")), Some(JNull)),
    PlainField("extensions", TypeExpr(Primitive("Vector"), [Prim("String")]), Some(JArray([])))]))

  const UrlAst := ModuleDecl("Url", Union([], [
    PlainField("env", Prim("String"), None),
    PlainField("literal", Prim("String"), None)]))

  const ProviderAst := ModuleDecl("Provider", Union([], [
    VoidBranch("postgresql"), VoidBranch("mysql"), VoidBranch("sqlite"),
    VoidBranch("sqlserver"), VoidBranch("mongodb"), VoidBranch("cockroachdb")]))

  const RelationModeAst := ModuleDecl("RelationMode", Union([], [VoidBranch("foreignKeys"), VoidBranch("prisma")]))

  const GeneratorAst := ModuleDecl("Generator", Struct([], [
    PlainField("provider", Prim("String"), None),
    PlainField("output", Nullable(Prim("String")), Some(JNull)),
    PlainField("previewFeatures", TypeExpr(Primitive("Vector"), [Prim("String")]), Some(JArray([]))),
    PlainField("engineType", Nullable(Ref("EngineType")), Some(JNull)),
    PlainField("binaryTargets", TypeExpr(Primitive("Vector"), [Ref("BinaryTargets")]), Some(JArray([])))]))

  const EngineTypeAst := ModuleDecl("EngineType", Union([], [VoidBranch("library"), VoidBranch("binary")]))

  const BinaryTargetsAst := ModuleDecl("BinaryTargets", TypeAlias([], Prim("String")))

  /** The entries of the `_AST_MAP` object literal, in order. */
  const AstEntries: seq<(string, ScopedDecl)> := [
    ("common.prisma.PrismaBlocks", PrismaBlocksAst),
    ("common.prisma.Datasource", DatasourceAst),
    ("common.prisma.Url", UrlAst),
    ("common.prisma.Provider", ProviderAst),
    ("common.prisma.RelationMode", RelationModeAst),
    ("common.prisma.Generator", GeneratorAst),
    ("common.prisma.EngineType", EngineTypeAst),
    ("common.prisma.BinaryTargets", BinaryTargetsAst)]

  /** Every key of `_AST_MAP` is the qualified name of the declaration it maps to. */
  lemma AstMapKeys(i: nat)
    requires i < |AstEntries|
    ensures AstEntries[i].1.moduleName == ModuleName
    ensures AstEntries[i].0 == QualifiedName(AstEntries[i].1.moduleName, AstEntries[i].1.decl.name)
  {
    if i < 4 {
      AstKeysFirstHalf(i);
    } else {
      AstKeysSecondHalf(i);
    }
  }

  lemma AstKeysFirstHalf(i: nat)
    requires 0 <= i < 4
    ensures AstEntries[i].0 == QualifiedName(AstEntries[i].1.moduleName, AstEntries[i].1.decl.name)
  {
    var names := ["PrismaBlocks", "Datasource", "Url", "Provider"];
    assert AstEntries[i].1.decl.name == names[i - 0];
    assert AstEntries[i].0 == ModuleName + "." + names[i - 0];
  }

  lemma AstKeysSecondHalf(i: nat)
    requires 4 <= i < 8
    ensures AstEntries[i].0 == QualifiedName(AstEntries[i].1.moduleName, AstEntries[i].1.decl.name)
  {
    var names := ["RelationMode", "Generator", "EngineType", "BinaryTargets"];
    assert AstEntries[i].1.decl.name == names[i - 4];
    assert AstEntries[i].0 == ModuleName + "." + names[i - 4];
  }

  /**
   * The nullable members of the records are exactly the fields whose
   * declared type is `Nullable<...>`, and their declared defaults are null.
   */
  lemma DatasourceAstDefaults()
    ensures var fs := DatasourceAst.decl.type_.fields;
            |fs| == 6
            && (forall i :: 2 <= i < 5 ==> fs[i].typeExpr.typeRef == Primitive("Nullable") && fs[i].default == Some(JNull))
            && fs[5].default == Some(JArray([]))
            && (forall i :: 0 <= i < 2 ==> fs[i].default.None?)
  {
  }
}
