# adlc-wrapper generators, modelled in Dafny

adlc-wrapper is a Deno/TypeScript layer around the ADL compiler. It does two jobs.

- It builds the compiler's command line: search directories, merge extensions, and module files looked up on the search path.
- It generates schemas from the loaded ADL declaration graph:
  - SQL `create table` scripts, with foreign keys, indexes, uniqueness constraints and ADL metadata rows;
  - Prisma schemas, with datasource and generator blocks, models and back-relations;
  - GraphQL schemas, types and a JSON naming of applied types;
  - Mermaid class diagrams, with arrows, attributes and per-module namespaces.

Every generator starts from a loader. The loader walks the declarations of the requested modules and sorts them into buckets, projected struct types or database tables. It does this after filtering, and after substituting type arguments for type parameters.

This project models that core with one Dafny module per source file:

| Dafny module | source file |
|---|---|
| `Sources` | `utils/sources.ts` |
| `DocLoad` | `docgen/load.ts` |
| `TypeSubst` | type-binding substitution, shared by `graphql/load.ts` and `dbgen/load.ts` |
| `GraphqlLoad` | `graphql/load.ts` |
| `DbUtils` | `dbgen/utils.ts` |
| `DbLoad` | `dbgen/load.ts` |
| `SqlSchema`, `SqlMetadata` | `gen-sqlschema.ts` |
| `PrismaModel` | `adl-gen/common/prisma.ts` |
| `PrismaSchema` | `gen-prismaschema.ts` |
| `GraphqlSchema` | `gen-graphql-schema.ts` |
| `GraphqlAugment` | `gen-graphql-augment_ast.ts` |
| `ClassDiag` | `docgen/classdiag.ts` |

`Adl` holds the slice of the ADL abstract syntax the core touches:
- scoped names;
- type expressions;
- declarations with annotations;
- a JSON value type;
- the resolver;
- first-match `getAnnotation`.

`Text` and `Seqs` hold shared string and sequence helpers.

The code falls into two kinds.

- Code that only computes is modelled as functions with lemmas about them. This covers the loaders' projections, type substitution, column typing and the naming schemes.
- Code that loops or mutates is modelled as methods proved against those functions. This covers:
  - the generators' write loops, where the `FileWriter` is a class whose `content` the methods append to;
  - the in-place arrow sort of the class diagram, which works on an `array`;
  - the class diagram's capture object, a class with `arrows`, `xfocusOut` and `xfocusIn` fields;
  - the recursive metadata inserter, a class with its `done` set.

Each generator's entry method states its whole output. The output is the header, then each table's or type's block in order, then the trailers. On success that is the writer's content after the call. A failure is returned as an error value rather than thrown.

The model follows the code where the two differ from a plain reading of the generators' intent:
- The `DbTable`/`DbView` check in `dbgen/load.ts` uses loose `!= undefined`, which also skips a null annotation. Everywhere else the code tests `!== undefined`.
- `getAdlModuleFile` replaces only the first "." of a module name.
- GraphQL names of applied types can collide.
- Class-diagram ids can collide.
- `RESERVED_NAMES` and Prisma's `parent2child` are object literals, so a lookup also finds the members every object inherits from `Object.prototype` (`constructor`, `toString` and the rest). `quoteReservedName` therefore quotes those names too. In the Prisma generator, a foreign key to such a name fails at its `push`, and a model of that name fails at its `forEach`.

## Model

| member | source | states |
|---|---|---|
| Adl.GetAnnotation | gen-graphql-schema.ts:233 | absent exactly when no annotation has the key; otherwise the value of the first annotation with that key |
| Sources.ModuleFileShape | utils/sources.ts:38 | a module name without "." becomes name + ".adl"; otherwise only its first "." becomes "/" |
| Sources.ModuleFileExample | utils/sources.ts:38 | the file of `a.b.c` is `a/b.c.adl`, so the second dot survives |
| Sources.PathJoin | utils/sources.ts:40 | the joined path starts with the base, ends with the relative name, and exactly one "/" stands between them (none added when the base already ends with one); an empty base gives the relative name |
| Sources.GetAdlModuleFile | utils/sources.ts:37-47 | success returns the first search directory whose joined file exists; failure means no directory has it, and names the module |
| Sources.FlagArgs | utils/sources.ts:18-25 | a flag/value pair per value, in order, twice as many strings as values |
| Sources.FlagPairs | utils/sources.ts:18-25 | the concat loop builds exactly the flag/value pairs |
| Sources.ModuleFiles | utils/sources.ts:30-33 | success gives each module's first existing file in module order; failure names the first module, in module order, that no directory holds |
| Sources.CompilerSourceArgs | utils/sources.ts:11-35 | the arguments are the `--searchdir` pairs (standard library first), then the `--merge-adlext` pairs, then one file per module; the length is 2(1+dirs)+2·exts+modules; failure names the first module that no directory holds |
| Text.ReplaceAll | docgen/classdiag.ts:320-325 | same length, every occurrence of the character replaced and every other character kept |
| Text.PadEnd | gen-sqlschema.ts:164 | the string is kept as a prefix and padded with spaces to the width, never truncated |
| Text.SortByProperties | dbgen/load.ts:44-56 | the name sort returns a permutation of its input, sorted by name |
| DocLoad.Push | docgen/load.ts:67-84 | a declaration is appended to the bucket of its kind only; the other buckets and the module names are unchanged |
| DocLoad.LoadedBuckets | docgen/load.ts:57-84 | after the walk each bucket is exactly the accepted declarations of its kind, in visiting order |
| DocLoad.LoadedModules | docgen/load.ts:65-88 | after the walk the module names are the accepted declarations' modules in first-seen order |
| DocLoad.LoadResources | docgen/load.ts:39-90 | the loop fills each bucket with its accepted declarations in order and records their modules |
| DocLoad.BucketMembers | docgen/load.ts:57-84 | a declaration is in a bucket iff it was visited, is accepted by the filter and the module list, and has that kind |
| DocLoad.RejectedNotBucketed | docgen/load.ts:57-64 | a declaration refused by the filter or outside `adlModules` is in no bucket |
| DocLoad.BucketsPartition | docgen/load.ts:67-84 | the four bucket sizes add up to the number of accepted declarations, so none is lost or doubled |
| DocLoad.BucketOrder | docgen/load.ts:69-81 | each bucket's entries sit at strictly increasing positions of the visited declarations |
| DocLoad.ModuleNamesExact | docgen/load.ts:65-88 | the module names are distinct and are exactly the modules of accepted declarations |
| TypeSubst.TypeBindings | graphql/load.ts:210-216 | one binding per parameter name, in order, bound to the argument at the same position or unbound when arguments run out |
| TypeSubst.CreateTypeBindings | graphql/load.ts:210-216 | the push loop builds exactly those bindings |
| TypeSubst.Find | graphql/load.ts:225 | none iff no binding has the name; otherwise the first binding with that name |
| TypeSubst.Substitute | graphql/load.ts:218-243 | errors are only "type parameter not concrete" or "undefined type argument"; a bound parameter applied to arguments fails; a bound parameter without arguments becomes its bound expression, or fails when unbound |
| TypeSubst.SubstituteAll | graphql/load.ts:219-221 | argument substitution succeeds iff every argument does; then each argument is substituted in place; a failure is some argument's failure |
| TypeSubst.SubstituteNode | graphql/load.ts:219-221 | a primitive, a reference or an unbound parameter keeps its typeRef and arity, with every argument substituted |
| TypeSubst.SubstituteUnbound | graphql/load.ts:224-230 | an expression none of whose parameters is bound is returned unchanged |
| TypeSubst.SubstituteEmpty | graphql/load.ts:218-243 | substitution under no bindings is the identity |
| TypeSubst.SubstituteClosed | graphql/load.ts:218-243 | an expression without type parameters is unaffected by any bindings |
| TypeSubst.SubstituteCloses | graphql/load.ts:218-243 | when every parameter is bound to a closed argument, the result has no type parameters |
| GraphqlLoad.FromField | graphql/load.ts:186-199 | a field projects iff its type substitutes, and then it is the same field with its type substituted |
| GraphqlLoad.FromFieldsSpec | graphql/load.ts:164 | the fields project iff every field type substitutes; then each field keeps its place with its type substituted |
| GraphqlLoad.FromDecl | graphql/load.ts:128-144 | a struct or union projects iff all its field types substitute, and then to exactly one concrete declaration and no generic one |
| GraphqlLoad.AliasOfNonReference | graphql/load.ts:130-135 | an alias or newtype whose body substitutes to a primitive or type parameter is refused with the path walked and its name |
| GraphqlLoad.AliasOfReference | graphql/load.ts:173-177 | an alias or newtype whose body is a reference projects the resolved target, binding the target's parameters to the reference's arguments; an unknown target is UnknownDecl |
| GraphqlLoad.FromDeclShape | graphql/load.ts:126-203 | every successful projection is one concrete declaration, taken from the start declaration or one the resolver holds |
| GraphqlLoad.RootAliasOfNonReference | graphql/load.ts:126-203 | a root alias or newtype of a primitive or type parameter is refused with its own `kind:name` twice on the path, once from the seed and once from its expansion |
| GraphqlLoad.RootAliasOfReference | graphql/load.ts:126-203 | a root alias or newtype of a reference projects its target with the root's `kind:name` twice on the path |
| GraphqlLoad.LoadResources | graphql/load.ts:65-101 | the loop's result is the walk's projected types, module set and declaration map |
| GraphqlLoad.VisitAllStopsAtError | graphql/load.ts:81-96 | once a prefix of the walk fails, the whole walk fails |
| GraphqlLoad.VisitAllLast | graphql/load.ts:81-96 | a successful walk is the walk of all but the last declaration, then one more visit |
| GraphqlLoad.LoadedConcrete | graphql/load.ts:81-96 | one concrete type per accepted declaration, in visiting order, each that declaration's projection; no generic types |
| GraphqlLoad.LoadedModuleNames | graphql/load.ts:91-99 | the module names are the accepted declarations' modules, deduplicated in first-seen order |
| GraphqlLoad.LoadedDeclMap | graphql/load.ts:83 | the declaration map holds every visited declaration, accepted or not |
| GraphqlLoad.DeclMapKeys | graphql/load.ts:83 | its keys are exactly the visited qualified names |
| GraphqlLoad.DeclMapLastWins | graphql/load.ts:83 | a qualified name maps to the last declaration visited under it |
| DbUtils.ExpandOnce | dbgen/utils.ts:120-128 | only a resolvable reference to an alias (or newtype) expands; everything else is left alone |
| DbUtils.ExpandAliasesResult | dbgen/utils.ts:140-142 | alias expansion ends at an expression that is not an alias reference, and leaves a non-alias expression unchanged |
| DbUtils.ColumnType1 | dbgen/utils.ts:99-132 | a primitive maps through the profile; an unknown reference fails; a reference's `DbColumnType` wins, then enum unions take the enum column type, structs and non-enum unions the reference type |
| DbUtils.ColumnType1Expands | dbgen/utils.ts:119-126 | an unannotated reference to an alias or newtype has the column type of the target's body under the reference's arguments |
| DbUtils.FindTable | dbgen/utils.ts:149 | none iff no table has the scoped name; otherwise a table with that scoped name |
| DbUtils.ForeignKeyRef | dbgen/utils.ts:134-161 | only `DbKey<T>` after alias expansion has a foreign key: T a table with exactly one primary-key column gives the table's name and that column; no such table, or not exactly one key column, is an error; a non-reference T has none; a missing T is an error |
| DbUtils.DbTableName | dbgen/utils.ts:166-177 | a non-empty `tableName` wins; otherwise the munged name minus one trailing `_table` |
| DbUtils.GetColumnType | dbgen/utils.ts:63-97 | the column is not-null iff the field is not Nullable/Maybe; its SQL type is the field `DbColumnType` override or else `ColumnType1` of the inner type (the wrapper's argument, or the field type itself), and its foreign key is `ForeignKeyRef` of that inner type; it succeeds exactly when both parts do, failing first with the SQL type's error and then the foreign key's; a wrapper without argument fails |
| DbUtils.NullableColumnMatchesInner | dbgen/utils.ts:78-96 | a Nullable/Maybe field has the SQL type and foreign key of its inner type, and differs only in nullability |
| DbUtils.FileWriter.constructor | dbgen/utils.ts:194-199 | a new writer has its path and verbosity and an empty buffer |
| DbUtils.FileWriter.Write | dbgen/utils.ts:201-203 | a write appends exactly one string to the buffer |
| DbLoad.DeclColumns | dbgen/load.ts:66-90 | a union is refused; a struct has its fields' columns; an alias or newtype whose body is not a reference is refused |
| DbLoad.ExprColumns | dbgen/load.ts:92-100 | only a reference has columns |
| DbLoad.FromDecl | dbgen/load.ts:66-90 | the loop computes exactly the declaration's columns |
| DbLoad.StructColumns | dbgen/load.ts:79-88 | the field loop computes exactly the struct's columns |
| DbLoad.NextFieldColumns | dbgen/load.ts:80-87 | one pass of the field loop extends the prefix's columns by one field |
| DbLoad.FieldsColumnsStep | dbgen/load.ts:79-88 | one more field appends its columns, or its failure becomes the result |
| DbLoad.FieldsColumnsStopsAtError | dbgen/load.ts:79-88 | the first failing field's error is the struct's error |
| DbLoad.FieldsColumnsSplit | dbgen/load.ts:79-88 | the columns of a struct are those of any split of its fields, concatenated |
| DbLoad.NoSpreadColumnsAreProjectedFields | dbgen/load.ts:110-116 | without `DbSpread`, the columns are exactly the GraphQL loader's projected fields |
| DbLoad.PrimaryKey | dbgen/load.ts:127-135 | never longer than the fields |
| DbLoad.PrimaryKeyEmpty | dbgen/load.ts:127-135 | the key is empty iff no field is annotated `DbPrimaryKey` |
| DbLoad.PrimaryKeyAppend | dbgen/load.ts:127-135 | the key of concatenated fields is the concatenation of their keys |
| DbLoad.PrimaryKeyOne | dbgen/load.ts:127-135 | one field contributes its column name iff annotated |
| DbLoad.MakeTable | dbgen/load.ts:35-42 | the table exists iff its fields load; it records the scoped name, declaration, fields, annotation, table name and primary key of those fields |
| DbLoad.MakeView | dbgen/load.ts:48-53 | the view exists iff its fields load; it records declaration, fields, annotation and table name |
| DbLoad.TableDecls | dbgen/load.ts:30-43 | exactly the filter-accepted declarations with a non-null `DbTable` annotation are selected |
| DbLoad.TableDeclsOrder | dbgen/load.ts:30-43 | the selected table declarations keep the visiting order |
| DbLoad.ViewDecls | dbgen/load.ts:47-54 | exactly the declarations with a non-null `DbView` annotation are selected |
| DbLoad.ViewDeclsOrder | dbgen/load.ts:47-54 | the selected view declarations keep the visiting order |
| DbLoad.TablesOfStep | dbgen/load.ts:30-43 | one more declaration appends its table when it is one, or fails with the table's failure |
| DbLoad.ViewsOfStep | dbgen/load.ts:47-54 | one more declaration appends its view when it is one, or fails with the view's failure |
| DbLoad.CollectTables | dbgen/load.ts:30-43 | the first walk computes exactly the tables of the declarations |
| DbLoad.CollectViews | dbgen/load.ts:47-54 | the second walk computes exactly the views of the declarations |
| DbLoad.TablesOfStopsAtError | dbgen/load.ts:30-43 | the first failing table is the walk's failure |
| DbLoad.ViewsOfStopsAtError | dbgen/load.ts:47-54 | the first failing view is the walk's failure |
| DbLoad.LoadDbResources | dbgen/load.ts:19-59 | the loader returns exactly the sorted tables and views of the declarations |
| DbLoad.TablesOfDecls | dbgen/load.ts:30-44 | one table per table declaration, in visiting order, each built from its declaration |
| DbLoad.ViewsOfDecls | dbgen/load.ts:47-56 | one view per view declaration, filter or not, in visiting order |
| DbLoad.LoadedSorted | dbgen/load.ts:44-56 | the loaded tables and views are sorted by name and are permutations of those collected |
| GraphqlAugment.ArgNamesOk | gen-graphql-augment_ast.ts:67 | when every argument has a name, the argument names are those names in order |
| GraphqlAugment.ArgNamesErr | gen-graphql-augment_ast.ts:67 | an argument without a name makes the argument names fail |
| GraphqlAugment.NameExistsIffNoTypeParam | gen-graphql-augment_ast.ts:70-71 | a type expression has a name iff naming reaches no type parameter |
| GraphqlAugment.TypeParamRaises | gen-graphql-augment_ast.ts:70-71 | reaching a type parameter raises "typeParam not valid here" |
| GraphqlAugment.ArgNamesFirstErr | gen-graphql-augment_ast.ts:61-73 | the only failure of the argument names is the type-parameter error |
| GraphqlAugment.OnlyTypeParamError | gen-graphql-augment_ast.ts:61-73 | the only failure of naming is the type-parameter error |
| GraphqlAugment.NameOfBareReference | gen-graphql-augment_ast.ts:69 | a reference without arguments is named by its declaration name |
| GraphqlAugment.NameOfApplication | gen-graphql-augment_ast.ts:66-68 | an applied reference is "_" + name + "_" + its argument names joined by "_" |
| GraphqlAugment.NameOfPrimitive | gen-graphql-augment_ast.ts:63-64 | a primitive is named by the scalar table, whatever its arguments |
| GraphqlAugment.NamesCanCollide | gen-graphql-augment_ast.ts:67 | `X<Y_Z>` and `X<Y, Z>` are different types with the same name `_X_Y_Z` |
| GraphqlSchema.Adl2GraphqlType | gen-graphql-schema.ts:250-280 | Bool maps to Boolean, the integer and word kinds map to Int, Float and Double map to Float, and everything else maps to String; each case holds in both directions |
| GraphqlSchema.GenFieldPrimitive | gen-graphql-schema.ts:179-183 | a plain primitive gives its scalar, never non-null, no `Ref`, no notes |
| GraphqlSchema.GenFieldVector | gen-graphql-schema.ts:162-168 | `Vector<T>` succeeds iff T does, lists each of T's names and drops T's notes |
| GraphqlSchema.GenFieldNullable | gen-graphql-schema.ts:169-176 | `Nullable<T>` is T generated as nullable, with its notes kept and `isref` cleared |
| GraphqlSchema.GenFieldNullableIdempotent | gen-graphql-schema.ts:169-176 | doubling the Nullable wrapper changes nothing |
| GraphqlSchema.GenFieldStringMap | gen-graphql-schema.ts:177-178 | StringMap is refused |
| GraphqlSchema.GenFieldReference | gen-graphql-schema.ts:211-214 | a reference other than `Ref` is its declaration name, "!" unless nullable |
| GraphqlSchema.GenFieldRef | gen-graphql-schema.ts:186-210 | `Ref<T>`: a non-reference T gives one note, a non-struct T is refused, a struct T gives its fields' type names with `isref` set |
| GraphqlSchema.GenFieldTypeParam | gen-graphql-schema.ts:215-221 | a type parameter gives no names and one note instead of failing |
| GraphqlSchema.GenFieldIsRef | gen-graphql-schema.ts:158-223 | only a top-level `Ref` sets `isref` |
| GraphqlSchema.GenFieldAtMostOneNote | gen-graphql-schema.ts:158-223 | a field has at most one note, and only from a type parameter, a `Ref` or a Nullable wrapper |
| GraphqlSchema.BranchNamesStopsAtError | gen-graphql-schema.ts:227-240 | the first bad branch is the failure |
| GraphqlSchema.BranchNamesOk | gen-graphql-schema.ts:227-240 | a successful branch list names each branch, in order |
| GraphqlSchema.UniqBranches | gen-graphql-schema.ts:225-242 | the Set loop yields the branch names deduplicated in first-seen order, or the branch failure |
| GraphqlSchema.UniqBranchesMembers | gen-graphql-schema.ts:225-242 | the union members are distinct and are exactly the branch names |
| GraphqlSchema.BranchNameBox | gen-graphql-schema.ts:233-237 | a Box branch stands for its first argument's name, and is refused when that is not a reference |
| GraphqlSchema.FieldReferencesStep | gen-graphql-schema.ts:98 | one more field appends its references, or its failure is the result |
| GraphqlSchema.FieldReferencesStopsAtError | gen-graphql-schema.ts:98 | the first failing field is the failure |
| GraphqlSchema.CollectReferences | gen-graphql-schema.ts:59-105 | the recursive walk adds exactly the expression's references to the Set, or fails as the reference function does |
| GraphqlSchema.CollectFieldReferences | gen-graphql-schema.ts:98 | the field loop adds every field's references to the Set |
| GraphqlSchema.FieldLines | gen-graphql-schema.ts:126-128 | one field line per type name, in order |
| GraphqlSchema.NoteLines | gen-graphql-schema.ts:129-131 | one comment line per note, in order |
| GraphqlSchema.FieldOutputShape | gen-graphql-schema.ts:123-131 | a `Ref` field starts with `id: ID!`, then one line per type name, then one comment per note |
| GraphqlSchema.StructLinesEmpty | gen-graphql-schema.ts:110-113 | a struct without fields gets only the `_phantom` field |
| GraphqlSchema.BranchLines | gen-graphql-schema.ts:143-145 | one enum value per branch, in order |
| GraphqlSchema.AllReferencesStopsAtError | gen-graphql-schema.ts:54 | the first failing declaration is the failure of the references pass |
| GraphqlSchema.WriteFieldLines | gen-graphql-schema.ts:126-128 | the writer gains exactly the field lines |
| GraphqlSchema.WriteNoteLines | gen-graphql-schema.ts:129-131 | the writer gains exactly the note lines |
| GraphqlSchema.FieldOutputOfParts | gen-graphql-schema.ts:114-132 | a field's output is `_genField`'s result rendered, or its failure |
| GraphqlSchema.GenerateField | gen-graphql-schema.ts:114-132 | one field writes exactly its output; a failure writes nothing |
| GraphqlSchema.GenerateFields | gen-graphql-schema.ts:114-132 | the field loop writes every field's output in order, or fails with the first failure |
| GraphqlSchema.GenerateStruct | gen-graphql-schema.ts:109-135 | a struct writes exactly its type block |
| GraphqlSchema.WriteBranchLines | gen-graphql-schema.ts:143-146 | the writer gains exactly the enum lines |
| GraphqlSchema.GenerateUnion | gen-graphql-schema.ts:136-148 | a union writes its object type, member union and branch enum |
| GraphqlSchema.WriteUnionTail | gen-graphql-schema.ts:141-146 | the member union line, then the enum block |
| GraphqlSchema.GenerateSchemaConcrete | gen-graphql-schema.ts:107-150 | a projected declaration writes exactly its lines |
| GraphqlSchema.CollectAllReferences | gen-graphql-schema.ts:54 | the references of every field of every declaration, deduplicated |
| GraphqlSchema.GenerateAll | gen-graphql-schema.ts:56 | every projected declaration's lines, in order |
| GraphqlSchema.GenCreateGraphqlSchema | gen-graphql-schema.ts:33-57 | success iff both passes succeed; the result is the deduplicated references and the writer holds every declaration's lines in order |
| PrismaModel.MakePrismaBlocks | adl-gen/common/prisma.ts:11-23 | the block name defaults to "db" only when omitted; the other members pass through |
| PrismaModel.MakeDatasourceDefaults | adl-gen/common/prisma.ts:56-74 | omitted optional members are null or empty |
| PrismaModel.MakeDatasourcePassesThrough | adl-gen/common/prisma.ts:56-74 | supplying every member rebuilds the same datasource |
| PrismaModel.MakeDatasourceMembers | adl-gen/common/prisma.ts:56-74 | each supplied member, explicit null included, is kept |
| PrismaModel.MakeGeneratorDefaults | adl-gen/common/prisma.ts:144-160 | omitted generator members are null or empty |
| PrismaModel.MakeGeneratorPassesThrough | adl-gen/common/prisma.ts:144-160 | supplying every member rebuilds the same generator |
| PrismaModel.MakeUrlMembers | adl-gen/common/prisma.ts:101 | a URL keeps its kind and value |
| PrismaModel.ValuesProviderComplete | adl-gen/common/prisma.ts:112-113 | the provider list holds each provider exactly once |
| PrismaModel.ValuesRelationModeComplete | adl-gen/common/prisma.ts:124-125 | the relation-mode list holds each mode exactly once |
| PrismaModel.ValuesEngineTypeComplete | adl-gen/common/prisma.ts:171-172 | the engine-type list holds each engine type exactly once |
| PrismaModel.ProviderNameInjective | adl-gen/common/prisma.ts:112 | different providers serialise differently |
| PrismaModel.AstMapKeys | adl-gen/common/prisma.ts:194-203 | every `_AST_MAP` key is the qualified name of the declaration it maps to |
| PrismaModel.AstKeysFirstHalf | adl-gen/common/prisma.ts:194-203 | the same for the first four entries |
| PrismaModel.AstKeysSecondHalf | adl-gen/common/prisma.ts:194-203 | the same for the last four entries |
| PrismaModel.DatasourceAstDefaults | adl-gen/common/prisma.ts:76-77 | the Datasource declaration's nullable fields default to null and its extension list to empty |
| PrismaSchema.PbUrl | gen-prismaschema.ts:17-27 | an environment URL renders as `env("v")`, a literal as `"v"` |
| PrismaSchema.PbUrlRoundTrip | gen-prismaschema.ts:17-27 | the kind and value can be read back from the rendering |
| PrismaSchema.PbUrlInjective | gen-prismaschema.ts:17-27 | different URLs render differently |
| PrismaSchema.BlockModules | gen-prismaschema.ts:81-88 | exactly the annotated modules are kept, taken from the module list |
| PrismaSchema.BlockModulesOrder | gen-prismaschema.ts:81-88 | the annotated modules keep the module order |
| PrismaSchema.BlockModulesEmpty | gen-prismaschema.ts:81-88 | no block modules iff no module is annotated |
| PrismaSchema.SelectPrismaBlock | gen-prismaschema.ts:81-95 | none annotated is an error, several annotated is an error naming them all, exactly one is that module |
| PrismaSchema.BlockName | gen-prismaschema.ts:100 | the given block name when non-empty, else "db"; never empty |
| PrismaSchema.DatasourceLinesShape | gen-prismaschema.ts:100-109 | the datasource block opens with name, provider and URL, has one line per set option, and closes |
| PrismaSchema.Prisma2ProfileTypes | gen-prismaschema.ts:231-265 | 64-bit integers map to BigInt, Double to Decimal, other integers to Int, unlisted kinds to Json |
| PrismaSchema.AddChild | gen-prismaschema.ts:136-142 | the parent's list gains the child at its end; other parents are unchanged |
| PrismaSchema.Kids | gen-prismaschema.ts:194-200 | the kid lookup fails exactly for a name with no entry that an object literal inherits; otherwise it gives the recorded children, none without an entry |
| PrismaSchema.AddChildCases | gen-prismaschema.ts:136-142 | the two branches: push onto an existing list, or start one |
| PrismaSchema.AddChildrenSpec | gen-prismaschema.ts:134-143 | a parent's list gains one child entry per referencing field |
| PrismaSchema.AddChildrenStep | gen-prismaschema.ts:134-143 | one more field adds a child when it has a foreign key, or fails with its column type |
| PrismaSchema.AddChildrenStopsAtError | gen-prismaschema.ts:134-143 | the first failing field is the failure |
| PrismaSchema.AddTableChildren | gen-prismaschema.ts:134-143 | the field loop of one table computes exactly its child entries |
| PrismaSchema.Parent2ChildSpec | gen-prismaschema.ts:131-144 | every table maps to the tables whose fields reference it, in table-then-field order, repeats kept |
| PrismaSchema.Parent2ChildStopsAtError | gen-prismaschema.ts:131-144 | the first failing table is the failure |
| PrismaSchema.BuildParent2Child | gen-prismaschema.ts:131-144 | the nested loops compute exactly parent2child, failing on a foreign key to a name inherited from Object.prototype |
| PrismaSchema.AddChildrenKeysOwn | gen-prismaschema.ts:136-142 | a table's fields never add an entry named like an inherited member |
| PrismaSchema.Parent2ChildKeysOwn | gen-prismaschema.ts:131-144 | no entry of parent2child is named like an inherited member |
| PrismaSchema.KidsOfParent2Child | gen-prismaschema.ts:194-200 | over the built parent2child, a model's kid lookup fails exactly for inherited names and otherwise gives the children Parent2ChildSpec describes |
| Adl.ItemTexts | gen-prismaschema.ts:159 | one text per array element: its template text, the empty string for null |
| PrismaSchema.FieldLinesShape | gen-prismaschema.ts:154-166 | a column line carries "?" iff the field is nullable, and a relation line follows iff it has a foreign key |
| PrismaSchema.PrismaColumnLines | gen-prismaschema.ts:154-167 | the column loop produces every field's lines in order, or the first failure |
| PrismaSchema.PushFieldLines | gen-prismaschema.ts:155-166 | one field appends its column line and, for a foreign key, its relation line after the lines so far; a column type that cannot be mapped is the failure |
| PrismaSchema.IdLines | gen-prismaschema.ts:178-181 | an `@@id` line exactly for a non-empty key |
| PrismaSchema.GroupLines | gen-prismaschema.ts:182-193 | one line per index or uniqueness group, in order |
| PrismaSchema.KidLines | gen-prismaschema.ts:194-200 | one back-relation line per child, in order |
| PrismaSchema.GroupLinePrefix | gen-prismaschema.ts:182-193 | a group line starts with its attribute |
| PrismaSchema.IdLinePrefix | gen-prismaschema.ts:178-181 | the key line starts with `@@id([` |
| PrismaSchema.TrailingLinesOrder | gen-prismaschema.ts:178-200 | after the columns come `@@id` (only for a key), then `@@index`, then `@@unique`, then the back-relations |
| PrismaSchema.TrailingLinesKids | gen-prismaschema.ts:178-200 | the model ends with one back-relation line per child, in order |
| PrismaSchema.Indented | gen-prismaschema.ts:202-212 | each line indented by two spaces and ended by a newline |
| PrismaSchema.PushGroups | gen-prismaschema.ts:182-193 | the push loop appends exactly the group lines |
| PrismaSchema.PushKids | gen-prismaschema.ts:194-200 | the push loop appends exactly the back-relation lines |
| PrismaSchema.WriteModel | gen-prismaschema.ts:202-212 | the writer gains exactly the model block |
| PrismaSchema.PrismaModelLines | gen-prismaschema.ts:153-200 | a model's lines are its columns then its trailing lines with its recorded children; the first column failure, then an inherited table name, is the failure |
| PrismaSchema.GenerateModel | gen-prismaschema.ts:147-214 | a table writes exactly its model block and returns its extra SQL; a failure writes nothing |
| PrismaSchema.CollectModelsStopsAtError | gen-prismaschema.ts:147-214 | the first failing table is the failure |
| PrismaSchema.GenerateModels | gen-prismaschema.ts:147-214 | every model block in order, and all the extra SQL |
| PrismaSchema.GenerateCreatePrismaSchema | gen-prismaschema.ts:61-226 | a missing or repeated PrismaBlocks annotation, extensions or a bad column stop generation; on success the writer holds the header, the blocks, every model and the extra SQL |
| SqlSchema.EscapeQuotes | gen-sqlschema.ts:485-487 | escaping never shortens |
| SqlSchema.Dbstr | gen-sqlschema.ts:485-487 | the literal is wrapped in single quotes |
| SqlSchema.UnescapeEscape | gen-sqlschema.ts:485-487 | unescaping undoes the quote doubling |
| SqlSchema.DbstrRoundTrip | gen-sqlschema.ts:485-487 | reading the literal back gives the original string |
| SqlSchema.DbstrInjective | gen-sqlschema.ts:485-487 | different strings give different literals |
| SqlSchema.QuoteReservedName | gen-sqlschema.ts:203-217 | a name changes exactly when RESERVED_NAMES answers for it (its own entry "user" or an inherited Object.prototype member), and then it is double-quoted |
| SqlSchema.InheritedNamesQuoted | gen-sqlschema.ts:203-217 | "user", "constructor" and "toString" are quoted, an ordinary name is not |
| SqlSchema.QuoteReservedNameInjective | gen-sqlschema.ts:203-217 | quoting never makes two quote-free names collide |
| SqlSchema.ProfileIntegerTypes | gen-sqlschema.ts:219-323 | 8/16-bit types map to smallint, 32-bit to integer (int on SQL Server), 64-bit to bigint; each word type shares the type of its signed width |
| SqlSchema.ProfileFallbacks | gen-sqlschema.ts:219-323 | unlisted kinds fall back to json, jsonb and nvarchar(max) |
| SqlSchema.PostgresProfilesDiffer | gen-sqlschema.ts:219-323 | the two PostgreSQL profiles agree exactly on the listed kinds other than Json |
| SqlSchema.ColumnOfSpec | gen-sqlschema.ts:107-124 | a column exists iff its type does; `not null` iff the field is not nullable; a foreign-key constraint iff the type has one |
| SqlSchema.ColumnOfFk | gen-sqlschema.ts:116-124 | the foreign-key half of the column contract |
| SqlSchema.FkIndices | gen-sqlschema.ts:116-124 | the positions of columns that carry a constraint |
| SqlSchema.CollectColumnsLines | gen-sqlschema.ts:107-125 | collecting succeeds iff every column does, with one line per column in order |
| SqlSchema.CollectColumnsFks | gen-sqlschema.ts:107-125 | the constraints are those of the constrained columns, in order |
| SqlSchema.ColumnsOfLines | gen-sqlschema.ts:107-115 | a table's columns exist iff every field's type does; one line per field in order |
| SqlSchema.ColumnsOfFks | gen-sqlschema.ts:116-124 | one foreign-key constraint for exactly each field with a foreign key, in field order |
| SqlSchema.FieldColumn | gen-sqlschema.ts:107-125 | one pass computes exactly the field's column |
| SqlSchema.ColumnLines | gen-sqlschema.ts:107-125 | the column loop computes exactly the table's columns |
| SqlSchema.NextColumn | gen-sqlschema.ts:107-125 | one pass extends the collected prefix by one column |
| SqlSchema.CollectColumnsStep | gen-sqlschema.ts:107-125 | one more column appends its line and constraint, or its failure is the result |
| SqlSchema.CollectColumnsStopsAtError | gen-sqlschema.ts:107-125 | the first failing column is the failure |
| SqlSchema.ColNameForAbsent | gen-sqlschema.ts:127-134 | a name of no field is used unchanged |
| SqlSchema.ColNameForFirst | gen-sqlschema.ts:127-134 | a field name maps to the column name of its first field |
| SqlSchema.FindColName | gen-sqlschema.ts:127-134 | the early-return loop computes exactly that mapping |
| SqlSchema.IndexConstraints | gen-sqlschema.ts:136-143 | the i-th index becomes index number i + 1 over its column names |
| SqlSchema.UniqueConstraints | gen-sqlschema.ts:144-150 | the i-th uniqueness constraint becomes number i + 1 over its column names |
| SqlSchema.PrimaryKeyLines | gen-sqlschema.ts:151-154 | a `primary key(` line, without comment, exactly for a non-empty key |
| SqlSchema.RenderedLines | gen-sqlschema.ts:158-168 | each line indented and ended by a newline, only the last without a comma |
| SqlSchema.RenderLineComma | gen-sqlschema.ts:158-168 | a comma follows the code iff the line is not last |
| SqlSchema.RenderLineComment | gen-sqlschema.ts:158-168 | a comment follows column 36 behind ` -- ` |
| SqlSchema.TableBlock | gen-sqlschema.ts:156-169 | a block is its lines plus three framing lines |
| SqlSchema.WriteTable | gen-sqlschema.ts:156-169 | the writer gains exactly the table block |
| SqlSchema.WriteLines | gen-sqlschema.ts:158-168 | the writer gains exactly the rendered lines |
| SqlSchema.Strings | gen-sqlschema.ts:101-104 | never more strings than items; a list of strings comes back unchanged |
| SqlSchema.TableBlockShape | gen-sqlschema.ts:106-169 | a block has one line per field, one more for a key, and three framing lines |
| SqlSchema.TableConstraintsShape | gen-sqlschema.ts:116-150 | a table's constraints are its foreign keys, then its numbered indexes, then its numbered uniqueness constraints |
| SqlSchema.GenerateTable | gen-sqlschema.ts:100-171 | a table writes exactly its block and returns its contribution; a failure writes nothing |
| SqlSchema.CollectTablesStopsAtError | gen-sqlschema.ts:100-171 | the first failing table is the failure |
| SqlSchema.CollectTablesStep | gen-sqlschema.ts:100-171 | one more table appends its block, constraints and extra SQL |
| SqlSchema.GenerateTables | gen-sqlschema.ts:100-171 | every block written in order, with all constraints and extra SQL gathered |
| SqlSchema.GenerateCreateSqlSchema | gen-sqlschema.ts:69-191 | success iff every column maps; the writer holds the header, extensions, every block, all constraints and all extra SQL, in that order |
| SqlMetadata.AppendDecl | gen-sqlschema.ts:430-435 | inserting a new declaration adds one row and one name, and the names stay unique |
| SqlMetadata.KeySetMembers | gen-sqlschema.ts:427-428 | the done names are exactly the written declarations' names |
| SqlMetadata.UniqueKeysDistinct | gen-sqlschema.ts:428 | no two written declarations share a qualified name |
| SqlMetadata.RemainingShrinks | gen-sqlschema.ts:428-435 | marking a new name done shrinks the names left to visit, so the recursion ends |
| SqlMetadata.DeclInserter.constructor | gen-sqlschema.ts:423-424 | a fresh walk: nothing done, nothing written |
| SqlMetadata.DeclInserter.InsertDecl | gen-sqlschema.ts:426-449 | a new name is written and marked done and its references walked; a done name changes nothing; everything written has its references done |
| SqlMetadata.DeclInserter.InsertBody | gen-sqlschema.ts:436-447 | the fields of a struct or union, or the body of an alias or newtype, are walked to completion |
| SqlMetadata.DeclInserter.InsertFields | gen-sqlschema.ts:439-441 | every field's type has its references done |
| SqlMetadata.DeclInserter.InsertTypeExpr | gen-sqlschema.ts:451-464 | every reference in the expression is done afterwards |
| SqlMetadata.DeclInserter.InsertRef | gen-sqlschema.ts:453-457 | a resolved reference is done afterwards; an unknown reference fails |
| SqlMetadata.DeclInserter.InsertTypeArgs | gen-sqlschema.ts:463 | every type argument has its references done |
| SqlMetadata.DeclInserter.Run | gen-sqlschema.ts:466 | every root is written and the written declarations are closed under references |
| SqlMetadata.InsertDecls | gen-sqlschema.ts:418-467 | one row per written declaration, no name twice, each one a root or a declaration the resolver knows; on success every root is written and every reference of a written declaration is written |
| ClassDiag.IifMeaning | docgen/classdiag.ts:54-56 | without focus modules everything is in focus; with them, exactly the listed ones |
| ClassDiag.ModulePrefix | docgen/classdiag.ts:320-325 | the module name with every "." replaced by "_" |
| ClassDiag.IdShape | docgen/classdiag.ts:317-326 | an id is mangled module name, "_", then RepresentedBy or the declaration name |
| ClassDiag.IdsCanCollide | docgen/classdiag.ts:317-326 | modules `a.b` and `a_b` give the same ids |
| ClassDiag.GetFields | docgen/classdiag.ts:73-92 | fails iff a wrapper has no argument; Hidden/Embed read from the field; a wrapped field reads its first argument |
| ClassDiag.GetFieldsVector | docgen/classdiag.ts:73-92 | `Vector<T>` reads as a list of T |
| ClassDiag.GetFieldsNullable | docgen/classdiag.ts:73-92 | `Nullable<T>` reads as an optional T |
| ClassDiag.GetFieldsVectorOfNullable | docgen/classdiag.ts:73-92 | `Vector<Nullable<T>>` reads as optional, with the Nullable as its reference |
| ClassDiag.GetFieldsPlain | docgen/classdiag.ts:73-92 | any other type is read as it stands |
| ClassDiag.CompareAgreesWithOrder | docgen/classdiag.ts:122-144 | the comparator's sign matches the index order and is antisymmetric |
| ClassDiag.PrecedesIsStrictTotalOrder | docgen/classdiag.ts:122-144 | the index order is irreflexive, transitive and total |
| ClassDiag.InsertArrowPermutes | docgen/classdiag.ts:122-144 | inserting adds exactly one arrow |
| ClassDiag.InsertArrowSorted | docgen/classdiag.ts:122-144 | inserting keeps the arrows sorted |
| ClassDiag.InsertArrowStable | docgen/classdiag.ts:122-144 | inserting keeps arrows of equal index in order |
| ClassDiag.SortedArrowsProperties | docgen/classdiag.ts:122-144 | the sort is a sorted, stable permutation |
| ClassDiag.InsertInPlace | docgen/classdiag.ts:122-144 | the in-place step inserts the next arrow into the sorted prefix and leaves the rest alone |
| ClassDiag.SortInPlace | docgen/classdiag.ts:122-144 | the array ends as the stable sort of its old contents |
| ClassDiag.IterSd | docgen/classdiag.ts:152-173 | a struct or union visits its own fields; an alias of a non-reference visits nothing; every visit is a field of a struct or union |
| ClassDiag.ArrowOf | docgen/classdiag.ts:175-212 | an arrow is drawn only for a reference from an in-focus declaration to a visible declaration of the modules, with the field's cardinality, index and arrow style |
| ClassDiag.CollectedArrowsStep | docgen/classdiag.ts:175-212 | one more field appends its arrow, or its failure is the result |
| ClassDiag.CollectedArrowsStopsAtError | docgen/classdiag.ts:175-212 | the first failing field is the failure |
| ClassDiag.CollectedArrowsDrawable | docgen/classdiag.ts:175-212 | every collected arrow is drawable |
| ClassDiag.CollectedArrowsContain | docgen/classdiag.ts:175-212 | every field's drawn arrow is among the collected ones |
| ClassDiag.OutTargetsAppend | docgen/classdiag.ts:68-70 | out-of-focus targets of concatenated arrows concatenate |
| ClassDiag.OutTargetsMembers | docgen/classdiag.ts:68-70 | `xfocus_out` holds exactly the out-of-focus targets |
| ClassDiag.FoldArrowsStopsAtError | docgen/classdiag.ts:121 | the first failing declaration is the failure |
| ClassDiag.FoldArrowsAbort | docgen/classdiag.ts:121 | a failing declaration after a successful prefix is the result |
| ClassDiag.FoldArrowsContains | docgen/classdiag.ts:121 | every declaration's arrows are in the whole collection |
| ClassDiag.FoldArrowsDrawable | docgen/classdiag.ts:121 | drawable parts give a drawable whole |
| ClassDiag.AllArrowsDrawable | docgen/classdiag.ts:121 | every arrow of the first pass is drawable |
| ClassDiag.Capture.constructor | docgen/classdiag.ts:59-62 | a capture starts empty |
| ClassDiag.Capture.CaptureDeps | docgen/classdiag.ts:64-71 | a crossing pair is recorded on its side; a same-side pair changes nothing |
| ClassDiag.Capture.CollectArrowField | docgen/classdiag.ts:175-212 | the field's arrow is pushed and its out-of-focus target captured; `xfocus_in` unchanged |
| ClassDiag.Capture.CollectVisits | docgen/classdiag.ts:152-173 | a walk's arrows are appended in order |
| ClassDiag.Capture.CollectDecl | docgen/classdiag.ts:152-173 | one declaration's arrows are appended |
| ClassDiag.Capture.CollectAll | docgen/classdiag.ts:121 | all declarations' arrows are appended, in order |
| ClassDiag.Capture.SortArrows | docgen/classdiag.ts:122-144 | the arrows are replaced by their stable sort; nothing else changes |
| ClassDiag.FirstInFocus | docgen/classdiag.ts:94-105 | the options of the first in-focus module that has them, or none |
| ClassDiag.ClassLinesCount | docgen/classdiag.ts:113-119 | one class line per in-focus declaration and one more per in-focus union |
| ClassDiag.DeclClassLinesCount | docgen/classdiag.ts:113-119 | per declaration, the same count |
| ClassDiag.ClassLinesStep | docgen/classdiag.ts:113-119 | the lines of one more declaration follow those before |
| ClassDiag.WriteClassLines | docgen/classdiag.ts:113-119 | the writer gains exactly the class lines |
| ClassDiag.WriteDeclClassLines | docgen/classdiag.ts:113-119 | the writer gains exactly one declaration's class lines |
| ClassDiag.ArrowLinesAllDrawn | docgen/classdiag.ts:145-147 | arrows from in-focus declarations are all drawn, in order |
| ClassDiag.WriteArrowLines | docgen/classdiag.ts:145-147 | the writer gains exactly the arrow lines |
| ClassDiag.FieldAttribute | docgen/classdiag.ts:214-229 | a field with an arrow is not listed; otherwise an in-focus, visible, non-embedded field gets one attribute line |
| ClassDiag.FieldWithArrowNotListed | docgen/classdiag.ts:214-229 | a field whose arrow was drawn lists no attribute |
| ClassDiag.NoAttributeForDrawnField | docgen/classdiag.ts:149 | across a whole run, no field is both an arrow and an attribute |
| ClassDiag.GenField | docgen/classdiag.ts:214-229 | the writer gains the field's attribute line, if any; a failure writes nothing |
| ClassDiag.GenFields | docgen/classdiag.ts:214-229 | a walk's attribute lines, in order |
| ClassDiag.GenAllFields | docgen/classdiag.ts:149 | every declaration's attribute lines, in order |
| ClassDiag.LastSegment | docgen/classdiag.ts:269 | the text after the last "." |
| ClassDiag.WriteEach | docgen/classdiag.ts:264-286 | the writer gains one line per target |
| ClassDiag.WriteOutNamespace | docgen/classdiag.ts:264-286 | the writer gains exactly the `_out_` namespace |
| ClassDiag.WriteOutOfFocus | docgen/classdiag.ts:264-286 | the writer gains exactly the out-of-focus lines |
| ClassDiag.CountEndsAppend | docgen/classdiag.ts:328-345 | end events of concatenated event lists add up |
| ClassDiag.ModuleEventsEnds | docgen/classdiag.ts:328-345 | an accepted module ends once, a refused one never |
| ClassDiag.ForEachModuleDeclEnds | docgen/classdiag.ts:328-345 | `endModule` is called once per accepted module |
| ClassDiag.ModuleEventsVisits | docgen/classdiag.ts:328-345 | a module visits exactly its own declarations, only when accepted |
| ClassDiag.ForEachModuleDeclVisits | docgen/classdiag.ts:328-345 | exactly the declarations of accepted modules are visited |
| ClassDiag.EventsLinesOfModule | docgen/classdiag.ts:288-312 | an accepted module is its namespace line, its members, then the closing line |
| ClassDiag.DeclEventsLinesStep | docgen/classdiag.ts:288-312 | one more declaration's lines follow those before |
| ClassDiag.WriteMember | docgen/classdiag.ts:288-312 | the writer gains exactly one declaration's member line |
| ClassDiag.WriteModuleDecls | docgen/classdiag.ts:288-312 | the writer gains the member lines of a module, in order |
| ClassDiag.WriteModule | docgen/classdiag.ts:288-312 | the writer gains one module's namespace, if accepted |
| ClassDiag.WriteNamespaces | docgen/classdiag.ts:288-312 | the writer gains every module's namespace lines |
| ClassDiag.WriteHead | docgen/classdiag.ts:107-120 | the writer gains the header and class lines |
| ClassDiag.CollectAndSort | docgen/classdiag.ts:121-144 | the first pass gives the sorted arrows and out-of-focus targets, or its error |
| ClassDiag.WriteBody | docgen/classdiag.ts:145-150 | the writer gains the arrow lines and the attribute lines |
| ClassDiag.WriteTail | docgen/classdiag.ts:264-312 | the writer gains the out-of-focus lines and the namespaces |
| ClassDiag.GenMermaidClassDiagram | docgen/classdiag.ts:42-315 | on success the writer holds exactly the diagram's lines; a failing pass aborts with its error |

## Left out

- Running the ADL compiler, parsing its output (`parseAdlModules`), and the JSON bindings (`createJsonBinding`, `JSON.stringify`): the loaders take the visited declarations as a sequence (the order `forEachDecl` visits them), and the metadata row takes the declaration's JSON text as a function parameter.
- File system and process access: `fs.exists` is a snapshot predicate parameter; `getAdlStdLibDir` is a parameter; `path.join` is modelled for relative paths without "." or ".." segments (no normalisation); the writer's `close` and the file it writes are not modelled, only the strings written, in order.
- Console logging and the class diagram's warning on standard error (docgen/classdiag.ts:98-102) are left out.
- `typeExprToStringUnscoped`, used for SQL column comments, is a parameter (`typeText`).
- The entry function of gen-graphql-augment_ast.ts (its filters and JSON output, lines 29-58) is I/O around `typeExprToGraphqlType`; only the naming is modelled.
- gen-sqlschema.ts's `generateViews` (393-415), `getViewName` (197-201), the metadata table writes (350-390) and `generateTemplate` (469-483) are not modelled; `insertDecls` is.
- docgen/utils.ts (`FileWriter.cwrite`) and graphql/utils.ts are not part of this model; the `FileWriter` of dbgen/utils.ts stands for every writer.
- The runtime helpers `decodeTypeExpr`, `expandTypeAlias`/`expandNewType`, `expandTypes` (head-only alias expansion), `isEnum`, `scopedNamesEqual` and the name-munging function get minimal definitions of their own; a `NameMung` is any string function (the identity where the source passes none).
- The classdiag `HIDDEN` annotation is taken to be the common `Hidden` annotation; the diagram takes the scoped declarations, the declaration map and the module list as inputs.
- JavaScript truthiness: an `ArrowIdx` value that is not a number counts as absent; a `RepresentedBy` value or a `tableName` value that is not a string counts as absent; template text renders numbers as integers only (no fractions or exponents).
- Cyclic aliases, spreads and `Ref` chains have no guard in the source; a `fuel` parameter bounds every recursion over the declaration graph, and running out is an error the source does not have.
- A `throw` is an `Err` result; the writes a generator made before an error inside a multi-table loop are not stated (only success and single-step failures state the writer's content).
- dbgen/load.ts:137-175 repeats `createTypeBindings`/`substituteTypeBindings`; both files use `TypeSubst`.
- Fewer type arguments than parameters leave those parameters unbound; the `UndefinedTypeArgument` error arises only when such a parameter is used.
- The resolver's failure on a missing name is an `UnknownDecl` error instead of an exception.
- Key collisions in `declMap` (two declarations with the same qualified name) keep the last one, as a JavaScript object does; nothing more is claimed about them.
- Text.SortByProperties: states sortedness and permutation but not stability (ties keep collection order in JavaScript's sort); the arrow sort of the class diagram does state stability.
- DbLoad.PrimaryKey: its own contract bounds only the length; the content is stated by PrimaryKeyEmpty, PrimaryKeyAppend and PrimaryKeyOne.
- SqlSchema.EscapeQuotes: its own contract bounds only the length; the escaping is stated by UnescapeEscape and DbstrRoundTrip.
- Text.Less: compares strings by Unicode code point, while JavaScript's `<` compares UTF-16 code units; the two orders differ only between characters outside the Basic Multilingual Plane and those from U+E000 to U+FFFF.
- Text.PadEnd: pads to a width counted in Unicode code points, while JavaScript's `padEnd` (gen-sqlschema.ts:164) counts UTF-16 code units; a line holding characters outside the Basic Multilingual Plane gets one more space of padding per such character than the source writes (strings in this model are sequences of code points throughout).
- GraphqlSchema.NoteText: a note keeps only its fixed text; the `JSON.stringify` rendering of the offending type that the source appends (gen-graphql-schema.ts:195-220) is left out with the JSON bindings.
- SqlSchema.StringListsOption: an `indexes` or `uniquenessConstraints` entry that is not an array becomes an empty column list, and a whole value that is not an array (a string, say) becomes no entries; the source would throw at `.map` (gen-sqlschema.ts:137-145). The ADL compiler types the `DbTable` annotation as lists of string lists, so such values do not reach the generator; SqlSchema.StringListOption likewise treats a non-array `extraSql` as empty.
- SqlMetadata.InsertDecls: the rows are not stated to come in depth-first pre-order, nor to be only the declarations reachable from the roots; the contract bounds them by the roots and the resolver's declarations and states closure under references.
- SqlSchema.Strings: a list entry that is not a string is dropped; the source only casts the list (gen-sqlschema.ts:101-104), so such an entry would flow on unchanged.
- Sources.PathJoin: no normalisation of repeated separators or of "." and ".." segments, which `path.join` would perform.
- gen-prismaschema.ts:4 imports the profile, writer, loader and column helpers from gen-sqlschema.ts, which does not export them; the model uses those of dbgen/utils.ts and dbgen/load.ts.
