/**
 * The ADL declaration graph as the schema generators see it: scoped names,
 * type expressions, fields, declarations and their annotations, plus the
 * error and result types shared by every generator.
 *
 * Declarations come from the external ADL front end; the resolver is the
 * in-memory map from qualified name to declaration it builds.
 */
module Adl {
  import Text

  datatype Option<+T> = None | Some(value: T)

  /** Every way the core can abort a generation run. */
  datatype Error =
    | UnknownDecl(name: ScopedName)              // the resolver has no declaration of that name
    | MissingTypeArgument                        // parameters[0] of an expression that has none
    | UndefinedTypeArgument(param: string)       // a type parameter bound to a missing argument was used
    | TypeParamNotConcrete                       // a bound type parameter applied to arguments
    | AliasOfPrimitive(path: seq<string>, decl: ScopedName)
    | AliasOfTypeParam(path: seq<string>, decl: ScopedName)
    | NotAStructOrAlias                          // a union used as a db table
    | NotADeclReference                          // a db alias or spread body that is not a reference
    | NoTableDeclaration(name: ScopedName)
    | NoSingularPrimaryKey(name: ScopedName)
    | NoPrismaBlock
    | MultiplePrismaBlocks(moduleNames: seq<string>)
    | ExtensionsNotAllowed
    | StringMapNotImplemented
    | RefTargetNotStruct(name: ScopedName)
    | BranchNotReference(field: string)
    | TypeParamNotValid
    | ModuleNotFound(moduleName: string)
    | OutOfFuel                                  // the bound on declaration-graph recursion ran out
    | NotAnArray(key: string)                    // a plain-object lookup found an inherited member, not an array

  datatype Result<+T> = Ok(value: T) | Err(error: Error) {
    predicate IsFailure() { Err? }
    function PropagateFailure<U>(): Result<U>
      requires Err?
    {
      Err(error)
    }
    function Extract(): T
      requires Ok?
    {
      value
    }
  }

  datatype ScopedName = ScopedName(moduleName: string, name: string)

  datatype TypeRef =
    | Primitive(prim: string)
    | Reference(ref: ScopedName)
    | TypeParam(param: string)

  datatype TypeExpr = TypeExpr(typeRef: TypeRef, parameters: seq<TypeExpr>)

  /** JSON values, as annotation values and defaults are stored. */
  datatype Json =
    | JNull
    | JBool(b: bool)
    | JNumber(n: int)
    | JString(s: string)
    | JArray(items: seq<Json>)
    | JObject(members: map<string, Json>)

  /**
   * The members every plain JavaScript object inherits from Object.prototype.
   * Indexing an object literal used as a dictionary with one of these names
   * finds that inherited member, which is truthy and is not an array.
   */
  const ObjectPrototypeKeys: set<string> := {
    "constructor", "hasOwnProperty", "isPrototypeOf", "propertyIsEnumerable", "toLocaleString", "toString",
    "valueOf", "__proto__", "__defineGetter__", "__defineSetter__", "__lookupGetter__", "__lookupSetter__"}

  /** A JSON value as a template literal shows it (`${v}`); integral numbers only. */
  function TemplateText(j: Json): string
    decreases j, 1
  {
    match j
    case JNull => "null"
    case JBool(b) => if b then "true" else "false"
    case JNumber(n) => Text.IntToString(n)
    case JString(s) => s
    case JArray(items) => Text.Join(ItemTexts(items), ",")
    case JObject(_) => "[object Object]"
  }

  /** The elements of an array as `join` shows them: null as the empty string. */
  function ItemTexts(items: seq<Json>): (r: seq<string>)
    decreases items, 0
    ensures |r| == |items|
    ensures forall i :: 0 <= i < |items| ==> r[i] == if items[i].JNull? then "" else TemplateText(items[i])
  {
    if |items| == 0 then []
    else [if items[0].JNull? then "" else TemplateText(items[0])] + ItemTexts(items[1..])
  }

  datatype Annotation = Annotation(key: ScopedName, value: Json)

  datatype Field = Field(
    name: string,
    serializedName: string,
    typeExpr: TypeExpr,
    default: Option<Json>,
    annotations: seq<Annotation>)

  datatype DeclType =
    | Struct(typeParams: seq<string>, fields: seq<Field>)
    | Union(typeParams: seq<string>, fields: seq<Field>)
    | TypeAlias(typeParams: seq<string>, typeExpr: TypeExpr)
    | NewType(typeParams: seq<string>, typeExpr: TypeExpr, default: Option<Json>)

  datatype Decl = Decl(name: string, version: Option<int>, type_: DeclType, annotations: seq<Annotation>)

  datatype ScopedDecl = ScopedDecl(moduleName: string, decl: Decl)

  /** The front end's name resolution, as a finite map. */
  type Resolver = map<ScopedName, ScopedDecl>

  function NameOf(sd: ScopedDecl): ScopedName {
    ScopedName(sd.moduleName, sd.decl.name)
  }

  /** The `moduleName.name` key several generators index by. */
  function QualifiedName(moduleName: string, name: string): string {
    moduleName + "." + name
  }

  /** The tag the source switches on (`decl.type_.kind`). */
  function KindName(t: DeclType): string {
    match t
    case Struct(_, _) => "struct_"
    case Union(_, _) => "union_"
    case TypeAlias(_, _) => "type_"
    case NewType(_, _, _) => "newtype_"
  }

  function TypeParamsOf(t: DeclType): seq<string> {
    t.typeParams
  }

  function Resolve(res: Resolver, sn: ScopedName): (r: Result<ScopedDecl>)
    ensures r.Ok? <==> sn in res
    ensures r.Ok? ==> r.value == res[sn]
    ensures r.Err? ==> r.error == UnknownDecl(sn)
  {
    if sn in res then Ok(res[sn]) else Err(UnknownDecl(sn))
  }

  /** getAnnotation: the value of the first annotation with that key. */
  function GetAnnotation(anns: seq<Annotation>, key: ScopedName): (r: Option<Json>)
    ensures r.None? <==> forall i :: 0 <= i < |anns| ==> anns[i].key != key
    ensures r.Some? ==> exists i :: 0 <= i < |anns| && anns[i] == Annotation(key, r.value)
                                    && forall j :: 0 <= j < i ==> anns[j].key != key
  {
    if |anns| == 0 then None
    else if anns[0].key == key then Some(anns[0].value)
    else GetAnnotation(anns[1..], key)
  }

  /** `getAnnotation(anns, key) !== undefined`: present, whatever its value. */
  predicate HasAnnotation(anns: seq<Annotation>, key: ScopedName) {
    GetAnnotation(anns, key).Some?
  }

  /** `getAnnotation(anns, key) != undefined`: loose equality also rejects a null value. */
  predicate HasNonNullAnnotation(anns: seq<Annotation>, key: ScopedName) {
    GetAnnotation(anns, key).Some? && GetAnnotation(anns, key).value != JNull
  }

  /** An annotation whose value is a JSON string (`typeof ann === "string"`). */
  function StringAnnotation(anns: seq<Annotation>, key: ScopedName): (r: Option<string>)
    ensures r.Some? <==> GetAnnotation(anns, key).Some? && GetAnnotation(anns, key).value.JString?
    ensures r.Some? ==> GetAnnotation(anns, key) == Some(JString(r.value))
  {
    match GetAnnotation(anns, key)
    case Some(JString(s)) => Some(s)
    case _ => None
  }

  /** JavaScript truthiness of a JSON value. */
  predicate Truthy(j: Json) {
    match j
    case JNull => false
    case JBool(b) => b
    case JNumber(n) => n != 0
    case JString(s) => s != ""
    case _ => true
  }

  /** The lines of a sequence of results, concatenated in order; the first failure aborts. */
  function Flatten(rs: seq<Result<seq<string>>>): Result<seq<string>> {
    if |rs| == 0 then Ok([])
    else
      var n := |rs| - 1;
      var init :- Flatten(rs[..n]);
      var last :- rs[n];
      Ok(init + last)
  }

  lemma {:induction false} FlattenOk(rs: seq<Result<seq<string>>>)
    ensures Flatten(rs).Ok? <==> forall i :: 0 <= i < |rs| ==> rs[i].Ok?
  {
    if |rs| > 0 {
      var n := |rs| - 1;
      FlattenOk(rs[..n]);
      assert forall i :: 0 <= i < n ==> rs[..n][i] == rs[i];
    }
  }

  lemma {:induction false} FlattenStopsAtError(rs: seq<Result<seq<string>>>, k: nat)
    requires k <= |rs| && Flatten(rs[..k]).Err?
    ensures Flatten(rs) == Flatten(rs[..k])
    decreases |rs| - k
  {
    if k < |rs| {
      assert rs[..k + 1][..k] == rs[..k];
      FlattenStopsAtError(rs, k + 1);
    } else {
      assert rs[..k] == rs;
    }
  }

  lemma FlattenStep(rs: seq<Result<seq<string>>>, j: nat, acc: seq<string>)
    requires j < |rs| && Flatten(rs[..j]) == Ok(acc)
    ensures rs[j].Err? ==> Flatten(rs[..j + 1]) == Err(rs[j].error)
    ensures rs[j].Ok? ==> Flatten(rs[..j + 1]) == Ok(acc + rs[j].value)
  {
    assert rs[..j + 1][..j] == rs[..j];
  }
}
