/**
 * The declaration metadata of the SQL generator: `insertDecls` writes one
 * `meta_adl_decl` row per declaration reachable from the tables and views,
 * remembering the qualified names already written so that each is written
 * once even when the declaration graph has cycles.
 */
module SqlMetadata {
  import opened Adl
  import opened DbUtils
  import Seqs
  import SqlSchema

  /** The name the walk memoises a declaration under: "module.Name". */
  function Key(sd: ScopedDecl): string {
    QualifiedName(sd.moduleName, sd.decl.name)
  }

  /** Every reference in t, arguments included, names a declaration of res whose name is done. */
  ghost predicate RefsDone(t: TypeExpr, res: Resolver, done: set<string>)
    decreases t, 1
  {
    && (t.typeRef.Reference? ==> t.typeRef.ref in res && Key(res[t.typeRef.ref]) in done)
    && AllRefsDone(t.parameters, res, done)
  }

  /** RefsDone for each expression of a list. */
  ghost predicate AllRefsDone(ts: seq<TypeExpr>, res: Resolver, done: set<string>)
    decreases ts, 0
  {
    |ts| == 0 || (AllRefsDone(ts[..|ts| - 1], res, done) && RefsDone(ts[|ts| - 1], res, done))
  }

  /** RefsDone for the type of each field of a list. */
  ghost predicate FieldsDone(fs: seq<Field>, res: Resolver, done: set<string>) {
    |fs| == 0 || (FieldsDone(fs[..|fs| - 1], res, done) && RefsDone(fs[|fs| - 1].typeExpr, res, done))
  }

  /** Every reference of d, through its fields or its alias or newtype body, is done. */
  ghost predicate DeclDone(d: Decl, res: Resolver, done: set<string>) {
    match d.type_
    case Struct(_, fs) => FieldsDone(fs, res, done)
    case Union(_, fs) => FieldsDone(fs, res, done)
    case TypeAlias(_, te) => RefsDone(te, res, done)
    case NewType(_, te, _) => RefsDone(te, res, done)
  }

  lemma {:induction false} RefsDoneGrows(t: TypeExpr, res: Resolver, d0: set<string>, d1: set<string>)
    requires RefsDone(t, res, d0) && d0 <= d1
    ensures RefsDone(t, res, d1)
    decreases t, 1
  {
    AllRefsDoneGrows(t.parameters, res, d0, d1);
  }

  lemma {:induction false} AllRefsDoneGrows(ts: seq<TypeExpr>, res: Resolver, d0: set<string>, d1: set<string>)
    requires AllRefsDone(ts, res, d0) && d0 <= d1
    ensures AllRefsDone(ts, res, d1)
    decreases ts, 0
  {
    if |ts| > 0 {
      AllRefsDoneGrows(ts[..|ts| - 1], res, d0, d1);
      RefsDoneGrows(ts[|ts| - 1], res, d0, d1);
    }
  }

  lemma {:induction false} FieldsDoneGrows(fs: seq<Field>, res: Resolver, d0: set<string>, d1: set<string>)
    requires FieldsDone(fs, res, d0) && d0 <= d1
    ensures FieldsDone(fs, res, d1)
  {
    if |fs| > 0 {
      FieldsDoneGrows(fs[..|fs| - 1], res, d0, d1);
      RefsDoneGrows(fs[|fs| - 1].typeExpr, res, d0, d1);
    }
  }

  lemma AllRefsDoneStep(ts: seq<TypeExpr>, k: nat, res: Resolver, done: set<string>)
    requires k < |ts| && AllRefsDone(ts[..k], res, done) && RefsDone(ts[k], res, done)
    ensures AllRefsDone(ts[..k + 1], res, done)
  {
    assert ts[..k + 1][..k] == ts[..k];
  }

  lemma FieldsDoneStep(fs: seq<Field>, k: nat, res: Resolver, done: set<string>)
    requires k < |fs| && FieldsDone(fs[..k], res, done) && RefsDone(fs[k].typeExpr, res, done)
    ensures FieldsDone(fs[..k + 1], res, done)
  {
    assert fs[..k + 1][..k] == fs[..k];
  }

  lemma DeclDoneGrows(d: Decl, res: Resolver, d0: set<string>, d1: set<string>)
    requires DeclDone(d, res, d0) && d0 <= d1
    ensures DeclDone(d, res, d1)
  {
    match d.type_
    case Struct(_, fs) => FieldsDoneGrows(fs, res, d0, d1);
    case Union(_, fs) => FieldsDoneGrows(fs, res, d0, d1);
    case TypeAlias(_, te) => RefsDoneGrows(te, res, d0, d1);
    case NewType(_, te, _) => RefsDoneGrows(te, res, d0, d1);
  }

  /** The declarations from index k on are all done under `done`. */
  ghost predicate AllDoneFrom(sds: seq<ScopedDecl>, k: nat, res: Resolver, done: set<string>) {
    forall j :: k <= j < |sds| ==> DeclDone(sds[j].decl, res, done)
  }

  /** The row written for one declaration; `declJson` is its JSON serialisation. */
  function InsertRow(sd: ScopedDecl, declJson: Decl -> string): string {
    InsertRowPrefix() + SqlSchema.Dbstr(sd.moduleName) + ","
    + SqlSchema.Dbstr(sd.decl.name) + ", " + SqlSchema.Dbstr(declJson(sd.decl)) + ");\n"
  }

  function InsertRowPrefix(): string {
    "insert into meta_adl_decl(module_name,name,decl) values ("
  }

  /** The rows written for a sequence of declarations, in order. */
  function Rows(sds: seq<ScopedDecl>, declJson: Decl -> string): seq<string> {
    if |sds| == 0 then [] else Rows(sds[..|sds| - 1], declJson) + [InsertRow(sds[|sds| - 1], declJson)]
  }

  /** The qualified names of a sequence of declarations. */
  function KeySet(sds: seq<ScopedDecl>): set<string> {
    if |sds| == 0 then {} else KeySet(sds[..|sds| - 1]) + {Key(sds[|sds| - 1])}
  }

  /** No two declarations of the sequence share a qualified name. */
  ghost predicate UniqueKeys(sds: seq<ScopedDecl>) {
    |sds| == 0 || (UniqueKeys(sds[..|sds| - 1]) && Key(sds[|sds| - 1]) !in KeySet(sds[..|sds| - 1]))
  }

  /** Appending one declaration with a new name: one more row, one more name, names still unique. */
  lemma AppendDecl(sds: seq<ScopedDecl>, sd: ScopedDecl, declJson: Decl -> string)
    requires UniqueKeys(sds) && Key(sd) !in KeySet(sds)
    ensures Rows(sds + [sd], declJson) == Rows(sds, declJson) + [InsertRow(sd, declJson)]
    ensures KeySet(sds + [sd]) == KeySet(sds) + {Key(sd)}
    ensures UniqueKeys(sds + [sd])
  {
    assert (sds + [sd])[..|sds|] == sds;
  }

  lemma {:induction false} KeySetMembers(sds: seq<ScopedDecl>)
    ensures forall i :: 0 <= i < |sds| ==> Key(sds[i]) in KeySet(sds)
    ensures forall k :: k in KeySet(sds) ==> exists i :: 0 <= i < |sds| && Key(sds[i]) == k
  {
    if |sds| > 0 {
      var n := |sds| - 1;
      KeySetMembers(sds[..n]);
      assert forall i :: 0 <= i < n ==> sds[..n][i] == sds[i];
    }
  }

  /** Unique names: the declarations at two different positions have different qualified names. */
  lemma {:induction false} UniqueKeysDistinct(sds: seq<ScopedDecl>)
    requires UniqueKeys(sds)
    ensures forall i, j :: 0 <= i < j < |sds| ==> Key(sds[i]) != Key(sds[j])
  {
    if |sds| > 0 {
      var n := |sds| - 1;
      UniqueKeysDistinct(sds[..n]);
      KeySetMembers(sds[..n]);
      assert forall i :: 0 <= i < n ==> sds[..n][i] == sds[i];
    }
  }

  /** Every declaration of a resolver and the roots, by name: the walk never leaves this set. */
  ghost function Universe(res: Resolver, roots: seq<ScopedDecl>): set<string> {
    (set sd | sd in res.Values :: Key(sd)) + (set i | 0 <= i < |roots| :: Key(roots[i]))
  }

  lemma InUniverse(res: Resolver, roots: seq<ScopedDecl>, sd: ScopedDecl)
    requires sd in res.Values || sd in roots
    ensures Key(sd) in Universe(res, roots)
  {
    if sd !in res.Values {
      var i :| 0 <= i < |roots| && roots[i] == sd;
    }
  }

  lemma SubsetCard<T>(a: set<T>, b: set<T>)
    requires a <= b
    ensures |a| <= |b|
  {
    if a != {} {
      var x :| x in a;
      SubsetCard(a - {x}, b - {x});
    }
  }

  /** The names left to visit drop when a new name is marked done. */
  lemma RemainingShrinks(u: set<string>, d0: set<string>, d1: set<string>, x: string)
    requires d0 + {x} <= d1 && x in u && x !in d0
    ensures |u - d1| < |u - d0|
  {
    SubsetCard(u - d1, (u - d0) - {x});
  }

  /** The names left to visit never increase as `done` grows. */
  lemma RemainingNoGrowth(u: set<string>, d0: set<string>, d1: set<string>)
    requires d0 <= d1
    ensures |u - d1| <= |u - d0|
  {
    SubsetCard(u - d1, u - d0);
  }

  /** Done-ness of a prefix carries over to a grown `done`, and joins with that of the rest. */
  lemma AllDoneFromSplit(e0: seq<ScopedDecl>, e1: seq<ScopedDecl>, k: nat, res: Resolver, d0: set<string>, d1: set<string>)
    requires e0 <= e1 && d0 <= d1
    requires AllDoneFrom(e0, k, res, d0) && AllDoneFrom(e1, |e0|, res, d1)
    ensures AllDoneFrom(e1, k, res, d1)
  {
    forall j | k <= j < |e0| ensures DeclDone(e1[j].decl, res, d1) {
      assert e1[j] == e0[j];
      DeclDoneGrows(e0[j].decl, res, d0, d1);
    }
  }

  lemma AllDoneFromStep(sds: seq<ScopedDecl>, k: nat, res: Resolver, done: set<string>)
    requires k < |sds| && DeclDone(sds[k].decl, res, done) && AllDoneFrom(sds, k + 1, res, done)
    ensures AllDoneFrom(sds, k, res, done)
  {
  }

  lemma PrefixAppend<T>(a: seq<T>, x: T, c: seq<T>)
    requires a + [x] <= c
    ensures a <= c && c[|a|] == x
  {
    assert c[..|a| + 1] == a + [x];
    assert c[..|a|] == (a + [x])[..|a|] == a;
  }

  lemma RootsKept(roots: seq<ScopedDecl>, i: nat, d0: set<string>, d1: set<string>)
    requires i < |roots| && d0 <= d1 && Key(roots[i]) in d1
    requires forall j :: 0 <= j < i ==> Key(roots[j]) in d0
    ensures forall j :: 0 <= j < i + 1 ==> Key(roots[j]) in d1
  {
  }

  /** Every declaration written is one the resolver knows or one of the roots. */
  ghost predicate Drawn(sds: seq<ScopedDecl>, res: Resolver, roots: seq<ScopedDecl>) {
    forall i :: 0 <= i < |sds| ==> sds[i] in res.Values || sds[i] in roots
  }

  lemma DrawnAppend(sds: seq<ScopedDecl>, sd: ScopedDecl, res: Resolver, roots: seq<ScopedDecl>)
    requires Drawn(sds, res, roots) && (sd in res.Values || sd in roots)
    ensures Drawn(sds + [sd], res, roots)
  {
  }

  /** The closure of one `insertDecls` call: the memo `done` and the rows written so far. */
  class DeclInserter {
    const res: Resolver
    const declJson: Decl -> string
    const writer: FileWriter
    const roots: seq<ScopedDecl>
    ghost const universe: set<string>
    ghost const base: seq<string>

    /** `done`: the qualified names already written. */
    var done: set<string>
    /** The declarations written, in order. */
    ghost var emitted: seq<ScopedDecl>

    ghost predicate Valid()
      reads this, writer
    {
      && universe == Universe(res, roots)
      && writer.content == base + Rows(emitted, declJson)
      && done == KeySet(emitted)
      && UniqueKeys(emitted)
      && Drawn(emitted, res, roots)
    }

    constructor(res: Resolver, writer: FileWriter, declJson: Decl -> string, roots: seq<ScopedDecl>)
      ensures this.res == res && this.writer == writer && this.declJson == declJson && this.roots == roots
      ensures done == {} && emitted == [] && base == writer.content
      ensures Valid()
    {
      this.res := res;
      this.writer := writer;
      this.declJson := declJson;
      this.roots := roots;
      universe := Universe(res, roots);
      base := writer.content;
      done := {};
      emitted := [];
    }

    /**
     * insertDecl: a declaration whose name is not yet done is written, its
     * name is marked done, and then every type expression of its fields or
     * body is walked. A name already done changes nothing. Every
     * declaration this call writes has all its references done afterwards.
     */
    method InsertDecl(sd: ScopedDecl) returns (r: Result<()>)
      requires Valid() && (sd in res.Values || sd in roots)
      modifies this, writer
      decreases |universe - done|, 0
      ensures Valid()
      ensures old(done) <= done && old(emitted) <= emitted
      ensures r.Ok? ==> Key(sd) in done && AllDoneFrom(emitted, |old(emitted)|, res, done)
      ensures Key(sd) in old(done) ==> r.Ok? && done == old(done) && emitted == old(emitted)
    {
      var name := sd.moduleName + "." + sd.decl.name;
      if name in done {
        return Ok(());
      }
      InUniverse(res, roots, sd);
      ghost var done0 := done;
      ghost var n0 := |emitted|;
      writer.Write(InsertRow(sd, declJson));
      done := done + {name};
      AppendDecl(emitted, sd, declJson);
      Seqs.AppendAssoc(base, Rows(emitted, declJson), [InsertRow(sd, declJson)]);
      DrawnAppend(emitted, sd, res, roots);
      emitted := emitted + [sd];
      r := InsertBody(sd.decl, done0, name);
      PrefixAppend(old(emitted), sd, emitted);
      if r.Err? {
        return;
      }
      AllDoneFromStep(emitted, n0, res, done);
    }

    /**
     * The switch on the kind of a declaration just written: the fields of a
     * struct or union, or the body of an alias or newtype, are walked.
     */
    method InsertBody(d: Decl, ghost done0: set<string>, ghost name: string) returns (r: Result<()>)
      requires Valid() && done0 + {name} <= done && name in universe && name !in done0
      modifies this, writer
      decreases |universe - done0|, 0, 0
      ensures Valid()
      ensures old(done) <= done && old(emitted) <= emitted
      ensures r.Ok? ==> AllDoneFrom(emitted, |old(emitted)|, res, done)
      ensures r.Ok? ==> DeclDone(d, res, done)
    {
      match d.type_ {
        case Struct(_, fields) =>
          r := InsertFields(fields, done0, name);
        case Union(_, fields) =>
          r := InsertFields(fields, done0, name);
        case TypeAlias(_, te) =>
          RemainingShrinks(universe, done0, done, name);
          r := InsertTypeExpr(te);
        case NewType(_, te, _) =>
          RemainingShrinks(universe, done0, done, name);
          r := InsertTypeExpr(te);
      }
    }

    /**
     * The loop over a struct's or union's fields, walking each field's type;
     * `name` is the declaration just marked done on top of `done0`.
     */
    method InsertFields(fields: seq<Field>, ghost done0: set<string>, ghost name: string) returns (r: Result<()>)
      requires Valid() && done0 + {name} <= done && name in universe && name !in done0
      modifies this, writer
      decreases |universe - done0|, 0, 0, fields
      ensures Valid()
      ensures old(done) <= done && old(emitted) <= emitted
      ensures r.Ok? ==> AllDoneFrom(emitted, |old(emitted)|, res, done)
      ensures r.Ok? ==> FieldsDone(fields, res, done)
    {
      var i := 0;
      while i < |fields|
        invariant 0 <= i <= |fields|
        invariant Valid()
        invariant old(done) <= done && old(emitted) <= emitted
        invariant AllDoneFrom(emitted, |old(emitted)|, res, done)
        invariant FieldsDone(fields[..i], res, done)
      {
        RemainingShrinks(universe, done0, done, name);
        ghost var d0 := done;
        ghost var e0 := emitted;
        r := InsertTypeExpr(fields[i].typeExpr);
        if r.Err? {
          return;
        }
        AllDoneFromSplit(e0, emitted, |old(emitted)|, res, d0, done);
        FieldsDoneGrows(fields[..i], res, d0, done);
        FieldsDoneStep(fields, i, res, done);
        i := i + 1;
      }
      assert fields[..i] == fields;
      return Ok(());
    }

    /**
     * insertTypeExpr: a reference is resolved and its declaration inserted;
     * then every type argument is walked. Primitives and type parameters
     * insert nothing themselves.
     */
    method InsertTypeExpr(t: TypeExpr) returns (r: Result<()>)
      requires Valid()
      modifies this, writer
      decreases |universe - done|, 1, t, 1
      ensures Valid()
      ensures old(done) <= done && old(emitted) <= emitted
      ensures r.Ok? ==> AllDoneFrom(emitted, |old(emitted)|, res, done)
      ensures r.Ok? ==> RefsDone(t, res, done)
    {
      if t.typeRef.Reference? {
        r := InsertRef(t, t.typeRef.ref);
        if r.Err? {
          return;
        }
      }
      RemainingNoGrowth(universe, old(done), done);
      ghost var d0 := done;
      ghost var e0 := emitted;
      r := InsertTypeArgs(t, t.parameters);
      if r.Ok? {
        AllDoneFromSplit(e0, emitted, |old(emitted)|, res, d0, done);
      }
      Seqs.PrefixTrans(old(emitted), e0, emitted);
    }

    /** A reference of `parent`: its declaration is resolved and inserted. */
    method InsertRef(ghost parent: TypeExpr, sn: ScopedName) returns (r: Result<()>)
      requires Valid()
      modifies this, writer
      decreases |universe - done|, 1, parent, 0
      ensures Valid()
      ensures old(done) <= done && old(emitted) <= emitted
      ensures r.Ok? ==> AllDoneFrom(emitted, |old(emitted)|, res, done)
      ensures r.Ok? ==> sn in res && Key(res[sn]) in done
      ensures r.Err? ==> sn !in res || Key(res[sn]) !in old(done)
    {
      var decl := Resolve(res, sn);
      if decl.Err? {
        return Err(decl.error);
      }
      assert decl.value in res.Values;
      r := InsertDecl(decl.value);
    }

    /** The loop over the type arguments of `parent`, walking each in turn. */
    method InsertTypeArgs(ghost parent: TypeExpr, ts: seq<TypeExpr>) returns (r: Result<()>)
      requires Valid() && ts == parent.parameters
      modifies this, writer
      decreases |universe - done|, 1, parent, 0
      ensures Valid()
      ensures old(done) <= done && old(emitted) <= emitted
      ensures r.Ok? ==> AllDoneFrom(emitted, |old(emitted)|, res, done)
      ensures r.Ok? ==> AllRefsDone(ts, res, done)
    {
      var i := 0;
      while i < |ts|
        invariant 0 <= i <= |ts|
        invariant Valid()
        invariant old(done) <= done && old(emitted) <= emitted
        invariant AllDoneFrom(emitted, |old(emitted)|, res, done)
        invariant AllRefsDone(ts[..i], res, done)
      {
        RemainingNoGrowth(universe, old(done), done);
        ghost var d0 := done;
        ghost var e0 := emitted;
        r := InsertTypeExpr(ts[i]);
        if r.Err? {
          return;
        }
        AllDoneFromSplit(e0, emitted, |old(emitted)|, res, d0, done);
        AllRefsDoneGrows(ts[..i], res, d0, done);
        AllRefsDoneStep(ts, i, res, done);
        i := i + 1;
      }
      assert ts[..i] == ts;
      return Ok(());
    }

    /**
     * `sdecls.forEach(insertDecl)` on a fresh walk: afterwards every root is
     * written, and every reference of a written declaration names a written
     * declaration.
     */
    method Run() returns (r: Result<()>)
      requires Valid() && emitted == []
      modifies this, writer
      ensures Valid()
      ensures r.Ok? ==> forall i :: 0 <= i < |roots| ==> Key(roots[i]) in done
      ensures r.Ok? ==> AllDoneFrom(emitted, 0, res, done)
    {
      var i := 0;
      while i < |roots|
        invariant 0 <= i <= |roots|
        invariant Valid()
        invariant AllDoneFrom(emitted, 0, res, done)
        invariant forall j :: 0 <= j < i ==> Key(roots[j]) in done
      {
        ghost var d0 := done;
        ghost var e0 := emitted;
        r := InsertDecl(roots[i]);
        if r.Err? {
          return;
        }
        AllDoneFromSplit(e0, emitted, 0, res, d0, done);
        RootsKept(roots, i, d0, done);
        i := i + 1;
      }
      return Ok(());
    }
  }

  /**
   * insertDecls: a fresh walk over the given roots. The writer receives one
   * row per written declaration and no qualified name twice; on success
   * every root is written, and every reference of a written declaration
   * names a written declaration.
   */
  method InsertDecls(res: Resolver, writer: FileWriter, declJson: Decl -> string, sdecls: seq<ScopedDecl>)
    returns (r: Result<()>, ghost emitted: seq<ScopedDecl>)
    modifies writer
    ensures writer.content == old(writer.content) + Rows(emitted, declJson)
    ensures forall i, j :: 0 <= i < j < |emitted| ==> Key(emitted[i]) != Key(emitted[j])
    ensures r.Ok? ==> forall i :: 0 <= i < |sdecls| ==> Key(sdecls[i]) in KeySet(emitted)
    ensures r.Ok? ==> AllDoneFrom(emitted, 0, res, KeySet(emitted))
    ensures forall i :: 0 <= i < |emitted| ==> emitted[i] in res.Values || emitted[i] in sdecls
  {
    var inserter := new DeclInserter(res, writer, declJson, sdecls);
    r := inserter.Run();
    emitted := inserter.emitted;
    UniqueKeysDistinct(emitted);
  }
}
