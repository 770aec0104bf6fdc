/**
 * The loader of the documentation generators: the declarations of the
 * requested modules that the optional filter accepts, bucketed by kind, and
 * the modules they come from.
 */
module DocLoad {
  import opened Adl
  import Seqs

  /** The four declaration kinds, one bucket each. */
  datatype Kind = StructKind | UnionKind | AliasKind | NewtypeKind

  function KindOf(sd: ScopedDecl): Kind {
    match sd.decl.type_
    case Struct(_, _) => StructKind
    case Union(_, _) => UnionKind
    case TypeAlias(_, _) => AliasKind
    case NewType(_, _, _) => NewtypeKind
  }

  datatype Resources = Resources(
    structs: seq<ScopedDecl>,
    unions: seq<ScopedDecl>,
    aliases: seq<ScopedDecl>,
    newtypes: seq<ScopedDecl>,
    moduleNames: seq<string>)

  /** The bucket of a kind. */
  function BucketOf(r: Resources, k: Kind): seq<ScopedDecl> {
    match k
    case StructKind => r.structs
    case UnionKind => r.unions
    case AliasKind => r.aliases
    case NewtypeKind => r.newtypes
  }

  /** `params.filter ?? acceptAll`, then the `adlModules` test. */
  predicate Accepted(sd: ScopedDecl, filter: Option<ScopedDecl -> bool>, adlModules: seq<string>) {
    (filter.None? || filter.value(sd)) && sd.moduleName in adlModules
  }

  function AcceptedBy(filter: Option<ScopedDecl -> bool>, adlModules: seq<string>): ScopedDecl -> bool {
    sd => Accepted(sd, filter, adlModules)
  }

  function InBucket(filter: Option<ScopedDecl -> bool>, adlModules: seq<string>, k: Kind): ScopedDecl -> bool {
    sd => Accepted(sd, filter, adlModules) && KindOf(sd) == k
  }

  /** The declarations of kind k that are bucketed, in visiting order. */
  function Bucket(decls: seq<ScopedDecl>, filter: Option<ScopedDecl -> bool>, adlModules: seq<string>, k: Kind)
    : seq<ScopedDecl>
  {
    Seqs.Filter(decls, InBucket(filter, adlModules, k))
  }

  function ModuleOf(sd: ScopedDecl): string {
    sd.moduleName
  }

  /** The modules of the bucketed declarations, each once, in first-seen order (a `Set`'s keys). */
  function ModuleNames(decls: seq<ScopedDecl>, filter: Option<ScopedDecl -> bool>, adlModules: seq<string>)
    : seq<string>
  {
    Seqs.Dedup(Seqs.Map(Seqs.Filter(decls, AcceptedBy(filter, adlModules)), ModuleOf))
  }

  /** Appends sd to the bucket of its kind. */
  function Push(r: Resources, sd: ScopedDecl): (r': Resources)
    ensures r'.moduleNames == r.moduleNames
    ensures forall k :: BucketOf(r', k) == if KindOf(sd) == k then BucketOf(r, k) + [sd] else BucketOf(r, k)
  {
    match sd.decl.type_
    case Struct(_, _) => r.(structs := r.structs + [sd])
    case Union(_, _) => r.(unions := r.unions + [sd])
    case TypeAlias(_, _) => r.(aliases := r.aliases + [sd])
    case NewType(_, _, _) => r.(newtypes := r.newtypes + [sd])
  }

  /** One accepted declaration: pushed to its bucket, its module added to the set if new. */
  function Add(r: Resources, sd: ScopedDecl): Resources {
    Push(r, sd).(moduleNames := if sd.moduleName in r.moduleNames then r.moduleNames else r.moduleNames + [sd.moduleName])
  }

  /** The resources after visiting decls in order. */
  function Loaded(decls: seq<ScopedDecl>, filter: Option<ScopedDecl -> bool>, adlModules: seq<string>): Resources {
    if |decls| == 0 then Resources([], [], [], [], [])
    else
      var r := Loaded(decls[..|decls| - 1], filter, adlModules);
      if Accepted(decls[|decls| - 1], filter, adlModules) then Add(r, decls[|decls| - 1]) else r
  }

  /** Visiting order gives each bucket exactly its accepted declarations of that kind. */
  lemma {:induction false} LoadedBuckets(decls: seq<ScopedDecl>, filter: Option<ScopedDecl -> bool>, adlModules: seq<string>, k: Kind)
    ensures BucketOf(Loaded(decls, filter, adlModules), k) == Bucket(decls, filter, adlModules, k)
  {
    if |decls| > 0 {
      var n := |decls| - 1;
      var sd := decls[n];
      LoadedBuckets(decls[..n], filter, adlModules, k);
      assert decls == decls[..n] + [sd];
      Seqs.FilterAppend(decls[..n], sd, InBucket(filter, adlModules, k));
    }
  }

  /** The module set collects the accepted declarations' modules in first-seen order. */
  lemma {:induction false} LoadedModules(decls: seq<ScopedDecl>, filter: Option<ScopedDecl -> bool>, adlModules: seq<string>)
    ensures Loaded(decls, filter, adlModules).moduleNames == ModuleNames(decls, filter, adlModules)
  {
    if |decls| > 0 {
      var n := |decls| - 1;
      var sd := decls[n];
      LoadedModules(decls[..n], filter, adlModules);
      assert decls == decls[..n] + [sd];
      var accepted := Seqs.Filter(decls[..n], AcceptedBy(filter, adlModules));
      Seqs.FilterAppend(decls[..n], sd, AcceptedBy(filter, adlModules));
      if Accepted(sd, filter, adlModules) {
        assert Seqs.Map(accepted + [sd], ModuleOf) == Seqs.Map(accepted, ModuleOf) + [sd.moduleName];
        Seqs.DedupAppend(Seqs.Map(accepted, ModuleOf), sd.moduleName);
        Seqs.DedupProperties(Seqs.Map(accepted, ModuleOf));
      }
    }
  }

  /**
   * `loadResources` after parsing, over the declarations `forEachDecl`
   * visits in order: each bucket holds the accepted declarations of its
   * kind, in order, and `moduleNames` their modules in first-seen order.
   */
  method LoadResources(decls: seq<ScopedDecl>, filter: Option<ScopedDecl -> bool>, adlModules: seq<string>)
    returns (r: Resources)
    ensures forall k :: BucketOf(r, k) == Bucket(decls, filter, adlModules, k)
    ensures r.moduleNames == ModuleNames(decls, filter, adlModules)
  {
    r := Resources([], [], [], [], []);
    var moduleSet: seq<string> := [];
    var i := 0;
    while i < |decls|
      invariant 0 <= i <= |decls|
      invariant r.(moduleNames := moduleSet) == Loaded(decls[..i], filter, adlModules)
      invariant r.moduleNames == []
    {
      var sd := decls[i];
      assert decls[..i + 1][..i] == decls[..i];
      var ok := filter.None? || filter.value(sd);
      if ok && sd.moduleName in adlModules {
        if sd.moduleName !in moduleSet {
          moduleSet := moduleSet + [sd.moduleName];
        }
        r := Push(r, sd);
      }
      i := i + 1;
    }
    assert decls[..i] == decls;
    r := r.(moduleNames := moduleSet);
    forall k ensures BucketOf(r, k) == Bucket(decls, filter, adlModules, k) {
      LoadedBuckets(decls, filter, adlModules, k);
    }
    LoadedModules(decls, filter, adlModules);
  }

  /** A bucket holds exactly the accepted declarations of its kind, so every one lands in one bucket only. */
  lemma BucketMembers(decls: seq<ScopedDecl>, filter: Option<ScopedDecl -> bool>, adlModules: seq<string>,
                      k: Kind, sd: ScopedDecl)
    ensures sd in Bucket(decls, filter, adlModules, k) <==> sd in decls && Accepted(sd, filter, adlModules) && KindOf(sd) == k
  {
    var b := Bucket(decls, filter, adlModules, k);
    if sd in b {
      var i :| 0 <= i < |b| && b[i] == sd;
    }
    if sd in decls && Accepted(sd, filter, adlModules) && KindOf(sd) == k {
      var i :| 0 <= i < |decls| && decls[i] == sd;
      assert InBucket(filter, adlModules, k)(decls[i]);
    }
  }

  /** A declaration rejected by the filter or outside `adlModules` is in no bucket. */
  lemma RejectedNotBucketed(decls: seq<ScopedDecl>, filter: Option<ScopedDecl -> bool>, adlModules: seq<string>,
                            sd: ScopedDecl)
    requires (filter.Some? && !filter.value(sd)) || sd.moduleName !in adlModules
    ensures forall k :: sd !in Bucket(decls, filter, adlModules, k)
  {
    forall k ensures sd !in Bucket(decls, filter, adlModules, k) {
      BucketMembers(decls, filter, adlModules, k, sd);
    }
  }

  /** The four buckets together are as long as the accepted declarations: nothing is lost or doubled. */
  lemma {:induction false} BucketsPartition(decls: seq<ScopedDecl>, filter: Option<ScopedDecl -> bool>, adlModules: seq<string>)
    ensures |Bucket(decls, filter, adlModules, StructKind)| + |Bucket(decls, filter, adlModules, UnionKind)|
            + |Bucket(decls, filter, adlModules, AliasKind)| + |Bucket(decls, filter, adlModules, NewtypeKind)|
            == |Seqs.Filter(decls, AcceptedBy(filter, adlModules))|
  {
    if |decls| > 0 {
      var n := |decls| - 1;
      var sd := decls[n];
      BucketsPartition(decls[..n], filter, adlModules);
      assert decls == decls[..n] + [sd];
      Seqs.FilterAppend(decls[..n], sd, AcceptedBy(filter, adlModules));
      Seqs.FilterAppend(decls[..n], sd, InBucket(filter, adlModules, StructKind));
      Seqs.FilterAppend(decls[..n], sd, InBucket(filter, adlModules, UnionKind));
      Seqs.FilterAppend(decls[..n], sd, InBucket(filter, adlModules, AliasKind));
      Seqs.FilterAppend(decls[..n], sd, InBucket(filter, adlModules, NewtypeKind));
    }
  }

  /**
   * Each bucket keeps visiting order: its entries sit at strictly
   * increasing positions of the visited declarations.
   */
  lemma BucketOrder(decls: seq<ScopedDecl>, filter: Option<ScopedDecl -> bool>, adlModules: seq<string>, k: Kind)
    returns (pos: seq<nat>)
    ensures var b := Bucket(decls, filter, adlModules, k);
            && |pos| == |b|
            && (forall j :: 0 <= j < |pos| ==> pos[j] < |decls| && decls[pos[j]] == b[j])
            && (forall j, l :: 0 <= j < l < |pos| ==> pos[j] < pos[l])
  {
    pos := Seqs.FilterPositions(decls, InBucket(filter, adlModules, k));
  }

  /** `moduleNames` lists each module of a bucketed declaration once, and no other. */
  lemma ModuleNamesExact(decls: seq<ScopedDecl>, filter: Option<ScopedDecl -> bool>, adlModules: seq<string>, mn: string)
    ensures Seqs.Distinct(ModuleNames(decls, filter, adlModules))
    ensures mn in ModuleNames(decls, filter, adlModules) <==>
            exists i :: 0 <= i < |decls| && Accepted(decls[i], filter, adlModules) && decls[i].moduleName == mn
  {
    var accepted := Seqs.Filter(decls, AcceptedBy(filter, adlModules));
    var names := Seqs.Map(accepted, ModuleOf);
    Seqs.DedupProperties(names);
    if mn in names {
      var j :| 0 <= j < |names| && names[j] == mn;
      assert accepted[j] in decls && AcceptedBy(filter, adlModules)(accepted[j]);
      var i :| 0 <= i < |decls| && decls[i] == accepted[j];
    }
    if exists i :: 0 <= i < |decls| && Accepted(decls[i], filter, adlModules) && decls[i].moduleName == mn {
      var i :| 0 <= i < |decls| && Accepted(decls[i], filter, adlModules) && decls[i].moduleName == mn;
      assert AcceptedBy(filter, adlModules)(decls[i]);
      assert decls[i] in accepted;
      var j :| 0 <= j < |accepted| && accepted[j] == decls[i];
      assert names[j] == mn;
    }
  }
}
