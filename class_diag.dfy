/**
 * The Mermaid class-diagram generator: which declarations are in focus,
 * how a field's cardinality is read, which fields become arrows, the order
 * arrows are drawn in, the diagram identifiers, and the lines written.
 */
module ClassDiag {
  import opened Adl
  import Text
  import Seqs
  import DbUtils

  const RepresentedByKey := ScopedName("common.mspec", "RepresentedBy")
  const HideRealizationKey := ScopedName("common.mspec", "HideRealization")
  const EmbedKey := ScopedName("common.mspec", "Embed")
  const ArrowIdxKey := ScopedName("common.mspec", "ArrowIdx")
  const DiagramOptionsKey := ScopedName("common.mspec", "DiagramOptions")
  /** The Hidden annotation; its definition is not part of this model. */
  const HiddenKey := ScopedName("common.mspec", "Hidden")

  /** The generator parameters the diagram rules read. */
  datatype Params = Params(focusModules: Option<seq<string>>, adlModules: seq<string>)

  // ---------------------------------------------------------------------
  // Focus

  /** `ifm`: focus modules were given and the list is not empty. */
  predicate InFocusMode(p: Params) {
    p.focusModules.Some? && |p.focusModules.value| > 0
  }

  /** `iif`: whether a module is in focus. */
  predicate Iif(p: Params, moduleName: string) {
    if InFocusMode(p) && moduleName !in p.focusModules.value then false else true
  }

  /** `iim`: whether a module is one of the requested ADL modules. */
  predicate Iim(p: Params, moduleName: string) {
    moduleName in p.adlModules
  }

  /** Without focus modules every module is in focus; with them, exactly the listed ones. */
  lemma IifMeaning(p: Params, moduleName: string)
    ensures !InFocusMode(p) ==> Iif(p, moduleName)
    ensures InFocusMode(p) ==> (Iif(p, moduleName) <==> moduleName in p.focusModules.value)
  {
  }

  // ---------------------------------------------------------------------
  // Diagram identifiers

  /** The module name with every "." replaced by "_". */
  function ModulePrefix(moduleName: string): (r: string)
    ensures |r| == |moduleName| && '.' !in r
    ensures forall i :: 0 <= i < |r| ==> r[i] == if moduleName[i] == '.' then '_' else moduleName[i]
  {
    var r := Text.ReplaceAll(moduleName, '.', '_');
    assert forall i :: 0 <= i < |r| ==> r[i] != '.';
    r
  }

  /** The RepresentedBy annotation when it is a non-empty string (a truthy value). */
  function RepresentedBy(sd: ScopedDecl): Option<string> {
    match StringAnnotation(sd.decl.annotations, RepresentedByKey)
    case Some(s) => if s != "" then Some(s) else None
    case None => None
  }

  /** `mndn2mcd`: the diagram id of a declaration. */
  function Mndn2mcd(sd: ScopedDecl): string {
    ModulePrefix(sd.moduleName) + "_" + (if RepresentedBy(sd).Some? then RepresentedBy(sd).value else sd.decl.name)
  }

  /** `sn2mcd`: the diagram id of a scoped name. */
  function Sn2mcd(sn: ScopedName): string {
    ModulePrefix(sn.moduleName) + "_" + sn.name
  }

  /**
   * An id is the module name with its dots turned into "_", then "_", then the
   * RepresentedBy value or else the declaration name; so a declaration without
   * RepresentedBy has the id of its own scoped name.
   */
  lemma IdShape(sd: ScopedDecl)
    ensures var id := Mndn2mcd(sd); var n := |sd.moduleName|;
            |id| > n && id[n] == '_'
            && (forall i :: 0 <= i < n ==> id[i] != '.' && (sd.moduleName[i] != '.' ==> id[i] == sd.moduleName[i]))
            && id[n + 1..] == (if RepresentedBy(sd).Some? then RepresentedBy(sd).value else sd.decl.name)
    ensures RepresentedBy(sd).None? ==> Mndn2mcd(sd) == Sn2mcd(NameOf(sd))
  {
    var id := Mndn2mcd(sd);
    var pre := ModulePrefix(sd.moduleName);
    assert id == pre + "_" + (if RepresentedBy(sd).Some? then RepresentedBy(sd).value else sd.decl.name);
    assert id[..|pre|] == pre;
  }

  /** Mangling is not injective: the module names "a.b" and "a_b" give the same ids. */
  lemma IdsCanCollide()
    ensures ScopedName("a.b", "c") != ScopedName("a_b", "c")
    ensures Sn2mcd(ScopedName("a.b", "c")) == Sn2mcd(ScopedName("a_b", "c")) == "a_b_c"
  {
    assert ModulePrefix("a.b") == "a_b";
    assert ModulePrefix("a_b") == "a_b";
  }

  // ---------------------------------------------------------------------
  // Field cardinality

  /** What `get_fields` reads off a field. */
  datatype FieldCard = FieldCard(typeRef: TypeRef, card: string, fcard: string, hidden: bool, embed: bool)

  const ListCard := "\"list\""
  const OptionalCard := "\"optional\""
  /** The list decoration; it ends in the emoji variation selector U+FE0F. */
  const ListDecoration := " 0..*\U{FE0F}"
  const OptionalDecoration := " ?"

  /** `typeRef.value === s`: a primitive or a type parameter of that name. */
  predicate ValueIs(t: TypeRef, s: string) {
    match t
    case Primitive(p) => p == s
    case TypeParam(p) => p == s
    case Reference(_) => false
  }

  predicate IsWrapper(t: TypeExpr) {
    t.typeRef == Primitive("Vector") || t.typeRef == Primitive("Nullable")
  }

  /**
   * `get_fields`: unwraps at most one Vector or Nullable from the field's own
   * type. The Nullable test looks at the type after the Vector step, but both
   * steps take the field's first argument.
   */
  function GetFields(f: Field): (r: Result<FieldCard>)
    ensures r.Err? <==> IsWrapper(f.typeExpr) && |f.typeExpr.parameters| == 0
    ensures r.Err? ==> r.error == MissingTypeArgument
    ensures r.Ok? ==> r.value.hidden == HasAnnotation(f.annotations, HiddenKey)
                      && r.value.embed == HasAnnotation(f.annotations, EmbedKey)
    ensures r.Ok? && r.value.card == "" ==> r.value.typeRef == f.typeExpr.typeRef && r.value.fcard == ""
    ensures r.Ok? && r.value.card != "" ==> |f.typeExpr.parameters| > 0 && r.value.typeRef == f.typeExpr.parameters[0].typeRef
  {
    var te := f.typeExpr;
    var hidden := HasAnnotation(f.annotations, HiddenKey);
    var embed := HasAnnotation(f.annotations, EmbedKey);
    if !te.typeRef.Primitive? then Ok(FieldCard(te.typeRef, "", "", hidden, embed))
    else if IsWrapper(te) && |te.parameters| == 0 then Err(MissingTypeArgument)
    else
      var (t1, c1, d1) :=
        if te.typeRef.prim == "Vector" then (te.parameters[0].typeRef, ListCard, ListDecoration)
        else (te.typeRef, "", "");
      var (t2, c2, d2) :=
        if ValueIs(t1, "Nullable") then (te.parameters[0].typeRef, OptionalCard, OptionalDecoration)
        else (t1, c1, d1);
      Ok(FieldCard(t2, c2, d2, hidden, embed))
  }

  /** `Vector<T>` for a T that is not Nullable: T's reference, "list", " 0..*". */
  lemma GetFieldsVector(f: Field)
    requires f.typeExpr.typeRef == Primitive("Vector") && |f.typeExpr.parameters| > 0
    requires !ValueIs(f.typeExpr.parameters[0].typeRef, "Nullable")
    ensures GetFields(f).Ok?
    ensures GetFields(f).value.typeRef == f.typeExpr.parameters[0].typeRef
    ensures GetFields(f).value.card == ListCard && GetFields(f).value.fcard == ListDecoration
  {
  }

  /** `Nullable<T>`: T's reference, "optional", " ?". */
  lemma GetFieldsNullable(f: Field)
    requires f.typeExpr.typeRef == Primitive("Nullable") && |f.typeExpr.parameters| > 0
    ensures GetFields(f).Ok?
    ensures GetFields(f).value.typeRef == f.typeExpr.parameters[0].typeRef
    ensures GetFields(f).value.card == OptionalCard && GetFields(f).value.fcard == OptionalDecoration
  {
  }

  /** `Vector<Nullable<T>>` reads as "optional" and its reference stays the Nullable. */
  lemma GetFieldsVectorOfNullable(f: Field)
    requires f.typeExpr.typeRef == Primitive("Vector") && |f.typeExpr.parameters| > 0
    requires f.typeExpr.parameters[0].typeRef == Primitive("Nullable")
    ensures GetFields(f).Ok?
    ensures GetFields(f).value.typeRef == Primitive("Nullable")
    ensures GetFields(f).value.card == OptionalCard && GetFields(f).value.fcard == OptionalDecoration
  {
  }

  /** Any other type is read as it stands, with no cardinality. */
  lemma GetFieldsPlain(f: Field)
    requires !IsWrapper(f.typeExpr)
    ensures GetFields(f).Ok?
    ensures GetFields(f).value.typeRef == f.typeExpr.typeRef
    ensures GetFields(f).value.card == "" && GetFields(f).value.fcard == ""
  {
  }

  // ---------------------------------------------------------------------
  // Arrows and their order

  datatype Arrow = Arrow(
    sd: ScopedDecl,
    to_: ScopedName,
    card: string,
    arrow: string,
    comment: string,
    name: string,
    nameDecoration: string,
    idx: Option<int>)

  /** The ArrowIdx annotation of a field, when it is a number. */
  function ArrowIdx(f: Field): Option<int> {
    match GetAnnotation(f.annotations, ArrowIdxKey)
    case Some(JNumber(n)) => Some(n)
    case _ => None
  }

  /** The comparator `arrows.sort` is given, on the two arrows' indices. */
  function CompareIdx(a: Option<int>, b: Option<int>): int {
    if a.None? && b.None? then 0
    else if a.None? then 1
    else if b.None? then -1
    else if a.value < 0 && b.value < 0 then a.value - b.value
    else if a.value < 0 then -1
    else if b.value < 0 then 1
    else a.value - b.value
  }

  /** Negative indices, then non-negative ones, then no index. */
  function Group(i: Option<int>): nat {
    if i.None? then 2 else if i.value < 0 then 0 else 1
  }

  /** The intended drawing order: by group, then by index within a group. */
  predicate Precedes(a: Option<int>, b: Option<int>) {
    Group(a) < Group(b) || (Group(a) == Group(b) && a.Some? && b.Some? && a.value < b.value)
  }

  /** The comparator orders indices exactly as Precedes does, and is antisymmetric. */
  lemma CompareAgreesWithOrder(a: Option<int>, b: Option<int>)
    ensures CompareIdx(a, b) < 0 <==> Precedes(a, b)
    ensures CompareIdx(a, b) == 0 <==> a == b
    ensures CompareIdx(a, b) > 0 <==> Precedes(b, a)
    ensures CompareIdx(a, b) == -CompareIdx(b, a)
  {
  }

  /** Precedes is a strict total order on indices. */
  lemma PrecedesIsStrictTotalOrder(a: Option<int>, b: Option<int>, c: Option<int>)
    ensures !Precedes(a, a)
    ensures Precedes(a, b) && Precedes(b, c) ==> Precedes(a, c)
    ensures a != b ==> Precedes(a, b) || Precedes(b, a)
  {
  }

  predicate SortedByIdx(s: seq<Arrow>) {
    forall i, j :: 0 <= i < j < |s| ==> !Precedes(s[j].idx, s[i].idx)
  }

  /** x inserted into s after every arrow the comparator does not put after x. */
  function InsertArrow(x: Arrow, s: seq<Arrow>): seq<Arrow> {
    if |s| == 0 then [x]
    else if CompareIdx(s[|s| - 1].idx, x.idx) > 0 then InsertArrow(x, s[..|s| - 1]) + [s[|s| - 1]]
    else s + [x]
  }

  /** The stable sort by the comparator, as insertion of each arrow in turn. */
  function SortedArrows(s: seq<Arrow>): seq<Arrow> {
    if |s| == 0 then [] else InsertArrow(s[|s| - 1], SortedArrows(s[..|s| - 1]))
  }

  /** The arrows of s with the given index, in order. */
  function WithIdx(s: seq<Arrow>, v: Option<int>): seq<Arrow> {
    if |s| == 0 then []
    else WithIdx(s[..|s| - 1], v) + (if s[|s| - 1].idx == v then [s[|s| - 1]] else [])
  }

  lemma WithIdxAppend(s: seq<Arrow>, x: Arrow, v: Option<int>)
    ensures WithIdx(s + [x], v) == WithIdx(s, v) + (if x.idx == v then [x] else [])
  {
    assert (s + [x])[..|s|] == s;
  }

  lemma {:induction false} InsertArrowPermutes(x: Arrow, s: seq<Arrow>)
    ensures multiset(InsertArrow(x, s)) == multiset(s) + multiset{x}
  {
    if |s| > 0 && CompareIdx(s[|s| - 1].idx, x.idx) > 0 {
      var p := s[..|s| - 1];
      InsertArrowPermutes(x, p);
      assert s == p + [s[|s| - 1]];
    }
  }

  lemma {:induction false} InsertArrowSorted(x: Arrow, s: seq<Arrow>)
    requires SortedByIdx(s)
    ensures SortedByIdx(InsertArrow(x, s))
  {
    if |s| > 0 {
      var last := s[|s| - 1];
      var p := s[..|s| - 1];
      CompareAgreesWithOrder(last.idx, x.idx);
      if CompareIdx(last.idx, x.idx) > 0 {
        InsertArrowSorted(x, p);
        InsertArrowPermutes(x, p);
        var q := InsertArrow(x, p);
        forall i | 0 <= i < |q|
          ensures !Precedes(last.idx, q[i].idx)
        {
          assert q[i] in multiset(q);
          if q[i] != x {
            assert q[i] in multiset(p);
            var k :| 0 <= k < |p| && p[k] == q[i];
            assert s[k] == p[k];
          }
          PrecedesIsStrictTotalOrder(last.idx, q[i].idx, x.idx);
        }
      } else {
        forall i | 0 <= i < |s|
          ensures !Precedes(x.idx, s[i].idx)
        {
          PrecedesIsStrictTotalOrder(x.idx, s[i].idx, last.idx);
        }
      }
    }
  }

  /** Inserting keeps the arrows of every index in their previous order. */
  lemma {:induction false} InsertArrowStable(x: Arrow, s: seq<Arrow>, v: Option<int>)
    ensures WithIdx(InsertArrow(x, s), v) == WithIdx(s, v) + (if x.idx == v then [x] else [])
  {
    if |s| == 0 {
      WithIdxAppend([], x, v);
    } else {
      var last := s[|s| - 1];
      var p := s[..|s| - 1];
      assert s == p + [last];
      if CompareIdx(last.idx, x.idx) > 0 {
        CompareAgreesWithOrder(last.idx, x.idx);
        InsertArrowStable(x, p, v);
        WithIdxAppend(InsertArrow(x, p), last, v);
        WithIdxAppend(p, last, v);
      } else {
        WithIdxAppend(s, x, v);
      }
    }
  }

  /**
   * The sorted arrows are the same arrows, in comparator order, and arrows
   * with equal indices keep their collection order (the sort is stable).
   */
  lemma {:induction false} SortedArrowsProperties(s: seq<Arrow>)
    ensures multiset(SortedArrows(s)) == multiset(s)
    ensures SortedByIdx(SortedArrows(s))
    ensures forall v :: WithIdx(SortedArrows(s), v) == WithIdx(s, v)
  {
    if |s| > 0 {
      var p := s[..|s| - 1];
      var last := s[|s| - 1];
      assert s == p + [last];
      SortedArrowsProperties(p);
      InsertArrowPermutes(last, SortedArrows(p));
      InsertArrowSorted(last, SortedArrows(p));
      forall v
        ensures WithIdx(SortedArrows(s), v) == WithIdx(s, v)
      {
        InsertArrowStable(last, SortedArrows(p), v);
        WithIdxAppend(p, last, v);
      }
    }
  }

  /** Inserts a[i] into the sorted prefix a[..i], shifting larger arrows right. */
  method InsertInPlace(a: array<Arrow>, i: nat)
    requires i < a.Length
    modifies a
    ensures a[..i + 1] == InsertArrow(old(a[i]), old(a[..i]))
    ensures a[i + 1..] == old(a[i + 1..])
  {
    var x := a[i];
    ghost var p := a[..i];
    ghost var rest := a[i + 1..];
    assert a[..] == p + [x] + rest;
    assert p[..i] == p && p[i..] == [];
    var j := i;
    while j > 0 && CompareIdx(a[j - 1].idx, x.idx) > 0
      invariant 0 <= j <= i
      invariant a[..] == p[..j] + [a[j]] + p[j..] + rest
      invariant InsertArrow(x, p) == InsertArrow(x, p[..j]) + p[j..]
      decreases j
    {
      assert a[j - 1] == p[j - 1];
      InsertShift(x, p, j);
      ShiftRight(p, rest, a[j], j);
      ghost var before := a[..];
      a[j] := a[j - 1];
      assert a[..] == before[j := p[j - 1]];
      j := j - 1;
    }
    InsertStop(x, p, j);
    Place(p, rest, a[j], x, j);
    ghost var before := a[..];
    a[j] := x;
    assert a[..] == before[j := x];
    assert a[..i + 1] == a[..][..i + 1] && a[i + 1..] == a[..][i + 1..];
  }

  /** One more arrow of the sorted prefix moves past x. */
  lemma InsertShift(x: Arrow, p: seq<Arrow>, j: nat)
    requires 0 < j <= |p| && CompareIdx(p[j - 1].idx, x.idx) > 0
    requires InsertArrow(x, p) == InsertArrow(x, p[..j]) + p[j..]
    ensures InsertArrow(x, p) == InsertArrow(x, p[..j - 1]) + p[j - 1..]
  {
    assert p[..j][..j - 1] == p[..j - 1];
    assert InsertArrow(x, p[..j]) == InsertArrow(x, p[..j - 1]) + [p[j - 1]];
    assert [p[j - 1]] + p[j..] == p[j - 1..];
    Seqs.AppendAssoc(InsertArrow(x, p[..j - 1]), [p[j - 1]], p[j..]);
  }

  /** x stays after an arrow that does not compare greater. */
  lemma InsertStop(x: Arrow, p: seq<Arrow>, j: nat)
    requires j <= |p| && (j == 0 || CompareIdx(p[j - 1].idx, x.idx) <= 0)
    ensures InsertArrow(x, p[..j]) == p[..j] + [x]
  {
  }

  lemma ShiftRight(p: seq<Arrow>, rest: seq<Arrow>, c: Arrow, j: nat)
    requires 0 < j <= |p|
    ensures (p[..j] + [c] + p[j..] + rest)[j := p[j - 1]] == p[..j - 1] + [p[j - 1]] + p[j - 1..] + rest
  {
  }

  lemma Place(p: seq<Arrow>, rest: seq<Arrow>, c: Arrow, x: Arrow, j: nat)
    requires j <= |p|
    ensures var t := (p[..j] + [c] + p[j..] + rest)[j := x];
            t[..|p| + 1] == p[..j] + [x] + p[j..] && t[|p| + 1..] == rest
  {
  }

  /** `arrows.sort(...)` on the array itself: insertion sort, stable like the sort it models. */
  method SortInPlace(a: array<Arrow>)
    modifies a
    ensures a[..] == SortedArrows(old(a[..]))
  {
    ghost var s := a[..];
    var i := 0;
    while i < a.Length
      invariant 0 <= i <= a.Length
      invariant a[..i] == SortedArrows(s[..i])
      invariant a[i..] == s[i..]
    {
      Seqs.PrefixStep(s, i);
      assert a[i] == s[i];
      InsertInPlace(a, i);
      i := i + 1;
    }
    assert s[..a.Length] == s;
  }

  // ---------------------------------------------------------------------
  // Walking declarations

  /** One call of a field callback: a struct or union and one of its fields. */
  datatype Visit = Visit(sd: ScopedDecl, f: Field)

  predicate HasFields(sd: ScopedDecl) {
    sd.decl.type_.Struct? || sd.decl.type_.Union?
  }

  function FieldVisits(sd: ScopedDecl, fields: seq<Field>): (r: seq<Visit>)
    ensures |r| == |fields| && forall i :: 0 <= i < |r| ==> r[i] == Visit(sd, fields[i])
  {
    seq(|fields|, i requires 0 <= i < |fields| => Visit(sd, fields[i]))
  }

  /**
   * `iter_sd`: the field callbacks one declaration leads to. A struct or
   * union visits its own fields in order; an alias or newtype whose body is a
   * reference is followed to the referenced declaration; any other body visits
   * nothing. The walk has no cycle guard: fuel bounds it.
   */
  function IterSd(declMap: Resolver, sd: ScopedDecl, fuel: nat): (r: Result<seq<Visit>>)
    ensures HasFields(sd) ==> r == Ok(FieldVisits(sd, sd.decl.type_.fields))
    ensures !HasFields(sd) && !sd.decl.type_.typeExpr.typeRef.Reference? ==> r == Ok([])
    ensures r.Ok? ==> forall i :: 0 <= i < |r.value| ==>
                        HasFields(r.value[i].sd) && r.value[i].f in r.value[i].sd.decl.type_.fields
    ensures r.Err? ==> r.error == OutOfFuel || r.error.UnknownDecl?
    decreases fuel
  {
    if HasFields(sd) then Ok(FieldVisits(sd, sd.decl.type_.fields))
    else
      var te := sd.decl.type_.typeExpr;
      if !te.typeRef.Reference? then Ok([])
      else if fuel == 0 then Err(OutOfFuel)
      else
        var target :- Resolve(declMap, te.typeRef.ref);
        IterSd(declMap, target, fuel - 1)
  }

  // ---------------------------------------------------------------------
  // Arrow collection

  function MakeArrow(sd: ScopedDecl, f: Field, fc: FieldCard, arrow: string): Arrow
    requires fc.typeRef.Reference?
  {
    Arrow(sd, fc.typeRef.ref, fc.card, arrow, "", f.name, fc.fcard, ArrowIdx(f))
  }

  /**
   * `collect_arrow_field` without its effects: the arrow one field adds, if
   * any. Only a reference from an in-focus declaration to a declaration of one
   * of the ADL modules is drawn, and not when the target is Hidden or when a
   * union field is marked HideRealization.
   */
  function ArrowOf(p: Params, declMap: Resolver, sd: ScopedDecl, f: Field): (r: Result<Option<Arrow>>)
    ensures GetFields(f).Err? ==> r == Err(GetFields(f).error)
    ensures r.Ok? && r.value.Some? ==>
              var a := r.value.value; var fc := GetFields(f).value;
              && fc.typeRef == Reference(a.to_)
              && Iif(p, sd.moduleName) && Iim(p, a.to_.moduleName)
              && a.to_ in declMap && !HasAnnotation(declMap[a.to_].decl.annotations, HiddenKey)
              && a.sd == sd && a.name == f.name && a.card == fc.card && a.nameDecoration == fc.fcard
              && a.idx == ArrowIdx(f) && a.comment == ""
              && (sd.decl.type_.Struct? ==> a.arrow == if fc.embed then "--|>" else "-->")
              && (sd.decl.type_.Union? ==> a.arrow == "<|.." && !HasAnnotation(f.annotations, HideRealizationKey))
              && (!HasFields(sd) ==> a.arrow == "")
    ensures GetFields(f).Ok? && GetFields(f).value.typeRef.Reference? ==>
              var to_ := GetFields(f).value.typeRef.ref;
              && (Iif(p, sd.moduleName) && Iim(p, to_.moduleName) && to_ !in declMap ==> r == Err(UnknownDecl(to_)))
              && (Iif(p, sd.moduleName) && Iim(p, to_.moduleName) && to_ in declMap
                  && !HasAnnotation(declMap[to_].decl.annotations, HiddenKey)
                  && !(sd.decl.type_.Union? && HasAnnotation(f.annotations, HideRealizationKey))
                  ==> r.Ok? && r.value.Some?)
    ensures GetFields(f).Ok? && !GetFields(f).value.typeRef.Reference? ==> r == Ok(None)
  {
    var fc :- GetFields(f);
    if !fc.typeRef.Reference? then Ok(None)
    else
      var to_ := fc.typeRef.ref;
      if !(Iif(p, sd.moduleName) && Iim(p, to_.moduleName)) then Ok(None)
      else
        var toDecl :- Resolve(declMap, to_);
        if HasAnnotation(toDecl.decl.annotations, HiddenKey) then Ok(None)
        else
          match sd.decl.type_
          case Struct(_, _) => Ok(Some(MakeArrow(sd, f, fc, if fc.embed then "--|>" else "-->")))
          case Union(_, _) =>
            if HasAnnotation(f.annotations, HideRealizationKey) then Ok(None)
            else Ok(Some(MakeArrow(sd, f, fc, "<|..")))
          case _ => Ok(Some(MakeArrow(sd, f, fc, "")))
  }

  function ArrowList(o: Option<Arrow>): seq<Arrow> {
    if o.Some? then [o.value] else []
  }

  /** The arrows of a list of field callbacks, in order; the first failure aborts. */
  function CollectedArrows(p: Params, declMap: Resolver, vs: seq<Visit>): Result<seq<Arrow>> {
    if |vs| == 0 then Ok([])
    else
      var n := |vs| - 1;
      var init :- CollectedArrows(p, declMap, vs[..n]);
      var last :- ArrowOf(p, declMap, vs[n].sd, vs[n].f);
      Ok(init + ArrowList(last))
  }

  lemma CollectedArrowsStep(p: Params, declMap: Resolver, vs: seq<Visit>, j: nat, acc: seq<Arrow>)
    requires j < |vs| && CollectedArrows(p, declMap, vs[..j]) == Ok(acc)
    ensures var o := ArrowOf(p, declMap, vs[j].sd, vs[j].f);
            && (o.Err? ==> CollectedArrows(p, declMap, vs[..j + 1]) == Err(o.error))
            && (o.Ok? ==> CollectedArrows(p, declMap, vs[..j + 1]) == Ok(acc + ArrowList(o.value)))
  {
    Seqs.PrefixStep(vs, j);
  }

  lemma {:induction false} CollectedArrowsStopsAtError(p: Params, declMap: Resolver, vs: seq<Visit>, k: nat)
    requires k <= |vs| && CollectedArrows(p, declMap, vs[..k]).Err?
    ensures CollectedArrows(p, declMap, vs) == CollectedArrows(p, declMap, vs[..k])
    decreases |vs| - k
  {
    if k < |vs| {
      assert vs[..k + 1][..k] == vs[..k];
      CollectedArrowsStopsAtError(p, declMap, vs, k + 1);
    } else {
      assert vs[..k] == vs;
    }
  }

  /** Every collected arrow comes from an in-focus declaration and goes to a visible declaration of the ADL modules. */
  predicate Drawable(p: Params, declMap: Resolver, a: Arrow) {
    Iif(p, a.sd.moduleName) && Iim(p, a.to_.moduleName)
    && a.to_ in declMap && !HasAnnotation(declMap[a.to_].decl.annotations, HiddenKey)
  }

  lemma {:induction false} CollectedArrowsDrawable(p: Params, declMap: Resolver, vs: seq<Visit>)
    ensures CollectedArrows(p, declMap, vs).Ok? ==>
              forall i :: 0 <= i < |CollectedArrows(p, declMap, vs).value| ==>
                Drawable(p, declMap, CollectedArrows(p, declMap, vs).value[i])
  {
    var c := CollectedArrows(p, declMap, vs);
    if |vs| > 0 && c.Ok? {
      var n := |vs| - 1;
      CollectedArrowsDrawable(p, declMap, vs[..n]);
      var ci := CollectedArrows(p, declMap, vs[..n]);
      var o := ArrowOf(p, declMap, vs[n].sd, vs[n].f);
      assert ci.Ok? && o.Ok?;
      var init := ci.value;
      var last := o.value;
      assert c.value == init + ArrowList(last);
      forall i | 0 <= i < |c.value|
        ensures Drawable(p, declMap, c.value[i])
      {
        if i < |init| {
          assert c.value[i] == init[i];
        } else {
          assert last.Some? && c.value[i] == last.value;
        }
      }
    }
  }

  /** Every field whose arrow was drawn finds that arrow among the collected ones. */
  lemma {:induction false} CollectedArrowsContain(p: Params, declMap: Resolver, vs: seq<Visit>, i: nat)
    requires i < |vs| && CollectedArrows(p, declMap, vs).Ok?
    ensures var o := ArrowOf(p, declMap, vs[i].sd, vs[i].f);
            o.Ok? && (o.value.Some? ==> o.value.value in CollectedArrows(p, declMap, vs).value)
  {
    var n := |vs| - 1;
    if i < n {
      Seqs.PrefixStep(vs, i);
      assert vs[..n][i] == vs[i];
      CollectedArrowsContain(p, declMap, vs[..n], i);
    }
  }

  /** The targets `capture_deps` appends to `xfocus_out` for one arrow's pair. */
  function CrossingOut(p: Params, from: string, to_: ScopedName): seq<ScopedName> {
    if Iif(p, from) && !Iif(p, to_.moduleName) then [to_] else []
  }

  /** `xfocus_out` after the given arrows were captured, in capture order. */
  function OutTargets(p: Params, arrows: seq<Arrow>): seq<ScopedName> {
    if |arrows| == 0 then []
    else
      var n := |arrows| - 1;
      OutTargets(p, arrows[..n]) + CrossingOut(p, arrows[n].sd.moduleName, arrows[n].to_)
  }

  lemma {:induction false} OutTargetsAppend(p: Params, a: seq<Arrow>, b: seq<Arrow>)
    ensures OutTargets(p, a + b) == OutTargets(p, a) + OutTargets(p, b)
    decreases |b|
  {
    if |b| == 0 {
      assert a + b == a;
    } else {
      var n := |b| - 1;
      var ab := a + b;
      assert ab[..|ab| - 1] == a + b[..n];
      assert ab[|ab| - 1] == b[n];
      OutTargetsAppend(p, a, b[..n]);
      Seqs.AppendAssoc(OutTargets(p, a), OutTargets(p, b[..n]), CrossingOut(p, b[n].sd.moduleName, b[n].to_));
    }
  }

  /**
   * For arrows from in-focus declarations, `xfocus_out` holds exactly the
   * targets outside the focus.
   */
  lemma {:induction false} OutTargetsMembers(p: Params, arrows: seq<Arrow>, x: ScopedName)
    requires forall i :: 0 <= i < |arrows| ==> Iif(p, arrows[i].sd.moduleName)
    ensures x in OutTargets(p, arrows) <==>
            !Iif(p, x.moduleName) && exists i :: 0 <= i < |arrows| && arrows[i].to_ == x
  {
    if |arrows| > 0 {
      var n := |arrows| - 1;
      OutTargetsMembers(p, arrows[..n], x);
      if !Iif(p, x.moduleName) && (exists i :: 0 <= i < |arrows| && arrows[i].to_ == x) {
        var i :| 0 <= i < |arrows| && arrows[i].to_ == x;
        if i < n {
          assert arrows[..n][i] == arrows[i];
        }
      }
    }
  }

  function DeclArrows(p: Params, declMap: Resolver, sd: ScopedDecl, fuel: nat): Result<seq<Arrow>> {
    var vs :- IterSd(declMap, sd, fuel);
    CollectedArrows(p, declMap, vs)
  }

  /** The per-declaration results of the first pass, in declaration order. */
  function DeclArrowsAll(p: Params, declMap: Resolver, sds: seq<ScopedDecl>, fuel: nat): (rs: seq<Result<seq<Arrow>>>)
    ensures |rs| == |sds| && forall i :: 0 <= i < |sds| ==> rs[i] == DeclArrows(p, declMap, sds[i], fuel)
  {
    seq(|sds|, i requires 0 <= i < |sds| => DeclArrows(p, declMap, sds[i], fuel))
  }

  /** Results concatenated in order; the first failure aborts. */
  function FoldArrows(rs: seq<Result<seq<Arrow>>>): Result<seq<Arrow>> {
    if |rs| == 0 then Ok([])
    else
      var n := |rs| - 1;
      var init :- FoldArrows(rs[..n]);
      var more :- rs[n];
      Ok(init + more)
  }

  /** The arrows of the first pass: walk each declaration, then collect; the first failure aborts. */
  function AllArrows(p: Params, declMap: Resolver, sds: seq<ScopedDecl>, fuel: nat): Result<seq<Arrow>> {
    FoldArrows(DeclArrowsAll(p, declMap, sds, fuel))
  }

  lemma FoldArrowsNext(rs: seq<Result<seq<Arrow>>>, j: nat, acc: seq<Arrow>) returns (more: seq<Arrow>)
    requires j < |rs| && FoldArrows(rs[..j]) == Ok(acc) && rs[j].Ok?
    ensures more == rs[j].value && FoldArrows(rs[..j + 1]) == Ok(acc + more)
  {
    more := rs[j].value;
    Seqs.PrefixStep(rs, j);
  }

  lemma {:induction false} FoldArrowsStopsAtError(rs: seq<Result<seq<Arrow>>>, k: nat)
    requires k <= |rs| && FoldArrows(rs[..k]).Err?
    ensures FoldArrows(rs) == FoldArrows(rs[..k])
    decreases |rs| - k
  {
    if k < |rs| {
      assert rs[..k + 1][..k] == rs[..k];
      FoldArrowsStopsAtError(rs, k + 1);
    } else {
      assert rs[..k] == rs;
    }
  }

  lemma FoldArrowsAbort(rs: seq<Result<seq<Arrow>>>, j: nat, acc: seq<Arrow>)
    requires j < |rs| && FoldArrows(rs[..j]) == Ok(acc) && rs[j].Err?
    ensures FoldArrows(rs) == Err(rs[j].error)
  {
    Seqs.PrefixStep(rs, j);
    FoldArrowsStopsAtError(rs, j + 1);
  }

  lemma {:induction false} FoldArrowsDrawable(p: Params, declMap: Resolver, rs: seq<Result<seq<Arrow>>>)
    requires forall i :: 0 <= i < |rs| && rs[i].Ok? ==>
               forall k :: 0 <= k < |rs[i].value| ==> Drawable(p, declMap, rs[i].value[k])
    ensures FoldArrows(rs).Ok? ==> forall k :: 0 <= k < |FoldArrows(rs).value| ==> Drawable(p, declMap, FoldArrows(rs).value[k])
  {
    if |rs| > 0 {
      var n := |rs| - 1;
      FoldArrowsDrawable(p, declMap, rs[..n]);
    }
  }

  lemma AllArrowsDrawable(p: Params, declMap: Resolver, sds: seq<ScopedDecl>, fuel: nat)
    ensures AllArrows(p, declMap, sds, fuel).Ok? ==>
              forall i :: 0 <= i < |AllArrows(p, declMap, sds, fuel).value| ==>
                Drawable(p, declMap, AllArrows(p, declMap, sds, fuel).value[i])
  {
    var rs := DeclArrowsAll(p, declMap, sds, fuel);
    forall i | 0 <= i < |rs| && rs[i].Ok?
      ensures forall k :: 0 <= k < |rs[i].value| ==> Drawable(p, declMap, rs[i].value[k])
    {
      var vs := IterSd(declMap, sds[i], fuel);
      assert vs.Ok? && rs[i] == CollectedArrows(p, declMap, vs.value);
      CollectedArrowsDrawable(p, declMap, vs.value);
    }
    FoldArrowsDrawable(p, declMap, rs);
  }

  /** The state the diagram run mutates while it collects arrows. */
  class Capture {
    const p: Params
    const declMap: Resolver
    var arrows: seq<Arrow>
    var xfocusOut: seq<ScopedName>
    var xfocusIn: map<string, ScopedDecl>

    constructor(p: Params, declMap: Resolver)
      ensures this.p == p && this.declMap == declMap
      ensures arrows == [] && xfocusOut == [] && xfocusIn == map[]
    {
      this.p := p;
      this.declMap := declMap;
      arrows := [];
      xfocusOut := [];
      xfocusIn := map[];
    }

    /**
     * `capture_deps`: an out-of-focus source with an in-focus target is
     * recorded in `xfocus_in` under its qualified name; an out-of-focus target
     * of an in-focus source is appended to `xfocus_out`; nothing else changes.
     */
    method CaptureDeps(sd: ScopedDecl, to_: ScopedName)
      modifies this
      ensures arrows == old(arrows)
      ensures xfocusIn == if !Iif(p, sd.moduleName) && Iif(p, to_.moduleName)
                          then old(xfocusIn)[QualifiedName(sd.moduleName, sd.decl.name) := sd]
                          else old(xfocusIn)
      ensures xfocusOut == old(xfocusOut) + CrossingOut(p, sd.moduleName, to_)
      ensures Iif(p, sd.moduleName) == Iif(p, to_.moduleName) ==> xfocusIn == old(xfocusIn) && xfocusOut == old(xfocusOut)
    {
      if !Iif(p, sd.moduleName) && Iif(p, to_.moduleName) {
        xfocusIn := xfocusIn[QualifiedName(sd.moduleName, sd.decl.name) := sd];
      }
      if Iif(p, sd.moduleName) && !Iif(p, to_.moduleName) {
        xfocusOut := xfocusOut + [to_];
      }
    }

    /**
     * `collect_arrow_field`: pushes the field's arrow, if any, and captures
     * its pair. Arrows come only from in-focus declarations, so `xfocus_in`
     * never changes.
     */
    method CollectArrowField(sd: ScopedDecl, f: Field) returns (r: Result<()>)
      modifies this
      ensures var o := ArrowOf(p, declMap, sd, f);
              && (r.Ok? <==> o.Ok?)
              && (r.Err? ==> r.error == o.error && arrows == old(arrows) && xfocusOut == old(xfocusOut))
              && (r.Ok? ==> arrows == old(arrows) + ArrowList(o.value)
                            && xfocusOut == old(xfocusOut) + OutTargets(p, ArrowList(o.value)))
      ensures xfocusIn == old(xfocusIn)
    {
      var o := ArrowOf(p, declMap, sd, f);
      if o.Err? {
        return Err(o.error);
      }
      if o.value.Some? {
        var a := o.value.value;
        arrows := arrows + [a];
        CaptureDeps(sd, a.to_);
        assert [a][..0] == [];
      }
      return Ok(());
    }

    /** The field callbacks of one walk, in order. */
    method CollectVisits(vs: seq<Visit>) returns (r: Result<()>)
      modifies this
      ensures var c := CollectedArrows(p, declMap, vs);
              && (r.Ok? <==> c.Ok?)
              && (r.Err? ==> r.error == c.error)
              && (r.Ok? ==> arrows == old(arrows) + c.value && xfocusOut == old(xfocusOut) + OutTargets(p, c.value))
      ensures xfocusIn == old(xfocusIn)
    {
      ghost var acc: seq<Arrow> := [];
      var i := 0;
      while i < |vs|
        invariant 0 <= i <= |vs|
        invariant CollectedArrows(p, declMap, vs[..i]) == Ok(acc)
        invariant arrows == old(arrows) + acc
        invariant xfocusOut == old(xfocusOut) + OutTargets(p, acc)
        invariant xfocusIn == old(xfocusIn)
      {
        CollectedArrowsStep(p, declMap, vs, i, acc);
        var x := CollectArrowField(vs[i].sd, vs[i].f);
        if x.Err? {
          CollectedArrowsStopsAtError(p, declMap, vs, i + 1);
          return Err(x.error);
        }
        ghost var more := ArrowList(ArrowOf(p, declMap, vs[i].sd, vs[i].f).value);
        OutTargetsAppend(p, acc, more);
        Seqs.AppendAssoc(old(arrows), acc, more);
        Seqs.AppendAssoc(old(xfocusOut), OutTargets(p, acc), OutTargets(p, more));
        acc := acc + more;
        i := i + 1;
      }
      assert vs[..i] == vs;
      return Ok(());
    }

    /** `iter_sd(sd, collect_arrow_field)` for one declaration. */
    method CollectDecl(sd: ScopedDecl, fuel: nat) returns (r: Result<()>)
      modifies this
      ensures var c := DeclArrows(p, declMap, sd, fuel);
              && (r.Ok? <==> c.Ok?)
              && (r.Err? ==> r.error == c.error)
              && (r.Ok? ==> arrows == old(arrows) + c.value && xfocusOut == old(xfocusOut) + OutTargets(p, c.value))
      ensures xfocusIn == old(xfocusIn)
    {
      var vs := IterSd(declMap, sd, fuel);
      if vs.Err? {
        return Err(vs.error);
      }
      r := CollectVisits(vs.value);
    }

    /** `resources.scopedDecls.forEach(sd => iter_sd(sd, collect_arrow_field))`. */
    method CollectAll(sds: seq<ScopedDecl>, fuel: nat) returns (r: Result<()>)
      modifies this
      ensures var c := AllArrows(p, declMap, sds, fuel);
              && (r.Ok? <==> c.Ok?)
              && (r.Err? ==> r.error == c.error)
              && (r.Ok? ==> arrows == old(arrows) + c.value && xfocusOut == old(xfocusOut) + OutTargets(p, c.value))
      ensures xfocusIn == old(xfocusIn)
    {
      ghost var rs := DeclArrowsAll(p, declMap, sds, fuel);
      ghost var acc: seq<Arrow> := [];
      var i := 0;
      while i < |sds|
        invariant 0 <= i <= |sds|
        invariant FoldArrows(rs[..i]) == Ok(acc)
        invariant arrows == old(arrows) + acc
        invariant xfocusOut == old(xfocusOut) + OutTargets(p, acc)
        invariant xfocusIn == old(xfocusIn)
      {
        var x := CollectDecl(sds[i], fuel);
        if x.Err? {
          FoldArrowsAbort(rs, i, acc);
          return Err(x.error);
        }
        ghost var more := FoldArrowsNext(rs, i, acc);
        OutTargetsAppend(p, acc, more);
        Seqs.AppendAssoc(old(arrows), acc, more);
        Seqs.AppendAssoc(old(xfocusOut), OutTargets(p, acc), OutTargets(p, more));
        acc := acc + more;
        i := i + 1;
      }
      assert rs[..i] == rs;
      return Ok(());
    }
    /** `arrows.sort(...)`, in place on an array. */
    method SortArrows()
      modifies this
      ensures arrows == SortedArrows(old(arrows))
      ensures xfocusOut == old(xfocusOut) && xfocusIn == old(xfocusIn)
    {
      var a := new Arrow[|arrows|](i requires 0 <= i < |arrows| reads this => arrows[i]);
      assert a[..] == arrows;
      SortInPlace(a);
      arrows := a[..];
    }
  }

  lemma {:induction false} FoldArrowsContains(rs: seq<Result<seq<Arrow>>>, j: nat, a: Arrow)
    requires j < |rs| && FoldArrows(rs).Ok?
    ensures rs[j].Ok?
    ensures a in rs[j].value ==> a in FoldArrows(rs).value
  {
    var n := |rs| - 1;
    if j < n {
      Seqs.PrefixStep(rs, j);
      assert rs[..n][j] == rs[j];
      FoldArrowsContains(rs[..n], j, a);
    }
  }

  // ---------------------------------------------------------------------
  // Diagram text

  /** A module-level annotation value and the module carrying it. */
  datatype ModuleAnnotation = ModuleAnnotation(moduleName: string, ann: Json)

  /** The value of the first DiagramOptions annotation of an in-focus module. */
  function FirstInFocus(p: Params, opts: seq<ModuleAnnotation>): (r: Option<Json>)
    ensures r.None? <==> forall i :: 0 <= i < |opts| ==> !Iif(p, opts[i].moduleName)
    ensures r.Some? ==> exists i :: 0 <= i < |opts| && Iif(p, opts[i].moduleName) && opts[i].ann == r.value
                                    && forall k :: 0 <= k < i ==> !Iif(p, opts[k].moduleName)
  {
    if |opts| == 0 then None
    else if Iif(p, opts[0].moduleName) then Some(opts[0].ann)
    else
      var r := FirstInFocus(p, opts[1..]);
      assert r.Some? ==> exists i :: 0 <= i < |opts| - 1 && Iif(p, opts[1..][i].moduleName) && opts[1..][i].ann == r.value
                                    && forall k :: 0 <= k < i ==> !Iif(p, opts[1..][k].moduleName);
      r
  }

  /** `diagOpts !== null ? diagOpts["direction"] : "LR"`, as the line shows it. */
  function Direction(opts: Option<Json>): (r: string)
    ensures opts.None? || opts == Some(JNull) ==> r == "LR"
    ensures opts.Some? && opts.value.JObject? && "direction" in opts.value.members ==> r == TemplateText(opts.value.members["direction"])
    ensures opts.Some? && !opts.value.JNull? && !(opts.value.JObject? && "direction" in opts.value.members) ==> r == "undefined"
  {
    match opts
    case None => "LR"
    case Some(JNull) => "LR"
    case Some(JObject(m)) => if "direction" in m then TemplateText(m["direction"]) else "undefined"
    case Some(_) => "undefined"
  }

  const Blank := "\n"

  function HeaderLines(moduleNames: seq<string>, direction: string): seq<string> {
    ["    %% Auto-generated from adl modules: " + Text.Join(moduleNames, " ") + "\n",
     "classDiagram\n",
     "    direction " + direction + ";\n",
     Blank]
  }

  function ClassLine(sd: ScopedDecl): string {
    "    class " + Mndn2mcd(sd) + "[\"" + sd.decl.name + "\"]\n"
  }

  function StereotypeLine(sd: ScopedDecl): string
    requires sd.decl.type_.Union?
  {
    "    <<" + (if DbUtils.IsEnum(sd.decl.type_.fields) then "enum" else "union") + ">> " + Mndn2mcd(sd) + "\n"
  }

  /** The class lines of one declaration: none out of focus; a union adds its stereotype. */
  function DeclClassLines(p: Params, sd: ScopedDecl): seq<string> {
    if !Iif(p, sd.moduleName) then []
    else [ClassLine(sd)] + (if sd.decl.type_.Union? then [StereotypeLine(sd)] else [])
  }

  function ClassLines(p: Params, sds: seq<ScopedDecl>): seq<string> {
    if |sds| == 0 then [] else ClassLines(p, sds[..|sds| - 1]) + DeclClassLines(p, sds[|sds| - 1])
  }

  function InFocusOf(p: Params): ScopedDecl -> bool {
    (sd: ScopedDecl) => Iif(p, sd.moduleName)
  }

  function UnionInFocusOf(p: Params): ScopedDecl -> bool {
    (sd: ScopedDecl) => Iif(p, sd.moduleName) && sd.decl.type_.Union?
  }

  /** There is one class line per in-focus declaration and one more per in-focus union. */
  lemma {:induction false} ClassLinesCount(p: Params, sds: seq<ScopedDecl>)
    ensures |ClassLines(p, sds)| == |Seqs.Filter(sds, InFocusOf(p))| + |Seqs.Filter(sds, UnionInFocusOf(p))|
  {
    if |sds| > 0 {
      var n := |sds| - 1;
      var sd := sds[n];
      var init := sds[..n];
      ClassLinesCount(p, init);
      ClassLinesLast(p, sds);
      Seqs.FilterLengthLast(sds, InFocusOf(p));
      Seqs.FilterLengthLast(sds, UnionInFocusOf(p));
      DeclClassLinesCount(p, sd);
    }
  }

  lemma ClassLinesLast(p: Params, sds: seq<ScopedDecl>)
    requires |sds| > 0
    ensures |ClassLines(p, sds)| == |ClassLines(p, sds[..|sds| - 1])| + |DeclClassLines(p, sds[|sds| - 1])|
  {
  }

  lemma DeclClassLinesCount(p: Params, sd: ScopedDecl)
    ensures |DeclClassLines(p, sd)| == (if InFocusOf(p)(sd) then 1 else 0) + (if UnionInFocusOf(p)(sd) then 1 else 0)
  {
  }

  function ArrowLine(a: Arrow): string {
    "    " + Mndn2mcd(a.sd) + " " + a.arrow + " " + Sn2mcd(a.to_) + " : " + a.name + a.nameDecoration + "\n"
  }

  /** An arrow is drawn when either end is in focus. */
  function ArrowLines(p: Params, arrows: seq<Arrow>): seq<string> {
    if |arrows| == 0 then []
    else
      var n := |arrows| - 1;
      ArrowLines(p, arrows[..n])
      + (if Iif(p, arrows[n].sd.moduleName) || Iif(p, arrows[n].to_.moduleName) then [ArrowLine(arrows[n])] else [])
  }

  /** Collected arrows all start in focus, so every one of them is drawn, in the order given. */
  lemma {:induction false} ArrowLinesAllDrawn(p: Params, arrows: seq<Arrow>)
    requires forall i :: 0 <= i < |arrows| ==> Iif(p, arrows[i].sd.moduleName)
    ensures ArrowLines(p, arrows) == Seqs.Map(arrows, ArrowLine)
  {
    if |arrows| > 0 {
      var n := |arrows| - 1;
      ArrowLinesAllDrawn(p, arrows[..n]);
      assert Seqs.Map(arrows, ArrowLine) == Seqs.Map(arrows[..n], ArrowLine) + [ArrowLine(arrows[n])];
    }
  }

  /** `arrows.find(...)`: an arrow from the same declaration for a field of that name. */
  predicate HasArrowFor(arrows: seq<Arrow>, sd: ScopedDecl, name: string) {
    exists i :: 0 <= i < |arrows| && arrows[i].sd.moduleName == sd.moduleName
                && arrows[i].sd.decl.name == sd.decl.name && arrows[i].name == name
  }

  function AttributeLine(sd: ScopedDecl, name: string, fcard: string): string {
    "    " + Mndn2mcd(sd) + " : " + name + fcard + "\n"
  }

  /**
   * `gen_field` without its effect: a field that already has an arrow is not
   * listed; otherwise an in-focus field that is neither Hidden nor Embed gets
   * an attribute line with its cardinality decoration.
   */
  function FieldAttribute(p: Params, arrows: seq<Arrow>, v: Visit): (r: Result<seq<string>>)
    ensures GetFields(v.f).Err? ==> r == Err(GetFields(v.f).error)
    ensures GetFields(v.f).Ok? ==> r.Ok?
    ensures r.Ok? && HasArrowFor(arrows, v.sd, v.f.name) ==> r.value == []
    ensures r.Ok? && !HasArrowFor(arrows, v.sd, v.f.name) ==>
              var fc := GetFields(v.f).value;
              r.value == if Iif(p, v.sd.moduleName) && !fc.hidden && !fc.embed
                         then [AttributeLine(v.sd, v.f.name, fc.fcard)] else []
  {
    var fc :- GetFields(v.f);
    if HasArrowFor(arrows, v.sd, v.f.name) then Ok([])
    else if Iif(p, v.sd.moduleName) && !fc.hidden && !fc.embed then Ok([AttributeLine(v.sd, v.f.name, fc.fcard)])
    else Ok([])
  }

  /** A field that produced an arrow is not listed again as an attribute. */
  lemma FieldWithArrowNotListed(p: Params, declMap: Resolver, arrows: seq<Arrow>, v: Visit)
    requires ArrowOf(p, declMap, v.sd, v.f).Ok? && ArrowOf(p, declMap, v.sd, v.f).value.Some?
    requires ArrowOf(p, declMap, v.sd, v.f).value.value in arrows
    ensures FieldAttribute(p, arrows, v) == Ok([])
  {
    var a := ArrowOf(p, declMap, v.sd, v.f).value.value;
    var i :| 0 <= i < |arrows| && arrows[i] == a;
    assert HasArrowFor(arrows, v.sd, v.f.name);
  }

  function FieldAttributes(p: Params, arrows: seq<Arrow>, vs: seq<Visit>): (rs: seq<Result<seq<string>>>)
    ensures |rs| == |vs| && forall i :: 0 <= i < |vs| ==> rs[i] == FieldAttribute(p, arrows, vs[i])
  {
    seq(|vs|, i requires 0 <= i < |vs| => FieldAttribute(p, arrows, vs[i]))
  }

  /** `iter_sd(sd, gen_field)` without its effect. */
  function DeclAttributes(p: Params, declMap: Resolver, arrows: seq<Arrow>, sd: ScopedDecl, fuel: nat): Result<seq<string>> {
    var vs :- IterSd(declMap, sd, fuel);
    Flatten(FieldAttributes(p, arrows, vs))
  }

  function DeclAttributesAll(p: Params, declMap: Resolver, arrows: seq<Arrow>, sds: seq<ScopedDecl>, fuel: nat)
    : (rs: seq<Result<seq<string>>>)
    ensures |rs| == |sds| && forall i :: 0 <= i < |sds| ==> rs[i] == DeclAttributes(p, declMap, arrows, sds[i], fuel)
  {
    seq(|sds|, i requires 0 <= i < |sds| => DeclAttributes(p, declMap, arrows, sds[i], fuel))
  }

  /** The attribute lines of the second pass over the declarations. */
  function AllAttributes(p: Params, declMap: Resolver, arrows: seq<Arrow>, sds: seq<ScopedDecl>, fuel: nat): Result<seq<string>> {
    Flatten(DeclAttributesAll(p, declMap, arrows, sds, fuel))
  }

  /**
   * Across a whole run: whenever the first pass drew an arrow for a field,
   * the second pass lists no attribute for it, whatever order the sort left
   * the arrows in.
   */
  lemma NoAttributeForDrawnField(p: Params, declMap: Resolver, sds: seq<ScopedDecl>, fuel: nat, j: nat, i: nat)
    requires AllArrows(p, declMap, sds, fuel).Ok? && j < |sds|
    ensures IterSd(declMap, sds[j], fuel).Ok?
    ensures var vs := IterSd(declMap, sds[j], fuel).value;
            i < |vs| ==>
              var o := ArrowOf(p, declMap, vs[i].sd, vs[i].f);
              o.Ok? && o.value.Some? ==>
              FieldAttribute(p, SortedArrows(AllArrows(p, declMap, sds, fuel).value), vs[i]) == Ok([])
  {
    var rs := DeclArrowsAll(p, declMap, sds, fuel);
    FoldArrowsContains(rs, j, Arrow(sds[j], ScopedName("", ""), "", "", "", "", "", None));
    var vs := IterSd(declMap, sds[j], fuel);
    assert vs.Ok?;
    if i < |vs.value| {
      var v := vs.value[i];
      var o := ArrowOf(p, declMap, v.sd, v.f);
      if o.Ok? && o.value.Some? {
        var all := AllArrows(p, declMap, sds, fuel).value;
        CollectedArrowsContain(p, declMap, vs.value, i);
        FoldArrowsContains(rs, j, o.value.value);
        SortedArrowsProperties(all);
        assert o.value.value in multiset(all);
        FieldWithArrowNotListed(p, declMap, SortedArrows(all), v);
      }
    }
  }

  /** `split(".").slice(-1)`: the text after the last ".". */
  function LastSegment(s: string): (r: string)
    ensures '.' !in r
    ensures Text.EndsWith(s, r)
    ensures |r| < |s| ==> s[|s| - |r| - 1] == '.'
  {
    if |s| == 0 then ""
    else if s[|s| - 1] == '.' then ""
    else
      var init := LastSegment(s[..|s| - 1]);
      assert s == s[..|s| - 1] + [s[|s| - 1]];
      init + [s[|s| - 1]]
  }

  function OutClassLine(sn: ScopedName): string {
    "    class " + Sn2mcd(sn) + "[\"" + LastSegment(sn.moduleName) + "." + sn.name + "\"]\n"
  }

  function OutMemberLine(sn: ScopedName): string {
    "    class " + Sn2mcd(sn) + "\n"
  }

  const OutNamespaceOpen := "    namespace _out_ {\n"
  const NamespaceClose := "    }\n"

  /** The `_out_` namespace: only in focus mode, and only when there are targets outside the focus. */
  function OutNamespace(outs: seq<ScopedName>): seq<string> {
    if |outs| > 0 then [OutNamespaceOpen] + Seqs.Map(outs, OutMemberLine) + [NamespaceClose] else []
  }

  /** The lines naming the targets outside the focus, written only in focus mode. */
  function OutOfFocusLines(p: Params, outs: seq<ScopedName>): (r: seq<string>)
    ensures !InFocusMode(p) ==> r == []
    ensures InFocusMode(p) && outs == [] ==> r == []
    ensures InFocusMode(p) ==> r == Seqs.Map(outs, OutClassLine) + OutNamespace(outs)
  {
    if !InFocusMode(p) then [] else Seqs.Map(outs, OutClassLine) + OutNamespace(outs)
  }

  // ---------------------------------------------------------------------
  // Module namespaces

  /** A loaded module: its name and its declarations in key order. */
  datatype AdlModule = AdlModule(name: string, decls: seq<Decl>)

  /** The callbacks `forEachModuleDecl` makes, in order. */
  datatype ModuleEvent = StartModule(moduleName: string) | VisitDecl(sd: ScopedDecl) | EndModule

  function DeclEvents(moduleName: string, decls: seq<Decl>): (r: seq<ModuleEvent>)
    ensures |r| == |decls| && forall i :: 0 <= i < |r| ==> r[i] == VisitDecl(ScopedDecl(moduleName, decls[i]))
  {
    seq(|decls|, i requires 0 <= i < |decls| => VisitDecl(ScopedDecl(moduleName, decls[i])))
  }

  function ModuleEvents(m: AdlModule, accept: string -> bool): seq<ModuleEvent> {
    if accept(m.name) then [StartModule(m.name)] + DeclEvents(m.name, m.decls) + [EndModule] else []
  }

  /**
   * `forEachModuleDecl`: for each module that `startModule` accepts, every
   * declaration in order and then `endModule`; a rejected module is skipped.
   */
  function ForEachModuleDecl(modules: seq<AdlModule>, accept: string -> bool): seq<ModuleEvent> {
    if |modules| == 0 then []
    else
      var n := |modules| - 1;
      ForEachModuleDecl(modules[..n], accept) + ModuleEvents(modules[n], accept)
  }

  function CountEnds(es: seq<ModuleEvent>): nat {
    if |es| == 0 then 0 else CountEnds(es[..|es| - 1]) + (if es[|es| - 1].EndModule? then 1 else 0)
  }

  lemma {:induction false} CountEndsAppend(a: seq<ModuleEvent>, b: seq<ModuleEvent>)
    ensures CountEnds(a + b) == CountEnds(a) + CountEnds(b)
    decreases |b|
  {
    if |b| == 0 {
      assert a + b == a;
    } else {
      var n := |b| - 1;
      var ab := a + b;
      assert ab[..|ab| - 1] == a + b[..n];
      assert ab[|ab| - 1] == b[n];
      CountEndsAppend(a, b[..n]);
    }
  }

  lemma {:induction false} CountEndsOfDecls(mn: string, decls: seq<Decl>)
    ensures CountEnds(DeclEvents(mn, decls)) == 0
  {
    if |decls| > 0 {
      var n := |decls| - 1;
      CountEndsOfDecls(mn, decls[..n]);
      assert DeclEvents(mn, decls)[..n] == DeclEvents(mn, decls[..n]);
    }
  }

  lemma ModuleEventsEnds(m: AdlModule, accept: string -> bool)
    ensures CountEnds(ModuleEvents(m, accept)) == if accept(m.name) then 1 else 0
  {
    if accept(m.name) {
      var ds := DeclEvents(m.name, m.decls);
      CountEndsAppend([StartModule(m.name)], ds);
      CountEndsAppend([StartModule(m.name)] + ds, [EndModule]);
      CountEndsOfDecls(m.name, m.decls);
    }
  }

  /** The modules whose name `accept` takes. */
  function ModuleAccepted(accept: string -> bool): AdlModule -> bool {
    (m: AdlModule) => accept(m.name)
  }

  /** `endModule` is called once per accepted module. */
  lemma {:induction false} ForEachModuleDeclEnds(modules: seq<AdlModule>, accept: string -> bool)
    ensures CountEnds(ForEachModuleDecl(modules, accept)) == |Seqs.Filter(modules, ModuleAccepted(accept))|
  {
    if |modules| > 0 {
      var n := |modules| - 1;
      var m := modules[n];
      var init := ForEachModuleDecl(modules[..n], accept);
      ForEachModuleDeclEnds(modules[..n], accept);
      CountEndsAppend(init, ModuleEvents(m, accept));
      ModuleEventsEnds(m, accept);
      assert modules == modules[..n] + [m];
      Seqs.FilterAppend(modules[..n], m, ModuleAccepted(accept));
    }
  }

  lemma ModuleEventsVisits(m: AdlModule, accept: string -> bool, sd: ScopedDecl)
    ensures VisitDecl(sd) in ModuleEvents(m, accept) <==> accept(m.name) && sd.moduleName == m.name && sd.decl in m.decls
  {
    if accept(m.name) {
      var es := ModuleEvents(m, accept);
      if sd.moduleName == m.name && sd.decl in m.decls {
        var k :| 0 <= k < |m.decls| && m.decls[k] == sd.decl;
        assert es[1 + k] == VisitDecl(sd);
      }
      if VisitDecl(sd) in es {
        var k :| 0 <= k < |es| && es[k] == VisitDecl(sd);
        assert DeclEvents(m.name, m.decls)[k - 1] == VisitDecl(sd);
      }
    }
  }

  /** Exactly the declarations of the accepted modules are visited. */
  lemma {:induction false} ForEachModuleDeclVisits(modules: seq<AdlModule>, accept: string -> bool, sd: ScopedDecl)
    ensures VisitDecl(sd) in ForEachModuleDecl(modules, accept) <==>
            exists i :: 0 <= i < |modules| && accept(modules[i].name) && sd.moduleName == modules[i].name
                        && sd.decl in modules[i].decls
  {
    if |modules| > 0 {
      var n := |modules| - 1;
      ForEachModuleDeclVisits(modules[..n], accept, sd);
      ModuleEventsVisits(modules[n], accept, sd);
      if exists i :: 0 <= i < |modules| && accept(modules[i].name) && sd.moduleName == modules[i].name
                     && sd.decl in modules[i].decls {
        var i :| 0 <= i < |modules| && accept(modules[i].name) && sd.moduleName == modules[i].name
                 && sd.decl in modules[i].decls;
        if i < n {
          assert modules[..n][i] == modules[i];
        }
      }
    }
  }

  function NamespaceOpenLine(moduleName: string): string {
    "    namespace " + ModulePrefix(moduleName) + " {\n"
  }

  function NamespaceMemberLine(sd: ScopedDecl): string {
    "        class " + Mndn2mcd(sd) + "\n"
  }

  /** The diagram's callbacks: open a namespace, list a visible declaration without RepresentedBy, close. */
  function EventLines(e: ModuleEvent): seq<string> {
    match e
    case StartModule(mn) => [NamespaceOpenLine(mn)]
    case VisitDecl(sd) =>
      if HasAnnotation(sd.decl.annotations, HiddenKey) || HasAnnotation(sd.decl.annotations, RepresentedByKey) then []
      else [NamespaceMemberLine(sd)]
    case EndModule => [NamespaceClose]
  }

  function EventsLines(es: seq<ModuleEvent>): seq<string> {
    Seqs.FlatMap(es, EventLines)
  }

  /** `startModule`'s test: the module is in focus and one of the ADL modules. */
  function AcceptModule(p: Params): string -> bool {
    mn => Iif(p, mn) && Iim(p, mn)
  }

  function NamespaceLines(p: Params, modules: seq<AdlModule>): seq<string> {
    EventsLines(ForEachModuleDecl(modules, AcceptModule(p)))
  }

  // ---------------------------------------------------------------------
  // The whole diagram

  function DiagramHead(p: Params, moduleNames: seq<string>, diagOpts: seq<ModuleAnnotation>, sds: seq<ScopedDecl>): seq<string> {
    HeaderLines(moduleNames, Direction(FirstInFocus(p, diagOpts))) + ClassLines(p, sds) + [Blank]
  }

  function DiagramBody(p: Params, sorted: seq<Arrow>, attributes: seq<string>): seq<string> {
    ArrowLines(p, sorted) + [Blank] + attributes + [Blank]
  }

  function DiagramTail(p: Params, outs: seq<ScopedName>, modules: seq<AdlModule>): seq<string> {
    OutOfFocusLines(p, outs) + NamespaceLines(p, modules)
  }

  /**
   * The lines `genMermaidClassDiagram` writes after loading: header and
   * class lines, the sorted arrows, the attribute lines, the out-of-focus
   * targets, the module namespaces. A failure of either pass aborts.
   */
  function Diagram(p: Params, moduleNames: seq<string>, diagOpts: seq<ModuleAnnotation>, sds: seq<ScopedDecl>,
                   declMap: Resolver, modules: seq<AdlModule>, fuel: nat): Result<seq<string>>
  {
    var arrows :- AllArrows(p, declMap, sds, fuel);
    var sorted := SortedArrows(arrows);
    var attributes :- AllAttributes(p, declMap, sorted, sds, fuel);
    Ok(DiagramHead(p, moduleNames, diagOpts, sds) + DiagramBody(p, sorted, attributes)
       + DiagramTail(p, OutTargets(p, arrows), modules))
  }

  // ---------------------------------------------------------------------
  // Writing the diagram

  /** The class lines, declaration by declaration (only in-focus ones are written). */
  method WriteClassLines(w: DbUtils.FileWriter, p: Params, sds: seq<ScopedDecl>)
    modifies w
    ensures w.content == old(w.content) + ClassLines(p, sds)
  {
    var i := 0;
    while i < |sds|
      invariant 0 <= i <= |sds|
      invariant w.content == old(w.content) + ClassLines(p, sds[..i])
    {
      WriteDeclClassLines(w, p, sds[i]);
      ClassLinesStep(p, sds, i);
      Seqs.AppendAssoc(old(w.content), ClassLines(p, sds[..i]), DeclClassLines(p, sds[i]));
      i := i + 1;
    }
    assert sds[..i] == sds;
  }

  /** The class line of an in-focus declaration, and its stereotype line when it is a union. */
  method WriteDeclClassLines(w: DbUtils.FileWriter, p: Params, sd: ScopedDecl)
    modifies w
    ensures w.content == old(w.content) + DeclClassLines(p, sd)
  {
    if Iif(p, sd.moduleName) {
      w.Write(ClassLine(sd));
      if sd.decl.type_.Union? {
        w.Write(StereotypeLine(sd));
      }
    }
  }

  lemma ClassLinesStep(p: Params, sds: seq<ScopedDecl>, i: nat)
    requires i < |sds|
    ensures ClassLines(p, sds[..i + 1]) == ClassLines(p, sds[..i]) + DeclClassLines(p, sds[i])
  {
    Seqs.PrefixStep(sds, i);
  }

  /** One arrow line per arrow with an end in focus, in the arrows' order. */
  method WriteArrowLines(w: DbUtils.FileWriter, p: Params, arrows: seq<Arrow>)
    modifies w
    ensures w.content == old(w.content) + ArrowLines(p, arrows)
  {
    var i := 0;
    while i < |arrows|
      invariant 0 <= i <= |arrows|
      invariant w.content == old(w.content) + ArrowLines(p, arrows[..i])
    {
      var a := arrows[i];
      Seqs.PrefixStep(arrows, i);
      ghost var line := if Iif(p, a.sd.moduleName) || Iif(p, a.to_.moduleName) then [ArrowLine(a)] else [];
      if Iif(p, a.sd.moduleName) || Iif(p, a.to_.moduleName) {
        w.Write(ArrowLine(a));
      }
      Seqs.AppendAssoc(old(w.content), ArrowLines(p, arrows[..i]), line);
      i := i + 1;
    }
    assert arrows[..i] == arrows;
  }

  /** `gen_field`: writes the field's attribute line, if any. */
  method GenField(w: DbUtils.FileWriter, p: Params, arrows: seq<Arrow>, v: Visit) returns (r: Result<()>)
    modifies w
    ensures var a := FieldAttribute(p, arrows, v);
            && (r.Ok? <==> a.Ok?)
            && (r.Err? ==> r.error == a.error && w.content == old(w.content))
            && (r.Ok? ==> w.content == old(w.content) + a.value)
  {
    var fc := GetFields(v.f);
    if fc.Err? {
      return Err(fc.error);
    }
    var found := false;
    var i := 0;
    while i < |arrows| && !found
      invariant 0 <= i <= |arrows|
      invariant found <==> HasArrowFor(arrows[..i], v.sd, v.f.name)
      invariant w.content == old(w.content)
    {
      Seqs.PrefixStep(arrows, i);
      found := arrows[i].sd.moduleName == v.sd.moduleName && arrows[i].sd.decl.name == v.sd.decl.name
               && arrows[i].name == v.f.name;
      if !found {
        assert forall k :: 0 <= k < i + 1 ==> arrows[..i + 1][k] == arrows[k];
      }
      i := i + 1;
    }
    if !found {
      assert arrows[..i] == arrows;
    }
    assert found ==> HasArrowFor(arrows, v.sd, v.f.name);
    if found {
      assert w.content == old(w.content) + [];
      return Ok(());
    }
    if Iif(p, v.sd.moduleName) && !fc.value.hidden && !fc.value.embed {
      w.Write(AttributeLine(v.sd, v.f.name, fc.value.fcard));
    }
    return Ok(());
  }

  /** `gen_field` for each field of one walk, in order. */
  method GenFields(w: DbUtils.FileWriter, p: Params, arrows: seq<Arrow>, vs: seq<Visit>) returns (r: Result<()>)
    modifies w
    ensures var a := Flatten(FieldAttributes(p, arrows, vs));
            && (r.Ok? <==> a.Ok?)
            && (r.Err? ==> r.error == a.error)
            && (r.Ok? ==> w.content == old(w.content) + a.value)
  {
    ghost var rs := FieldAttributes(p, arrows, vs);
    ghost var acc: seq<string> := [];
    var i := 0;
    while i < |vs|
      invariant 0 <= i <= |vs|
      invariant Flatten(rs[..i]) == Ok(acc)
      invariant w.content == old(w.content) + acc
    {
      FlattenStep(rs, i, acc);
      var x := GenField(w, p, arrows, vs[i]);
      if x.Err? {
        FlattenStopsAtError(rs, i + 1);
        return Err(x.error);
      }
      Seqs.AppendAssoc(old(w.content), acc, rs[i].value);
      acc := acc + rs[i].value;
      i := i + 1;
    }
    assert rs[..i] == rs;
    return Ok(());
  }

  /** `iter_sd(sd, gen_field)` for one declaration: its walk, then `gen_field` for each visit. */
  method GenDeclFields(w: DbUtils.FileWriter, p: Params, declMap: Resolver, arrows: seq<Arrow>, sd: ScopedDecl, fuel: nat)
    returns (r: Result<()>)
    modifies w
    ensures var a := DeclAttributes(p, declMap, arrows, sd, fuel);
            && (r.Ok? <==> a.Ok?)
            && (r.Err? ==> r.error == a.error)
            && (r.Ok? ==> w.content == old(w.content) + a.value)
  {
    var vs := IterSd(declMap, sd, fuel);
    if vs.Err? {
      return Err(vs.error);
    }
    assert DeclAttributes(p, declMap, arrows, sd, fuel) == Flatten(FieldAttributes(p, arrows, vs.value));
    r := GenFields(w, p, arrows, vs.value);
  }

  /** `resources.scopedDecls.forEach(sd => iter_sd(sd, gen_field))`. */
  method GenAllFields(w: DbUtils.FileWriter, p: Params, declMap: Resolver, arrows: seq<Arrow>, sds: seq<ScopedDecl>, fuel: nat)
    returns (r: Result<()>)
    modifies w
    ensures var a := AllAttributes(p, declMap, arrows, sds, fuel);
            && (r.Ok? <==> a.Ok?)
            && (r.Err? ==> r.error == a.error)
            && (r.Ok? ==> w.content == old(w.content) + a.value)
  {
    ghost var rs := DeclAttributesAll(p, declMap, arrows, sds, fuel);
    ghost var acc: seq<string> := [];
    var i := 0;
    while i < |sds|
      invariant 0 <= i <= |sds|
      invariant Flatten(rs[..i]) == Ok(acc)
      invariant w.content == old(w.content) + acc
    {
      FlattenStep(rs, i, acc);
      var x := GenDeclFields(w, p, declMap, arrows, sds[i], fuel);
      assert rs[i] == DeclAttributes(p, declMap, arrows, sds[i], fuel);
      if x.Err? {
        FlattenStopsAtError(rs, i + 1);
        return Err(x.error);
      }
      Seqs.AppendAssoc(old(w.content), acc, rs[i].value);
      acc := acc + rs[i].value;
      i := i + 1;
    }
    assert rs[..i] == rs;
    return Ok(());
  }

  /** Writes f of each element, in order. */
  method WriteEach(w: DbUtils.FileWriter, outs: seq<ScopedName>, f: ScopedName -> string)
    modifies w
    ensures w.content == old(w.content) + Seqs.Map(outs, f)
  {
    var i := 0;
    while i < |outs|
      invariant 0 <= i <= |outs|
      invariant w.content == old(w.content) + Seqs.Map(outs[..i], f)
    {
      w.Write(f(outs[i]));
      assert Seqs.Map(outs[..i + 1], f) == Seqs.Map(outs[..i], f) + [f(outs[i])];
      i := i + 1;
    }
    assert outs[..i] == outs;
  }

  /** The `_out_` namespace, written when there are targets outside the focus. */
  method WriteOutNamespace(w: DbUtils.FileWriter, outs: seq<ScopedName>)
    modifies w
    ensures w.content == old(w.content) + OutNamespace(outs)
  {
    if |outs| > 0 {
      w.Write(OutNamespaceOpen);
      WriteEach(w, outs, OutMemberLine);
      w.Write(NamespaceClose);
    }
  }

  /** The out-of-focus targets: a labelled class each, then the `_out_` namespace. */
  method WriteOutOfFocus(w: DbUtils.FileWriter, p: Params, outs: seq<ScopedName>)
    modifies w
    ensures w.content == old(w.content) + OutOfFocusLines(p, outs)
  {
    if InFocusMode(p) {
      WriteEach(w, outs, OutClassLine);
      WriteOutNamespace(w, outs);
      Seqs.AppendAssoc(old(w.content), Seqs.Map(outs, OutClassLine), OutNamespace(outs));
    }
  }

  lemma EventsLinesOfModule(m: AdlModule, accept: string -> bool)
    requires accept(m.name)
    ensures EventsLines(ModuleEvents(m, accept))
            == [NamespaceOpenLine(m.name)] + EventsLines(DeclEvents(m.name, m.decls)) + [NamespaceClose]
  {
    var start: seq<ModuleEvent> := [StartModule(m.name)];
    var ds := DeclEvents(m.name, m.decls);
    Seqs.FlatMapSingle(StartModule(m.name), EventLines);
    Seqs.FlatMapSingle(EndModule, EventLines);
    Seqs.FlatMapAppend(start, ds, EventLines);
    Seqs.FlatMapAppend(start + ds, [EndModule], EventLines);
  }

  /** The lines of one more declaration follow those of the declarations before it. */
  lemma DeclEventsLinesStep(mn: string, decls: seq<Decl>, k: nat)
    requires k < |decls|
    ensures EventsLines(DeclEvents(mn, decls[..k + 1]))
            == EventsLines(DeclEvents(mn, decls[..k])) + EventLines(VisitDecl(ScopedDecl(mn, decls[k])))
  {
    var es := DeclEvents(mn, decls[..k]);
    var e := VisitDecl(ScopedDecl(mn, decls[k]));
    assert DeclEvents(mn, decls[..k + 1]) == es + [e];
    Seqs.FlatMapAppend(es, [e], EventLines);
    Seqs.FlatMapSingle(e, EventLines);
  }

  /** The `visitDecl` callback: a visible declaration without RepresentedBy gets its member line. */
  method WriteMember(w: DbUtils.FileWriter, sd: ScopedDecl)
    modifies w
    ensures w.content == old(w.content) + EventLines(VisitDecl(sd))
  {
    if !HasAnnotation(sd.decl.annotations, HiddenKey) && !HasAnnotation(sd.decl.annotations, RepresentedByKey) {
      w.Write(NamespaceMemberLine(sd));
    }
  }

  /** The member lines of one module's declarations, in order. */
  method WriteModuleDecls(w: DbUtils.FileWriter, mn: string, decls: seq<Decl>)
    modifies w
    ensures w.content == old(w.content) + EventsLines(DeclEvents(mn, decls))
  {
    var k := 0;
    while k < |decls|
      invariant 0 <= k <= |decls|
      invariant w.content == old(w.content) + EventsLines(DeclEvents(mn, decls[..k]))
    {
      WriteMember(w, ScopedDecl(mn, decls[k]));
      DeclEventsLinesStep(mn, decls, k);
      Seqs.AppendAssoc(old(w.content), EventsLines(DeclEvents(mn, decls[..k])),
                       EventLines(VisitDecl(ScopedDecl(mn, decls[k]))));
      k := k + 1;
    }
    assert decls[..k] == decls;
  }

  /** One module's namespace, if the module is accepted. */
  method WriteModule(w: DbUtils.FileWriter, p: Params, m: AdlModule)
    modifies w
    ensures w.content == old(w.content) + EventsLines(ModuleEvents(m, AcceptModule(p)))
  {
    if !(Iif(p, m.name) && Iim(p, m.name)) {
      assert ModuleEvents(m, AcceptModule(p)) == [];
      assert w.content == old(w.content) + [];
      return;
    }
    w.Write(NamespaceOpenLine(m.name));
    WriteModuleDecls(w, m.name, m.decls);
    w.Write(NamespaceClose);
    EventsLinesOfModule(m, AcceptModule(p));
  }

  /** `forEachModuleDecl` with the diagram's callbacks. */
  method WriteNamespaces(w: DbUtils.FileWriter, p: Params, modules: seq<AdlModule>)
    modifies w
    ensures w.content == old(w.content) + NamespaceLines(p, modules)
  {
    var i := 0;
    while i < |modules|
      invariant 0 <= i <= |modules|
      invariant w.content == old(w.content) + EventsLines(ForEachModuleDecl(modules[..i], AcceptModule(p)))
    {
      Seqs.PrefixStep(modules, i);
      ghost var before := ForEachModuleDecl(modules[..i], AcceptModule(p));
      ghost var more := ModuleEvents(modules[i], AcceptModule(p));
      WriteModule(w, p, modules[i]);
      Seqs.FlatMapAppend(before, more, EventLines);
      Seqs.AppendAssoc(old(w.content), EventsLines(before), EventsLines(more));
      i := i + 1;
    }
    assert modules[..i] == modules;
  }

  /** The header, the class lines and the blank line after them. */
  method WriteHead(w: DbUtils.FileWriter, p: Params, moduleNames: seq<string>, diagOpts: seq<ModuleAnnotation>, sds: seq<ScopedDecl>)
    modifies w
    ensures w.content == old(w.content) + DiagramHead(p, moduleNames, diagOpts, sds)
  {
    var direction := Direction(FirstInFocus(p, diagOpts));
    w.Write("    %% Auto-generated from adl modules: " + Text.Join(moduleNames, " ") + "\n");
    w.Write("classDiagram\n");
    w.Write("    direction " + direction + ";\n");
    w.Write(Blank);
    ghost var header := w.content;
    assert header == old(w.content) + HeaderLines(moduleNames, direction);
    WriteClassLines(w, p, sds);
    w.Write(Blank);
    Seqs.AppendAssoc(old(w.content), HeaderLines(moduleNames, direction), ClassLines(p, sds));
    Seqs.AppendAssoc(old(w.content), HeaderLines(moduleNames, direction) + ClassLines(p, sds), [Blank]);
  }

  /**
   * The first pass and the sort, on a fresh capture: the sorted arrows and
   * the out-of-focus targets, or the pass's error.
   */
  method CollectAndSort(p: Params, declMap: Resolver, sds: seq<ScopedDecl>, fuel: nat)
    returns (r: Result<(seq<Arrow>, seq<ScopedName>)>)
    ensures var c := AllArrows(p, declMap, sds, fuel);
            && (r.Ok? <==> c.Ok?)
            && (r.Err? ==> r.error == c.error)
            && (r.Ok? ==> r.value == (SortedArrows(c.value), OutTargets(p, c.value)))
  {
    var cap := new Capture(p, declMap);
    var c := cap.CollectAll(sds, fuel);
    if c.Err? {
      return Err(c.error);
    }
    assert cap.arrows == AllArrows(p, declMap, sds, fuel).value;
    assert cap.xfocusOut == OutTargets(p, AllArrows(p, declMap, sds, fuel).value);
    cap.SortArrows();
    return Ok((cap.arrows, cap.xfocusOut));
  }

  /** The arrow lines, the attribute lines and a blank line after each group. */
  method WriteBody(w: DbUtils.FileWriter, p: Params, declMap: Resolver, sorted: seq<Arrow>, sds: seq<ScopedDecl>, fuel: nat)
    returns (r: Result<()>)
    modifies w
    ensures var a := AllAttributes(p, declMap, sorted, sds, fuel);
            && (r.Ok? <==> a.Ok?)
            && (r.Err? ==> r.error == a.error)
            && (r.Ok? ==> w.content == old(w.content) + DiagramBody(p, sorted, a.value))
  {
    WriteArrowLines(w, p, sorted);
    w.Write(Blank);
    ghost var mid := w.content;
    var g := GenAllFields(w, p, declMap, sorted, sds, fuel);
    if g.Err? {
      return Err(g.error);
    }
    w.Write(Blank);
    ghost var attributes := AllAttributes(p, declMap, sorted, sds, fuel).value;
    Seqs.AppendAssoc(old(w.content), ArrowLines(p, sorted) + [Blank], attributes);
    Seqs.AppendAssoc(old(w.content), ArrowLines(p, sorted) + [Blank] + attributes, [Blank]);
    return Ok(());
  }

  /** The out-of-focus targets and the module namespaces. */
  method WriteTail(w: DbUtils.FileWriter, p: Params, outs: seq<ScopedName>, modules: seq<AdlModule>)
    modifies w
    ensures w.content == old(w.content) + DiagramTail(p, outs, modules)
  {
    WriteOutOfFocus(w, p, outs);
    WriteNamespaces(w, p, modules);
    Seqs.AppendAssoc(old(w.content), OutOfFocusLines(p, outs), NamespaceLines(p, modules));
  }

  /**
   * `genMermaidClassDiagram` after loading: on success the writer holds
   * exactly `Diagram`'s lines after what it held before; a failing pass
   * aborts with that pass's error.
   */
  method GenMermaidClassDiagram(w: DbUtils.FileWriter, p: Params, moduleNames: seq<string>, diagOpts: seq<ModuleAnnotation>,
                                sds: seq<ScopedDecl>, declMap: Resolver, modules: seq<AdlModule>, fuel: nat)
    returns (r: Result<()>)
    modifies w
    ensures var d := Diagram(p, moduleNames, diagOpts, sds, declMap, modules, fuel);
            && (r.Ok? <==> d.Ok?)
            && (r.Err? ==> r.error == d.error)
            && (r.Ok? ==> w.content == old(w.content) + d.value)
  {
    ghost var c0 := w.content;
    WriteHead(w, p, moduleNames, diagOpts, sds);
    ghost var head := DiagramHead(p, moduleNames, diagOpts, sds);
    assert w.content == c0 + head;
    var c := CollectAndSort(p, declMap, sds, fuel);
    if c.Err? {
      return Err(c.error);
    }
    var (sorted, outs) := c.value;
    var g := WriteBody(w, p, declMap, sorted, sds, fuel);
    if g.Err? {
      return Err(g.error);
    }
    ghost var body := DiagramBody(p, sorted, AllAttributes(p, declMap, sorted, sds, fuel).value);
    assert w.content == c0 + head + body;
    WriteTail(w, p, outs, modules);
    ghost var tail := DiagramTail(p, outs, modules);
    assert w.content == c0 + head + body + tail;
    ghost var d := Diagram(p, moduleNames, diagOpts, sds, declMap, modules, fuel);
    assert d.value == head + body + tail;
    Seqs.AppendAssoc4(c0, head, body, tail);
    return Ok(());
  }
}
