/** The references that augment_cyclonedx hands out, read off the document before the run. */
module CycloneRefs {
  import opened Common
  import opened SbomRelease
  import opened CycloneDx
  import opened CycloneParts
  import opened CycloneSettles
  import opened CycloneFiles
  import Sorting

  function Refs(parts: seq<Part>): seq<Option<string>> {
    seq(|parts|, i requires 0 <= i < |parts| => parts[i].ref)
  }

  predicate Distinct(refs: seq<Option<string>>) { forall i, j :: 0 <= i < j < |refs| ==> refs[i] != refs[j] }

  // ---------- what is handed out ----------

  /** The references of the templates that are added to the given components. */
  function TemplateRefs(needs: seq<Need>, parts: seq<Part>): seq<Option<string>>
    decreases |needs|
  {
    if |needs| == 0 then []
    else if Sorting.Sum(needs[0].finder, parts) == 0 then
      [needs[0].template.ref] + TemplateRefs(needs[1..], parts + [needs[0].template])
    else TemplateRefs(needs[1..], parts)
  }

  /** The references of the records that have no component among the given ones. */
  function FileRefs(r: Release, records: seq<Record>, parts: seq<Part>): seq<Option<string>>
    decreases |records|
  {
    if |records| == 0 then []
    else
      (if Sorting.Sum(AtPath(records[0].path), parts) == 0 then [NewPart(r, records[0]).ref] else [])
      + FileRefs(r, records[1..], parts)
  }

  /** Every reference the run gives to a new component, in order. */
  function Issued(r: Release, b: Bom): seq<Option<string>>
    requires Identify(r, b.parts).Some?
  {
    var parts := Identify(r, b.parts).value.0;
    (if Hits(b.parts, ApplicationPurl(r)) == 0 then [Some(ApplicationPurl(r))] else [])
    + TemplateRefs(Needs(r, parts), parts)
    + if SourceName(b.rootName) then FileRefs(r, r.inventory, parts) else []
  }

  // ---------- the packages ----------

  ghost predicate AlikeAll(a: seq<Part>, b: seq<Part>) {
    |a| == |b| && forall i :: 0 <= i < |a| ==> Alike(a[i], b[i])
  }

  lemma AlikeSum(f: Part -> nat, a: seq<Part>, b: seq<Part>)
    requires AlikeAll(a, b) && Steady(f)
    ensures Sorting.Sum(f, a) == Sorting.Sum(f, b)
  {
    SumAlike(f, a, b);
  }

  /** Steps keep references and append. */
  lemma RefsExtend(parts: seq<Part>, after: seq<Part>, tail: seq<Part>)
    requires Extends(parts, after) && after[|parts|..] == tail
    ensures Refs(after) == Refs(parts) + Refs(tail)
  {
    assert after == after[..|parts|] + tail;
    forall i | 0 <= i < |after| ensures Refs(after)[i] == (Refs(parts) + Refs(tail))[i] {
      if i < |parts| {
        assert Later(parts[i], after[i]);
      } else {
        assert after[i] == tail[i - |parts|];
      }
    }
  }

  lemma AlikeExtend(parts: seq<Part>, now: seq<Part>, after: seq<Part>, tail: seq<Part>)
    requires AlikeAll(parts, now) && Extends(now, after) && after[|now|..] == tail
    ensures AlikeAll(parts + tail, after)
  {
    forall i | 0 <= i < |after| ensures Alike((parts + tail)[i], after[i]) {
      if i < |now| {
        assert Alike(parts[i], now[i]) && Later(now[i], after[i]);
      } else {
        assert after[i] == tail[i - |now|];
      }
    }
  }

  /** The components one need adds to the given ones. */
  function Tail(need: Need, parts: seq<Part>): seq<Part> {
    if Sorting.Sum(need.finder, parts) == 0 then [need.template] else []
  }

  lemma MeetRefs(r: Release, need: Need, application: string, st: State, next: State, parts: seq<Part>)
    requires NeedOk(r, need) && DepsOk(st.deps) && BinaryThere(need, st.parts)
    requires Meet(need, application, st) == Some(next) && AlikeAll(parts, st.parts)
    ensures Refs(next.parts) == Refs(st.parts) + Refs(Tail(need, parts))
    ensures AlikeAll(parts + Tail(need, parts), next.parts)
  {
    MeetDone(r, need, application, st, next);
    AlikeSum(need.finder, parts, st.parts);
    RefsExtend(st.parts, next.parts, Tail(need, parts));
    AlikeExtend(parts, st.parts, next.parts, Tail(need, parts));
  }

  lemma TailRefs(needs: seq<Need>, parts: seq<Part>)
    requires |needs| > 0
    ensures TemplateRefs(needs, parts)
      == Refs(Tail(needs[0], parts)) + TemplateRefs(needs[1..], parts + Tail(needs[0], parts))
  {
    assert parts + [] == parts;
    assert Refs([needs[0].template]) == [needs[0].template.ref];
  }

  lemma Assoc(a: seq<Option<string>>, b: seq<Option<string>>, c: seq<Option<string>>)
    ensures (a + b) + c == a + (b + c)
  {}

  lemma {:induction false} SupplyRefs(
      r: Release, needs: seq<Need>, application: string, st: State, after: State, parts: seq<Part>)
    requires NeedsFit(r, needs) && BinariesThere(needs, st.parts) && DepsOk(st.deps)
    requires Supply(needs, application, st) == Some(after) && AlikeAll(parts, st.parts)
    ensures Refs(after.parts) == Refs(st.parts) + TemplateRefs(needs, parts)
    decreases |needs|
  {
    if |needs| > 0 {
      var next := SupplyNext(r, needs, application, st);
      var tail := Tail(needs[0], parts);
      FitRest(r, needs);
      assert BinaryThere(needs[0], st.parts);
      MeetRefs(r, needs[0], application, st, next, parts);
      SupplyRefs(r, needs[1..], application, next, after, parts + tail);
      TailRefs(needs, parts);
      Assoc(Refs(st.parts), Refs(tail), TemplateRefs(needs[1..], parts + tail));
    }
  }

  // ---------- paths are left alone by the packages ----------

  lemma MarkStands(p: Part, value: string, q: Part, path: string)
    requires AddProperty(p, SOURCE_PURL, value) == Some(q)
    ensures Stands(q, path) == Stands(p, path)
  {
    var said := Property(SOURCE_PATH, path);
    var added := Property(SOURCE_PURL, value);
    NamesApart();
    AddPropertyDone(p, SOURCE_PURL, value, q);
    Sorting.SumSorted(Says(said), p.properties, ByNameValue);
    Sorting.SumSorted(Says(said), p.properties + [added], ByNameValue);
    Sorting.SumAppend(Says(said), p.properties, [added]);
    Sorting.SumOne(Says(said), added);
  }

  lemma MarkPaths(binary: Part -> nat, purl: string, source: string, st: State, next: State, path: string)
    requires MarkBinary(binary, purl, source, st) == Some(next)
    ensures Sorting.Sum(AtPath(path), next.parts) == Sorting.Sum(AtPath(path), st.parts)
  {
    var j := Sorting.Index(binary, st.parts);
    MarkStands(st.parts[j], purl, next.parts[j], path);
    Sorting.SumUpdate(AtPath(path), st.parts, j, next.parts[j]);
  }

  lemma MeetPaths(need: Need, application: string, st: State, next: State, path: string)
    requires Meet(need, application, st) == Some(next) && Pathless(need)
    ensures Sorting.Sum(AtPath(path), next.parts) == Sorting.Sum(AtPath(path), st.parts)
  {
    var mid, i := MeetSteps(need, application, st, next);
    Sorting.SumAppend(AtPath(path), st.parts, [need.template]);
    Sorting.SumOne(AtPath(path), need.template);
    if need.binary.Some? {
      MarkPaths(need.binary.value, need.purl, Ref(mid.parts[i]), mid, next, path);
    }
  }

  lemma {:induction false} SupplyPaths(needs: seq<Need>, application: string, st: State, after: State, path: string)
    requires Supply(needs, application, st) == Some(after)
    requires forall k :: 0 <= k < |needs| ==> Pathless(needs[k])
    ensures Sorting.Sum(AtPath(path), after.parts) == Sorting.Sum(AtPath(path), st.parts)
    decreases |needs|
  {
    if |needs| > 0 {
      var next := Meet(needs[0], application, st).value;
      MeetPaths(needs[0], application, st, next, path);
      assert forall k :: 0 <= k < |needs[1..]| ==> needs[1..][k] == needs[k + 1];
      SupplyPaths(needs[1..], application, next, after, path);
    }
  }

  lemma NoPath(p: Part, path: string)
    requires p.kind == "library" && forall q :: q in p.properties ==> q.name != SOURCE_PATH
    ensures Stands(p, path) == 0
  {
    Sorting.SumZero(Named(SOURCE_PATH), p.properties);
    assert p.kind[0] == 'l' && "file"[0] == 'f';
  }

  /** A component for a need stands at no path. */
  ghost predicate Pathless(need: Need) { forall path :: Stands(need.template, path) == 0 }

  lemma DebianPathless(r: Release, m: Mapping)
    ensures Pathless(DebianNeed(r, m))
  {
    var name := "io.ratio1.debian.corresponding-source";
    assert name[10] == 'd' && SOURCE_PATH[10] == 's';
    forall path ensures Stands(DebianNeed(r, m).template, path) == 0 {
      NoPath(DebianNeed(r, m).template, path);
    }
  }

  lemma ComponentPathless(r: Release, c: Component)
    ensures Pathless(ComponentNeed(r, c))
  {
    var role, tree := "io.ratio1.native.role", "io.ratio1.native.source-tree-sha256";
    assert role[10] == 'n' && tree[10] == 'n' && SOURCE_PATH[10] == 's';
    forall path ensures Stands(ComponentNeed(r, c).template, path) == 0 {
      NoPath(ComponentNeed(r, c).template, path);
    }
  }

  /** What holds of every kind of need holds of the needs. */
  lemma EveryNeed(r: Release, parts: seq<Part>, f: Need -> bool, k: nat)
    requires k < |Needs(r, parts)|
    requires forall m :: f(DebianNeed(r, m))
    requires forall c :: f(ComponentNeed(r, c))
    ensures f(Needs(r, parts)[k])
  {}

  lemma NeedsPathless(r: Release, parts: seq<Part>)
    ensures forall k :: 0 <= k < |Needs(r, parts)| ==> Pathless(Needs(r, parts)[k])
  {
    var f: Need -> bool := need => Pathless(need);
    forall m ensures f(DebianNeed(r, m)) {
      DebianPathless(r, m);
    }
    forall c ensures f(ComponentNeed(r, c)) {
      ComponentPathless(r, c);
    }
    forall k | 0 <= k < |Needs(r, parts)| ensures Pathless(Needs(r, parts)[k]) {
      EveryNeed(r, parts, f, k);
    }
  }

  // ---------- the source files ----------

  /** The two lists tell apart the same records. */
  ghost predicate SamePaths(records: seq<Record>, a: seq<Part>, b: seq<Part>) {
    forall k :: 0 <= k < |records| ==>
      Sorting.Sum(AtPath(records[k].path), a) == Sorting.Sum(AtPath(records[k].path), b)
  }

  lemma PlaceRefs(r: Release, parts: seq<Part>, known: nat, rec: Record)
    requires known <= |parts| && Place(r, parts, known, rec).Some? && LicenseRead(rec)
    ensures Refs(Place(r, parts, known, rec).value.0) == Refs(parts)
      + if Sorting.Sum(AtPath(rec.path), parts[..known]) == 0 then [NewPart(r, rec).ref] else []
  {
    var (after, i) := Place(r, parts, known, rec).value;
    PlaceDone(r, parts, known, rec);
    RefsExtend(parts, after, after[|parts|..]);
  }

  lemma FileNextRefs(r: Release, known: nat, records: seq<Record>, parts: seq<Part>, now: seq<Part>, after: seq<Part>, i: nat)
    requires |records| > 0 && known <= |now| && known <= |after| && Place(r, now, known, records[0]) == Some((after, i))
    requires AllRead(records) && SamePaths(records, parts, now[..known])
    ensures AllRead(records[1..]) && SamePaths(records[1..], parts, after[..known])
  {
    var rest := records[1..];
    assert forall k :: 0 <= k < |rest| ==> rest[k] == records[k + 1];
    forall k | 0 <= k < |rest|
      ensures Sorting.Sum(AtPath(rest[k].path), parts) == Sorting.Sum(AtPath(rest[k].path), after[..known])
    {
      PlaceCounts(r, now, known, records[0], rest[k].path);
    }
  }

  lemma {:induction false} FilesRefs(
      r: Release, application: string, known: nat, records: seq<Record>, st: State, after: State, parts: seq<Part>)
    requires known <= |st.parts| && FileAll(r, application, known, records, st) == Some(after)
    requires AllRead(records) && SamePaths(records, parts, st.parts[..known])
    ensures Refs(after.parts) == Refs(st.parts) + FileRefs(r, records, parts)
    decreases |records|
  {
    if |records| > 0 {
      var next := File(r, application, known, records[0], st).value;
      var i := FileSteps(r, application, known, records[0], st, next);
      PlaceRefs(r, st.parts, known, records[0]);
      FileNextRefs(r, known, records, parts, st.parts, next.parts, i);
      FilesRefs(r, application, known, records[1..], next, after, parts);
      Assoc(Refs(st.parts), if Sorting.Sum(AtPath(records[0].path), parts) == 0 then [NewPart(r, records[0]).ref] else [],
            FileRefs(r, records[1..], parts));
    }
  }

  // ---------- distinct references ----------

  function RefIs(ref: Option<string>): Part -> nat { (p: Part) => if p.ref == ref then 1 else 0 }

  lemma DistinctCounts(parts: seq<Part>, ref: Option<string>)
    requires Distinct(Refs(parts))
    ensures Sorting.Sum(RefIs(ref), parts) <= 1
  {
    if Sorting.Sum(RefIs(ref), parts) > 0 {
      var i := Sorting.Index(RefIs(ref), parts);
      Sorting.SumAt(RefIs(ref), parts, i);
      forall p | p in parts[..i] || p in parts[i + 1..] ensures p.ref != ref {
        var j :| 0 <= j < |parts| && j != i && parts[j] == p;
        assert Refs(parts)[j] == p.ref && Refs(parts)[i] == ref;
      }
      Sorting.SumZero(RefIs(ref), parts[..i]);
      Sorting.SumZero(RefIs(ref), parts[i + 1..]);
    }
  }

  lemma CountsDistinct(parts: seq<Part>)
    requires forall ref :: Sorting.Sum(RefIs(ref), parts) <= 1
    ensures Distinct(Refs(parts))
  {
    forall i, j | 0 <= i < j < |parts| ensures parts[i].ref != parts[j].ref {
      var ref := parts[i].ref;
      Sorting.SumMember(RefIs(ref), parts, parts[i]);
      if parts[j].ref == ref {
        Sorting.OnlyOne(RefIs(ref), parts, i);
        Sorting.OnlyOne(RefIs(ref), parts, j);
      }
    }
  }

  /** The final sort does not matter. */
  lemma DistinctSorted(parts: seq<Part>)
    ensures Distinct(Refs(Sorting.Sort(parts, ByNameRef))) <==> Distinct(Refs(parts))
  {
    var sorted := Sorting.Sort(parts, ByNameRef);
    forall ref ensures Sorting.Sum(RefIs(ref), sorted) == Sorting.Sum(RefIs(ref), parts) {
      Sorting.SumSorted(RefIs(ref), parts, ByNameRef);
    }
    if Distinct(Refs(parts)) {
      forall ref ensures Sorting.Sum(RefIs(ref), sorted) <= 1 {
        DistinctCounts(parts, ref);
      }
      CountsDistinct(sorted);
    }
    if Distinct(Refs(sorted)) {
      forall ref ensures Sorting.Sum(RefIs(ref), parts) <= 1 {
        DistinctCounts(sorted, ref);
      }
      CountsDistinct(parts);
    }
  }

  lemma RefsOkDistinct(parts: seq<Part>)
    ensures RefsOk(parts) <==> None !in Refs(parts) && Distinct(Refs(parts))
  {
    var refs := Refs(parts);
    assert forall i :: 0 <= i < |parts| ==> refs[i] == parts[i].ref;
    if None !in refs {
      assert forall i :: 0 <= i < |parts| ==> refs[i] in refs;
    }
  }

  // ---------- everything the run hands out ----------

  lemma {:induction false} TemplateRefsSome(r: Release, needs: seq<Need>, parts: seq<Part>)
    requires NeedsFit(r, needs)
    ensures None !in TemplateRefs(needs, parts)
    decreases |needs|
  {
    if |needs| > 0 {
      FitRest(r, needs);
      TailRefs(needs, parts);
      TemplateRefsSome(r, needs[1..], parts + Tail(needs[0], parts));
    }
  }

  lemma {:induction false} FileRefsSome(r: Release, records: seq<Record>, parts: seq<Part>)
    ensures None !in FileRefs(r, records, parts)
    decreases |records|
  {
    if |records| > 0 {
      FileRefsSome(r, records[1..], parts);
    }
  }

  lemma IssuedSome(r: Release, b: Bom)
    requires Identify(r, b.parts).Some?
    ensures None !in Issued(r, b)
  {
    var parts := Identify(r, b.parts).value.0;
    NeedsAreFit(r, parts);
    TemplateRefsSome(r, Needs(r, parts), parts);
    FileRefsSome(r, r.inventory, parts);
  }

  lemma IdentifyRefs(r: Release, parts: seq<Part>)
    requires Identify(r, parts).Some?
    ensures Refs(Identify(r, parts).value.0)
      == Refs(parts) + if Hits(parts, ApplicationPurl(r)) == 0 then [Some(ApplicationPurl(r))] else []
  {
    var after := Identify(r, parts).value.0;
    assert forall i :: 0 <= i < |parts| ==> after[i].ref == parts[i].ref;
  }

  /** The state after the source files carries the references of the document and those handed out. */
  lemma RefsIssued(r: Release, b: Bom, parts: seq<Part>, a: nat, application: string, deps: seq<Dep>, st: State, s: State)
    requires InventoryRead(r) && DepsOk(deps) && Identify(r, b.parts) == Some((parts, a)) && DebianOk(r, parts)
    requires Supply(Needs(r, parts), application, State(parts, deps)) == Some(st)
    requires AugmentSources(r, b, application, st) == Some(s) && AllRead(r.inventory)
    ensures Refs(s.parts) == Refs(b.parts) + Issued(r, b)
  {
    var needs := Needs(r, parts);
    NeedsAreFit(r, parts);
    NeedsThere(r, parts);
    NeedsPathless(r, parts);
    IdentifyRefs(r, b.parts);
    SupplyRefs(r, needs, application, State(parts, deps), st, parts);
    var first := if Hits(b.parts, ApplicationPurl(r)) == 0 then [Some(ApplicationPurl(r))] else [];
    Assoc(Refs(b.parts), first, TemplateRefs(needs, parts));
    if SourceName(b.rootName) {
      assert st.parts[..|st.parts|] == st.parts;
      forall k | 0 <= k < |r.inventory|
        ensures Sorting.Sum(AtPath(r.inventory[k].path), parts) == Sorting.Sum(AtPath(r.inventory[k].path), st.parts)
      {
        SupplyPaths(needs, application, State(parts, deps), st, r.inventory[k].path);
      }
      FilesRefs(r, application, |st.parts|, r.inventory, st, s, parts);
    }
    Assoc(Refs(b.parts), first + TemplateRefs(needs, parts), if SourceName(b.rootName) then FileRefs(r, r.inventory, parts) else []);
  }

  /** The document after the sort has distinct references if and only if no reference is handed out
      twice or while it is in use. */
  lemma FreshExact(r: Release, b: Bom, parts: seq<Part>)
    requires Identify(r, b.parts).Some? && RefsOk(b.parts) && Refs(parts) == Refs(b.parts) + Issued(r, b)
    ensures RefsOk(Sorting.Sort(parts, ByNameRef)) <==> Distinct(Refs(b.parts) + Issued(r, b))
  {
    var sorted := Sorting.Sort(parts, ByNameRef);
    IssuedSome(r, b);
    RefsOkDistinct(b.parts);
    RefsOkDistinct(sorted);
    DistinctSorted(parts);
    SortedSome(parts);
  }

  lemma SortedSome(parts: seq<Part>)
    requires None !in Refs(parts)
    ensures None !in Refs(Sorting.Sort(parts, ByNameRef))
  {
    var sorted := Sorting.Sort(parts, ByNameRef);
    Sorting.SumSorted(RefIs(None), parts, ByNameRef);
    forall p | p in parts ensures RefIs(None)(p) == 0 {
      var i :| 0 <= i < |parts| && parts[i] == p;
      assert Refs(parts)[i] == p.ref;
    }
    Sorting.SumZero(RefIs(None), parts);
    if None in Refs(sorted) {
      var i :| 0 <= i < |sorted| && Refs(sorted)[i] == None;
      Sorting.SumMember(RefIs(None), sorted, sorted[i]);
    }
  }
}
