/** A second run of augment_spdx. */
module SbomRerun {
  import opened Common
  import opened Sbom
  import opened SbomRelease
  import Sorting

  // ---------- edges ----------

  lemma {:induction false} AddRelsHold(rels: seq<Rel>, more: seq<Rel>)
    ensures rels <= AddRels(rels, more)
    ensures forall e :: e in more ==> e in AddRels(rels, more)
    ensures forall e :: e in AddRels(rels, more) ==> e in rels || e in more
    decreases |more|
  {
    if more != [] {
      var next := AddRel(rels, more[0]);
      AddRelsHold(next, more[1..]);
      assert more == [more[0]] + more[1..];
      assert more[0] in next && forall e :: e in next ==> e in AddRels(rels, more);
    }
  }

  /** Edges that are there are not added again. */
  lemma {:induction false} AddRelsStay(rels: seq<Rel>, more: seq<Rel>)
    requires forall e :: e in more ==> e in rels
    ensures AddRels(rels, more) == rels
    decreases |more|
  {
    if more != [] {
      assert more[0] in more && forall e :: e in more[1..] ==> e in more;
      AddRelsStay(rels, more[1..]);
    }
  }

  /** An edge that is there is not added again, and no other edge is touched. */
  lemma AddRelOnce(rels: seq<Rel>, rel: Rel, e: Rel)
    ensures multiset(AddRel(rels, rel))[e] == if e == rel && rel !in rels then 1 else multiset(rels)[e]
  {
    if rel !in rels {
      assert multiset(rels + [rel]) == multiset(rels) + multiset{rel};
    }
  }

  /** No edge is added twice. */
  lemma {:induction false} AddRelsOnce(rels: seq<Rel>, more: seq<Rel>, e: Rel)
    ensures multiset(AddRels(rels, more))[e] <= if e in rels then multiset(rels)[e] else 1
    decreases |more|
  {
    if more != [] {
      AddRelsOnce(AddRel(rels, more[0]), more[1..], e);
    }
  }

  // ---------- finding packages ----------

  predicate Found(packages: seq<Package>, key: string, p: Package) {
    Hits(packages, key) == 1 && p in packages && Matches(p, key) > 0
  }

  lemma FoundAt(packages: seq<Package>, key: string, p: Package)
    requires Found(packages, key, p)
    ensures packages[Sorting.Index(ByPurl(key), packages)] == p
  {
    var i :| 0 <= i < |packages| && packages[i] == p;
    Sorting.OnlyOne(ByPurl(key), packages, i);
  }

  /** A need is met: its package is there once and its edges are drawn. */
  predicate Met(need: Need, application: string, packages: seq<Package>, rels: seq<Rel>, p: Package) {
    && Found(packages, NormalizedPurl(need.purl), p)
    && forall e :: e in Edges(need, application, p.id) ==> e in rels
  }

  ghost predicate AllMet(needs: seq<Need>, application: string, packages: seq<Package>, rels: seq<Rel>) {
    forall need :: need in needs ==> exists p :: Met(need, application, packages, rels, p)
  }

  lemma {:induction false} SupplyStays(needs: seq<Need>, application: string, packages: seq<Package>, rels: seq<Rel>)
    requires AllMet(needs, application, packages, rels)
    ensures Supply(needs, application, packages, rels) == Some((packages, rels))
    decreases |needs|
  {
    if needs != [] {
      assert needs[0] in needs && forall n :: n in needs[1..] ==> n in needs;
      var p :| Met(needs[0], application, packages, rels, p);
      FoundAt(packages, NormalizedPurl(needs[0].purl), p);
      AddRelsStay(rels, Edges(needs[0], application, p.id));
      SupplyStays(needs[1..], application, packages, rels);
    }
  }

  /** What a need brings: a package with just that purl. */
  predicate NeedOk(need: Need) { need.template.purls == [need.purl] && need.purl != "" }

  lemma TemplateMatches(need: Need, key: string)
    requires NeedOk(need)
    ensures Matches(need.template, key) == if NormalizedPurl(need.purl) == key then 1 else 0
  {
    Sorting.SumOne(RefersTo(key), need.purl);
  }

  lemma EnsureFinds(packages: seq<Package>, need: Need, key: string)
    requires NeedOk(need) && Ensure(packages, need).Some?
    ensures var (after, p) := Ensure(packages, need).value;
      && packages <= after
      && Found(after, NormalizedPurl(need.purl), p)
      && (Hits(packages, key) == 1 ==> Hits(after, key) == 1)
      && |after| <= |packages| + 1 && (|after| > |packages| ==> after[|packages|] == need.template)
  {
    var own := NormalizedPurl(need.purl);
    Sorting.SumAppend(ByPurl(key), packages, [need.template]);
    Sorting.SumOne(ByPurl(key), need.template);
    TemplateMatches(need, key);
    Sorting.SumAppend(ByPurl(own), packages, [need.template]);
    Sorting.SumOne(ByPurl(own), need.template);
    TemplateMatches(need, own);
  }

  lemma MetGrows(need: Need, application: string, p: Package,
                 packages: seq<Package>, rels: seq<Rel>, after: seq<Package>, more: seq<Rel>)
    requires Met(need, application, packages, rels, p)
    requires packages <= after && rels <= more && Hits(after, NormalizedPurl(need.purl)) == 1
    ensures Met(need, application, after, more, p)
  {
    assert forall q :: q in packages ==> q in after;
    assert forall e :: e in rels ==> e in more;
  }

  /** The first step of supplying. */
  lemma SupplyStep(needs: seq<Need>, application: string, packages: seq<Package>, rels: seq<Rel>)
    returns (next: seq<Package>, p: Package, edges: seq<Rel>)
    requires needs != [] && NeedOk(needs[0]) && Supply(needs, application, packages, rels).Some?
    ensures Supply(needs, application, packages, rels) == Supply(needs[1..], application, next, edges)
    ensures packages <= next && Met(needs[0], application, next, edges, p)
    ensures |next| <= |packages| + 1 && (|next| > |packages| ==> next[|packages|] == needs[0].template)
  {
    EnsureFinds(packages, needs[0], "");
    var found := Ensure(packages, needs[0]).value;
    next, p := found.0, found.1;
    edges := AddRels(rels, Edges(needs[0], application, p.id));
    AddRelsHold(rels, Edges(needs[0], application, p.id));
  }

  /** Supplying only appends, and a key with one package stays at one. */
  lemma {:induction false} SupplyAppends(
      needs: seq<Need>, application: string, packages: seq<Package>, rels: seq<Rel>, key: string)
    requires forall n :: n in needs ==> NeedOk(n)
    requires Supply(needs, application, packages, rels).Some?
    ensures var (after, more) := Supply(needs, application, packages, rels).value;
      packages <= after && rels <= more && (Hits(packages, key) == 1 ==> Hits(after, key) == 1)
    decreases |needs|
  {
    if needs != [] {
      assert needs[0] in needs && forall n :: n in needs[1..] ==> n in needs;
      var (next, p) := Ensure(packages, needs[0]).value;
      EnsureFinds(packages, needs[0], key);
      AddRelsHold(rels, Edges(needs[0], application, p.id));
      SupplyAppends(needs[1..], application, next, AddRels(rels, Edges(needs[0], application, p.id)), key);
    }
  }

  /** The need is met by a new package: nothing stands under its key and no earlier need has it. */
  predicate Added(needs: seq<Need>, packages: seq<Package>, k: int) {
    && 0 <= k < |needs| && Hits(packages, NormalizedPurl(needs[k].purl)) == 0
    && forall j :: 0 <= j < k ==> NormalizedPurl(needs[j].purl) != NormalizedPurl(needs[k].purl)
  }

  lemma SupplyNext(needs: seq<Need>, application: string, packages: seq<Package>, rels: seq<Rel>)
    returns (next: seq<Package>, edges: seq<Rel>)
    requires needs != [] && Supply(needs, application, packages, rels).Some?
    ensures Supply(needs, application, packages, rels) == Supply(needs[1..], application, next, edges)
    ensures Hits(packages, NormalizedPurl(needs[0].purl)) <= 1
    ensures next == if Added(needs, packages, 0) then packages + [needs[0].template] else packages
  {
    var found := Ensure(packages, needs[0]).value;
    next, edges := found.0, AddRels(rels, Edges(needs[0], application, found.1.id));
  }

  lemma AddedNext(needs: seq<Need>, packages: seq<Package>, next: seq<Package>, k: nat)
    requires needs != [] && NeedOk(needs[0])
    requires next == if Added(needs, packages, 0) then packages + [needs[0].template] else packages
    ensures Added(needs[1..], next, k) <==> Added(needs, packages, k + 1)
  {
    if k + 1 < |needs| {
      var key, rest := NormalizedPurl(needs[k + 1].purl), needs[1..];
      assert rest[k] == needs[k + 1] && forall j :: 0 <= j < k ==> rest[j] == needs[j + 1];
      TemplateMatches(needs[0], key);
      Sorting.SumAppend(ByPurl(key), packages, [needs[0].template]);
      Sorting.SumOne(ByPurl(key), needs[0].template);
      if Added(rest, next, k) {
        forall j | 0 <= j < k + 1 ensures NormalizedPurl(needs[j].purl) != key {
          assert j > 0 ==> needs[j] == rest[j - 1];
        }
      }
    }
  }

  predicate Template(needs: seq<Need>, packages: seq<Package>, p: Package) {
    exists k :: 0 <= k < |needs| && Added(needs, packages, k) && p == needs[k].template
  }

  lemma TemplateNext(needs: seq<Need>, packages: seq<Package>, next: seq<Package>, p: Package)
    requires needs != [] && NeedOk(needs[0])
    requires next == if Added(needs, packages, 0) then packages + [needs[0].template] else packages
    ensures Template(needs, packages, p) <==>
      (Added(needs, packages, 0) && p == needs[0].template) || Template(needs[1..], next, p)
  {
    var rest := needs[1..];
    forall k | 0 <= k < |rest| ensures rest[k] == needs[k + 1] && (Added(rest, next, k) <==> Added(needs, packages, k + 1)) {
      AddedNext(needs, packages, next, k);
    }
    if Template(rest, next, p) {
      var k :| 0 <= k < |rest| && Added(rest, next, k) && p == rest[k].template;
      assert Added(needs, packages, k + 1);
    }
    if Template(needs, packages, p) {
      var k :| 0 <= k < |needs| && Added(needs, packages, k) && p == needs[k].template;
      assert k > 0 ==> rest[k - 1] == needs[k] && Added(rest, next, k - 1);
    }
  }

  /** What supplying appends are the templates of the needs that had no package. */
  lemma {:induction false} SupplyTail(
      needs: seq<Need>, application: string, packages: seq<Package>, rels: seq<Rel>, after: seq<Package>, more: seq<Rel>)
    requires forall n :: n in needs ==> NeedOk(n)
    requires Supply(needs, application, packages, rels) == Some((after, more))
    ensures packages <= after
    ensures forall p :: p in after[|packages|..] <==> Template(needs, packages, p)
    decreases |needs|
  {
    if needs == [] {
      assert after[|packages|..] == [];
    } else {
      assert needs[0] in needs && forall n :: n in needs[1..] ==> n in needs;
      var next, edges := SupplyNext(needs, application, packages, rels);
      SupplyTail(needs[1..], application, next, edges, after, more);
      TailNext(packages, needs[0].template, next, after);
      forall p ensures p in after[|packages|..] <==> Template(needs, packages, p) {
        TemplateNext(needs, packages, next, p);
      }
    }
  }

  lemma TailNext(packages: seq<Package>, template: Package, next: seq<Package>, after: seq<Package>)
    requires next <= after && (next == packages || next == packages + [template])
    ensures packages <= after
    ensures after[|packages|..] == (if next == packages then [] else [template]) + after[|next|..]
  {}

  /** It meets every need. */
  lemma {:induction false} SupplyMeet(
      needs: seq<Need>, application: string, packages: seq<Package>, rels: seq<Rel>, k: nat) returns (p: Package)
    requires forall n :: n in needs ==> NeedOk(n)
    requires Supply(needs, application, packages, rels).Some? && k < |needs|
    ensures var (after, more) := Supply(needs, application, packages, rels).value;
      Met(needs[k], application, after, more, p)
    decreases |needs|
  {
    assert needs[0] in needs && forall n :: n in needs[1..] ==> n in needs;
    var next, q, edges := SupplyStep(needs, application, packages, rels);
    var (after, more) := Supply(needs[1..], application, next, edges).value;
    if k == 0 {
      p := q;
      SupplyAppends(needs[1..], application, next, edges, NormalizedPurl(needs[0].purl));
      MetGrows(needs[0], application, p, next, edges, after, more);
    } else {
      p := SupplyMeet(needs[1..], application, next, edges, k - 1);
    }
  }

  lemma SupplyMeets(needs: seq<Need>, application: string, packages: seq<Package>, rels: seq<Rel>)
    requires forall n :: n in needs ==> NeedOk(n)
    requires Supply(needs, application, packages, rels).Some?
    ensures var (after, more) := Supply(needs, application, packages, rels).value;
      AllMet(needs, application, after, more)
  {
    var (after, more) := Supply(needs, application, packages, rels).value;
    forall need | need in needs ensures exists p :: Met(need, application, after, more, p) {
      var k :| 0 <= k < |needs| && needs[k] == need;
      var p := SupplyMeet(needs, application, packages, rels, k);
    }
  }

  // ---------- a settled document ----------

  /** The application is there once, carries the release's fields and meets no rival. */
  predicate Identified(r: Release, packages: seq<Package>, application: Package) {
    && Found(packages, ApplicationPurl(r), application) && Marked(r, application) == application
    && forall p :: p in packages ==> !Conflicts(r, p)
  }

  ghost predicate PackagesSettled(r: Release, d: Document, application: Package) {
    && Identified(r, d.packages, application)
    && DebianOk(r, d.packages)
    && Rel(d.id, "DESCRIBES", application.id) in d.rels
    && AllMet(Needs(r, d.packages), application.id, d.packages, d.rels)
  }

  /** The one file of a record carries what the inventory says and stands in the application. */
  predicate FileDone(files: seq<File>, rels: seq<Rel>, application: string, rec: Record, f: File) {
    && Sorting.Sum(AtPath(rec.path), files) == 1 && f in files && SourcePath(f.fileName) == rec.path
    && Filled(f, rec) == f && Agrees(f, rec)
    && Rel(application, "CONTAINS", f.id) in rels
  }

  predicate InfoDone(r: Release, infos: seq<Info>, rec: Record) {
    rec.text.Some? ==> Sorting.Sum(WithId(rec.concluded), infos) == 1 && ExpectedInfo(r, rec) in infos
  }

  ghost predicate RecordDone(r: Release, s: Sources, application: string, rec: Record) {
    InfoDone(r, s.infos, rec) && exists f :: FileDone(s.files, s.rels, application, rec, f)
  }

  ghost predicate FilesSettled(r: Release, d: Document, application: string) {
    IsSource(d.name, d.packages) ==>
      forall rec :: rec in r.inventory ==> RecordDone(r, Sources(d.files, d.rels, d.infos), application, rec)
  }

  ghost predicate EdgesSettled(d: Document, application: Package) {
    && (forall e :: e in RuntimeEdges(d.files, application.id, RUNTIME_PATHS) ==> e in d.rels)
    && (forall e :: e in DependencyEdges(d.packages, application) ==> e in d.rels)
  }

  predicate InOrder(d: Document) {
    && Sorting.SortedBy(d.packages, ByName) && Sorting.SortedBy(d.files, ByFileName)
    && Sorting.SortedBy(d.rels, ByEnds) && Sorting.SortedBy(d.infos, ByLicense)
  }

  ghost predicate Settled(r: Release, d: Document, application: Package) {
    PackagesSettled(r, d, application) && FilesSettled(r, d, application.id) && EdgesSettled(d, application)
  }

  lemma PackagesStay(r: Release, d: Document, application: Package)
    requires PackagesSettled(r, d, application)
    ensures AugmentPackages(r, d) == Some((d.packages, application, d.rels))
  {
    var key := ApplicationPurl(r);
    FoundAt(d.packages, key, application);
    var i := Sorting.Index(ByPurl(key), d.packages);
    assert d.packages[i := application] == d.packages;
    SupplyStays(Needs(r, d.packages), application.id, d.packages, d.rels);
  }

  lemma RecordStays(r: Release, s: Sources, application: string, rec: Record)
    requires RecordDone(r, s, application, rec)
    ensures Define(r, s.infos, rec) == Some(s.infos)
    ensures var placed := Place(r, s.files, |s.files|, rec);
      placed.Some? && placed.value.0 == s.files && Rel(application, "CONTAINS", placed.value.1.id) in s.rels
  {
    var f :| FileDone(s.files, s.rels, application, rec, f);
    assert s.files[..|s.files|] == s.files;
    var i :| 0 <= i < |s.files| && s.files[i] == f;
    Sorting.OnlyOne(AtPath(rec.path), s.files, i);
    assert s.files[i := f] == s.files;
    if rec.text.Some? {
      var info := ExpectedInfo(r, rec);
      var j :| 0 <= j < |s.infos| && s.infos[j] == info;
      Sorting.OnlyOne(WithId(rec.concluded), s.infos, j);
    }
  }

  lemma {:induction false} SourcesStay(r: Release, s: Sources, application: string, records: seq<Record>)
    requires forall rec :: rec in records ==> RecordDone(r, s, application, rec)
    ensures FileSources(r, application, |s.files|, records, s) == Some(s)
    decreases |records|
  {
    if records != [] {
      assert records[0] in records && forall rec :: rec in records[1..] ==> rec in records;
      RecordStays(r, s, application, records[0]);
      SourcesStay(r, s, application, records[1..]);
    }
  }

  lemma OrderStays(d: Document)
    requires InOrder(d)
    ensures Ordered(d) == d
  {
    Sorting.SortedStays(d.packages, ByName);
    Sorting.SortedStays(d.files, ByFileName);
    Sorting.SortedStays(d.rels, ByEnds);
    Sorting.SortedStays(d.infos, ByLicense);
  }

  /** A settled document in order is a fixed point. */
  lemma SettledStays(r: Release, d: Document, application: Package)
    requires Settled(r, d, application) && InOrder(d)
    ensures Augment(r, d) == Some(d)
  {
    PackagesStay(r, d, application);
    if IsSource(d.name, d.packages) {
      SourcesStay(r, Sources(d.files, d.rels, d.infos), application.id, r.inventory);
    }
    AddRelsStay(d.rels, RuntimeEdges(d.files, application.id, RUNTIME_PATHS));
    AddRelsStay(d.rels, DependencyEdges(d.packages, application));
    OrderStays(d);
  }
}
