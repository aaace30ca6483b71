/** The promises of augment_spdx over a whole run. */
module SbomTheorem {
  import opened Common
  import opened Sbom
  import opened SbomRelease
  import opened SbomRerun
  import opened SbomSettles
  import opened SbomForecast
  import Sorting

  /** The document before the final sort. */
  function Unordered(d: Document, packages: seq<Package>, application: Package, s: Sources): Document {
    var contained := AddRels(s.rels, RuntimeEdges(s.files, application.id, RUNTIME_PATHS));
    Document(d.id, d.name, packages, s.files, AddRels(contained, DependencyEdges(packages, application)), s.infos)
  }

  /** The steps of a successful run. */
  lemma Steps(r: Release, d: Document)
    returns (packages: seq<Package>, application: Package, rels: seq<Rel>, s: Sources)
    requires Augment(r, d).Some?
    ensures AugmentPackages(r, d) == Some((packages, application, rels))
    ensures AugmentFiles(r, d, packages, application.id, rels) == Some(s)
    ensures Augment(r, d).value == Ordered(Unordered(d, packages, application, s))
  {
    var first := AugmentPackages(r, d).value;
    packages, application, rels := first.0, first.1, first.2;
    s := AugmentFiles(r, d, packages, application.id, rels).value;
  }

  // ---------- every run ----------

  lemma NeedsOk(r: Release, packages: seq<Package>)
    ensures forall need :: need in Needs(r, packages) ==> NeedOk(need)
  {}

  lemma {:induction false} SupplyOnce(needs: seq<Need>, application: string, packages: seq<Package>, rels: seq<Rel>, e: Rel)
    requires Supply(needs, application, packages, rels).Some?
    ensures var more := Supply(needs, application, packages, rels).value.1;
      multiset(more)[e] <= if e in rels then multiset(rels)[e] else 1
    decreases |needs|
  {
    if needs != [] {
      var (next, p) := Ensure(packages, needs[0]).value;
      var edges := Edges(needs[0], application, p.id);
      AddRelsOnce(rels, edges, e);
      SupplyOnce(needs[1..], application, next, AddRels(rels, edges), e);
    }
  }

  lemma {:induction false} SourcesOnce(
      r: Release, application: string, known: nat, records: seq<Record>, s: Sources, e: Rel)
    requires known <= |s.files| && FileSources(r, application, known, records, s).Some?
    ensures var more := FileSources(r, application, known, records, s).value.rels;
      multiset(more)[e] <= if e in s.rels then multiset(s.rels)[e] else 1
    decreases |records|
  {
    if records != [] {
      SourcesOnce(r, application, known, records[1..], Round(r, application, known, records[0], s), e);
    }
  }

  lemma PackagesOnce(r: Release, d: Document, e: Rel)
    requires AugmentPackages(r, d).Some?
    ensures var rels := AugmentPackages(r, d).value.2;
      d.rels <= rels && multiset(rels)[e] <= if e in d.rels then multiset(d.rels)[e] else 1
  {
    var (_, application, _) := AugmentPackages(r, d).value;
    var a, described := PackageSteps(r, d);
    NeedsOk(r, a);
    SupplyAppends(Needs(r, a), application.id, a, described, "");
    SupplyOnce(Needs(r, a), application.id, a, described, e);
  }

  lemma FilesOnce(r: Release, d: Document, packages: seq<Package>, application: string, rels: seq<Rel>, e: Rel)
    requires AugmentFiles(r, d, packages, application, rels).Some?
    ensures var more := AugmentFiles(r, d, packages, application, rels).value.rels;
      rels <= more && multiset(more)[e] <= if e in rels then multiset(rels)[e] else 1
  {
    if IsSource(d.name, packages) {
      var s := Sources(d.files, rels, d.infos);
      SourcesGrow(r, application, |d.files|, r.inventory, s);
      SourcesOnce(r, application, |d.files|, r.inventory, s, e);
    }
  }

  lemma PrefixCount(a: seq<Rel>, b: seq<Rel>, e: Rel)
    requires a <= b
    ensures multiset(a)[e] <= multiset(b)[e]
  {
    assert b == a + b[|a|..];
  }

  /** No edge is lost and none is introduced twice. */
  lemma NoDuplicateEdge(r: Release, d: Document, e: Rel)
    requires Augment(r, d).Some?
    ensures var before, after := multiset(d.rels)[e], multiset(Augment(r, d).value.rels)[e];
      before <= after <= if before > 0 then before else 1
  {
    var packages, application, rels, s := Steps(r, d);
    PackagesOnce(r, d, e);
    FilesOnce(r, d, packages, application.id, rels, e);
    var runtime := RuntimeEdges(s.files, application.id, RUNTIME_PATHS);
    var dependencies := DependencyEdges(packages, application);
    var contained := AddRels(s.rels, runtime);
    AddRelsOnce(s.rels, runtime, e);
    AddRelsHold(s.rels, runtime);
    AddRelsOnce(contained, dependencies, e);
    AddRelsHold(contained, dependencies);
    PrefixCount(d.rels, AddRels(contained, dependencies), e);
    PairOrder();
    Sorting.SortSorts(AddRels(contained, dependencies), ByEnds);
  }

  /** Exactly one package is the application and every other package with a purl is a direct
      dependency of it. */
  lemma EveryDependency(r: Release, d: Document) returns (application: Package)
    requires ReleaseOk(r) && Augment(r, d).Some?
    ensures var after := Augment(r, d).value;
      && Found(after.packages, ApplicationPurl(r), application)
      && application.name == APPLICATION_NAME && application.version == r.version
      && Rel(after.id, "DESCRIBES", application.id) in after.rels
      && forall p :: p in after.packages && p != application && p.purls != [] ==>
           Rel(application.id, "DEPENDS_ON", p.id) in after.rels
  {
    var packages, app, rels, s := Steps(r, d);
    application := app;
    var u := Unordered(d, packages, app, s);
    ApplicationFound(r, d);
    DrawnEdges(r, d);
    FoundOrdered(u, ApplicationPurl(r), app);
    OrderedInOrder(u);
    forall p | p in Ordered(u).packages && p != app && p.purls != []
      ensures Rel(app.id, "DEPENDS_ON", p.id) in Ordered(u).rels
    {
      DependencyIs(packages, app, Rel(app.id, "DEPENDS_ON", p.id));
    }
  }

  lemma ApplicationFound(r: Release, d: Document)
    requires ReleaseOk(r) && AugmentPackages(r, d).Some?
    ensures var (packages, application, rels) := AugmentPackages(r, d).value;
      && Found(packages, ApplicationPurl(r), application) && Marked(r, application) == application
      && Rel(d.id, "DESCRIBES", application.id) in rels
  {
    var (packages, application, rels) := AugmentPackages(r, d).value;
    var a, described := PackageSteps(r, d);
    IdentifyIdentifies(r, d.packages);
    NeedsOk(r, a);
    SupplyAppends(Needs(r, a), application.id, a, described, ApplicationPurl(r));
    Described(d, application.id, described, rels);
  }

  /** Every edge of the last two loops and every earlier one is in the result. */
  lemma DrawnEdges(r: Release, d: Document)
    requires Augment(r, d).Some?
    ensures var (packages, application, rels) := AugmentPackages(r, d).value;
      var s := AugmentFiles(r, d, packages, application.id, rels).value;
      var u := Unordered(d, packages, application, s);
      && rels <= s.rels <= u.rels
      && (forall e :: e in RuntimeEdges(s.files, application.id, RUNTIME_PATHS) ==> e in u.rels)
      && (forall e :: e in DependencyEdges(packages, application) ==> e in u.rels)
  {
    var packages, application, rels, s := Steps(r, d);
    FilesOnce(r, d, packages, application.id, rels, Rel("", "", ""));
    var runtime := RuntimeEdges(s.files, application.id, RUNTIME_PATHS);
    AddRelsHold(s.rels, runtime);
    AddRelsHold(AddRels(s.rels, runtime), DependencyEdges(packages, application));
  }

  // ---------- the second run ----------

  lemma AllMetGrows(needs: seq<Need>, application: string, packages: seq<Package>, rels: seq<Rel>, more: seq<Rel>)
    requires AllMet(needs, application, packages, rels) && rels <= more
    ensures AllMet(needs, application, packages, more)
  {
    forall need | need in needs ensures exists p :: Met(need, application, packages, more, p) {
      var p :| Met(need, application, packages, rels, p);
      MetGrows(need, application, p, packages, rels, packages, more);
    }
  }

  /** The packages are settled after any run that brings no rival of the application. */
  lemma PackagesAreSettled(r: Release, d: Document, u: Document, packages: seq<Package>, application: Package, rels: seq<Rel>)
    requires ReleaseOk(r) && AugmentPackages(r, d) == Some((packages, application, rels))
    requires NoRival(r, Identify(r, d.packages).value.0)
    requires u.id == d.id && u.packages == packages && rels <= u.rels
    ensures PackagesSettled(r, u, application)
  {
    PackagesSettle(r, d);
    AllMetGrows(Needs(r, packages), application.id, packages, rels, u.rels);
    assert forall e :: e in rels ==> e in u.rels;
  }

  lemma RecordGrows(r: Release, s: Sources, more: seq<Rel>, application: string, rec: Record)
    requires RecordDone(r, s, application, rec) && s.rels <= more
    ensures RecordDone(r, s.(rels := more), application, rec)
  {
    var f :| FileDone(s.files, s.rels, application, rec, f);
    assert forall e :: e in s.rels ==> e in more;
    DoneBy(r, s.(rels := more), application, rec, f);
  }

  /** The files are settled after a run on a document the inventory can be looked up in. */
  lemma FilesAreSettled(r: Release, d: Document, u: Document, application: string, rels: seq<Rel>)
    requires ReleaseOk(r) && (IsSource(d.name, u.packages) ==> InventoryOk(d.files, r.inventory))
    requires AugmentFiles(r, d, u.packages, application, rels).Some? && u.name == d.name
    requires var s := AugmentFiles(r, d, u.packages, application, rels).value;
      u.files == s.files && u.infos == s.infos && s.rels <= u.rels
    ensures FilesSettled(r, u, application)
  {
    if IsSource(d.name, u.packages) {
      var start := Sources(d.files, rels, d.infos);
      var s := FileSources(r, application, |d.files|, r.inventory, start).value;
      assert d.files[..|d.files|] == d.files;
      forall k | 0 <= k < |r.inventory| ensures RecordDone(r, Sources(u.files, u.rels, u.infos), application, r.inventory[k]) {
        SourceDone(r, application, |d.files|, r.inventory, start, s, k);
        RecordGrows(r, s, u.rels, application, r.inventory[k]);
        assert s.(rels := u.rels) == Sources(u.files, u.rels, u.infos);
      }
    }
  }

  /** The conditions under which a run lasts, read off its steps. */
  predicate Lasting(r: Release, d: Document)
    requires Augment(r, d).Some?
  {
    var (packages, application, rels) := AugmentPackages(r, d).value;
    var s := AugmentFiles(r, d, packages, application.id, rels).value;
    && NoRival(r, Identify(r, d.packages).value.0)
    && RuntimeDrawn(s.files, application.id, AddRels(s.rels, RuntimeEdges(s.files, application.id, RUNTIME_PATHS)))
    && (IsSource(d.name, packages) ==> InventoryOk(d.files, r.inventory))
  }

  /** What a caller has to check before the first run so that a second one changes nothing: no new
      package passes for the application; of the files at a runtime path the last one by name is the
      last one in the list, or the application contains it or will contain it as the file of a
      record; and in a source document every record can be looked up again. */
  predicate Stable(r: Release, d: Document)
    requires Identify(r, d.packages).Some?
  {
    var (packages, application) := Identify(r, d.packages).value;
    var source := WillBeSource(r, d.name, packages);
    && NoRival(r, packages) && RuntimeAhead(r, d, application.id, source)
    && (source ==> InventoryOk(d.files, r.inventory))
  }

  lemma StableLasts(r: Release, d: Document)
    requires Augment(r, d).Some?
    ensures Identify(r, d.packages).Some? && (Stable(r, d) <==> Lasting(r, d))
  {
    var packages, application, rels, s := Steps(r, d);
    var a, described := PackageSteps(r, d);
    PackagesForecast(r, d, a, described);
    RuntimeComesTrue(r, d, packages, application.id, rels, s);
  }

  /** The last loop draws no edge to a file. */
  lemma RuntimeBeforeDependencies(files: seq<File>, packages: seq<Package>, application: Package, contained: seq<Rel>)
    ensures RuntimeDrawn(files, application.id, AddRels(contained, DependencyEdges(packages, application)))
      <==> RuntimeDrawn(files, application.id, contained)
  {
    var dependencies := DependencyEdges(packages, application);
    AddRelsHold(contained, dependencies);
    assert forall e :: e in contained ==> e in AddRels(contained, dependencies);
    RuntimeKind(Sorting.Sort(files, ByFileName), application.id, RUNTIME_PATHS);
    forall e | e in AddRels(contained, dependencies) && e !in contained ensures e.kind != "CONTAINS" {
      DependencyIs(packages, application, e);
    }
  }

  /** After a run that lasts a second one changes nothing, list order included. */
  lemma LastingStays(r: Release, d: Document)
    requires ReleaseOk(r) && Augment(r, d).Some? && Lasting(r, d)
    ensures Augment(r, Augment(r, d).value) == Augment(r, d)
  {
    var packages, application, rels, s := Steps(r, d);
    var u := Unordered(d, packages, application, s);
    DrawnEdges(r, d);
    PackagesAreSettled(r, d, u, packages, application, rels);
    FilesAreSettled(r, d, u, application.id, rels);
    RuntimeBeforeDependencies(s.files, packages, application,
                              AddRels(s.rels, RuntimeEdges(s.files, application.id, RUNTIME_PATHS)));
    SettledOrdered(r, u, application);
    SettledStays(r, Ordered(u), application);
  }

  // ---------- when it does not hold ----------

  /** A path that no file stands for and that is not its own source path: its new file is not
      found again. */
  predicate Lost(files: seq<File>, rec: Record) {
    Sorting.Sum(AtPath(rec.path), files) == 0 && SourcePath(rec.path) != rec.path
  }

  lemma {:induction false} TrimShrinks(s: string)
    ensures TrimSlashes(s) == s || |TrimSlashes(s)| < |s|
  {
    if s != "" && s[0] == '/' {
      TrimShrinks(s[1..]);
    }
  }

  lemma SourcePathShrinks(path: string)
    requires SourcePath(path) != path
    ensures |SourcePath(path)| < |path|
  {
    TrimShrinks(path);
  }

  lemma {:induction false} LongestLost(files: seq<File>, records: seq<Record>) returns (q: Record)
    requires exists rec :: rec in records && Lost(files, rec)
    ensures q in records && Lost(files, q)
    ensures forall rec :: rec in records && Lost(files, rec) ==> |rec.path| <= |q.path|
    decreases |records|
  {
    var head, rest := records[0], records[1..];
    assert records == [head] + rest;
    if exists rec :: rec in rest && Lost(files, rec) {
      q := LongestLost(files, rest);
      if Lost(files, head) && |head.path| > |q.path| {
        q := head;
      }
    } else {
      q := head;
    }
  }

  /** A path that no new file stands for stays without a file. */
  lemma {:induction false} NoneAt(
      r: Release, application: string, known: nat, records: seq<Record>, s: Sources, path: string)
    requires known <= |s.files| && FileSources(r, application, known, records, s).Some?
    requires Sorting.Sum(AtPath(path), s.files) == 0
    requires forall rec :: rec in records && Sorting.Sum(AtPath(rec.path), s.files[..known]) == 0 ==> SourcePath(rec.path) != path
    ensures Sorting.Sum(AtPath(path), FileSources(r, application, known, records, s).value.files) == 0
    decreases |records|
  {
    if records != [] {
      assert records[0] in records && forall rec :: rec in records[1..] ==> rec in records;
      var next := Round(r, application, known, records[0], s);
      PlaceCounts(r, s.files, known, records[0], path);
      forall rec | rec in records[1..] && Sorting.Sum(AtPath(rec.path), next.files[..known]) == 0
        ensures SourcePath(rec.path) != path
      {
        PlaceCounts(r, s.files, known, records[0], rec.path);
      }
      NoneAt(r, application, known, records[1..], next, path);
    }
  }

  /** The longest lost path has no file after the run. */
  lemma StillLost(r: Release, application: string, s: Sources, q: Record)
    requires FileSources(r, application, |s.files|, r.inventory, s).Some?
    requires Lost(s.files, q) && q in r.inventory
    requires forall rec :: rec in r.inventory && Lost(s.files, rec) ==> |rec.path| <= |q.path|
    ensures Sorting.Sum(AtPath(q.path), FileSources(r, application, |s.files|, r.inventory, s).value.files) == 0
  {
    assert s.files[..|s.files|] == s.files;
    forall rec | rec in r.inventory && Sorting.Sum(AtPath(rec.path), s.files) == 0
      ensures SourcePath(rec.path) != q.path
    {
      if SourcePath(rec.path) != rec.path {
        SourcePathShrinks(rec.path);
        assert Lost(s.files, rec);
      }
    }
    NoneAt(r, application, |s.files|, r.inventory, s, q.path);
  }

  /** A record without a file makes the list of files longer. */
  lemma {:induction false} FilesLonger(
      r: Release, application: string, known: nat, records: seq<Record>, s: Sources, q: Record)
    requires known <= |s.files| && FileSources(r, application, known, records, s).Some?
    ensures var after := FileSources(r, application, known, records, s).value.files;
      && |s.files| <= |after|
      && (q in records && Sorting.Sum(AtPath(q.path), s.files[..known]) == 0 ==> |s.files| < |after|)
    decreases |records|
  {
    if records != [] {
      PlaceCounts(r, s.files, known, records[0], q.path);
      FilesLonger(r, application, known, records[1..], Round(r, application, known, records[0], s), q);
    }
  }

  lemma RunKeepsFiles(r: Release, d: Document, packages: seq<Package>, application: Package, rels: seq<Rel>)
    requires AugmentPackages(r, d) == Some((packages, application, rels)) && Augment(r, d).Some?
    ensures AugmentFiles(r, d, packages, application.id, rels).Some?
    ensures |Augment(r, d).value.files| == |AugmentFiles(r, d, packages, application.id, rels).value.files|
  {
    PairOrder();
    var s := AugmentFiles(r, d, packages, application.id, rels).value;
    Sorting.SortSorts(s.files, ByFileName);
    Sorting.SameSize(Sorting.Sort(s.files, ByFileName), s.files);
  }

  /** A document whose packages are settled and in which a path is lost grows when it is run. */
  lemma GrowsAgain(r: Release, d: Document, application: Package, q: Record)
    requires PackagesSettled(r, d, application) && IsSource(d.name, d.packages)
    requires q in r.inventory && Sorting.Sum(AtPath(q.path), d.files) == 0
    ensures Augment(r, d) != Some(d)
  {
    PackagesStay(r, d, application);
    if Augment(r, d).Some? {
      RunKeepsFiles(r, d, d.packages, application, d.rels);
      assert d.files[..|d.files|] == d.files;
      FilesLonger(r, application.id, |d.files|, r.inventory, Sources(d.files, d.rels, d.infos), q);
    }
  }

  /** What the second run starts with. */
  lemma SecondStart(r: Release, d: Document, packages: seq<Package>, application: Package, rels: seq<Rel>, s: Sources)
    requires ReleaseOk(r) && AugmentPackages(r, d) == Some((packages, application, rels)) && rels <= s.rels
    requires NoRival(r, Identify(r, d.packages).value.0)
    ensures var after := Ordered(Unordered(d, packages, application, s));
      && PackagesSettled(r, after, application)
      && AugmentPackages(r, after) == Some((after.packages, application, after.rels))
      && (IsSource(after.name, after.packages) <==> IsSource(d.name, packages))
  {
    var u := Unordered(d, packages, application, s);
    var runtime := RuntimeEdges(s.files, application.id, RUNTIME_PATHS);
    AddRelsHold(s.rels, runtime);
    AddRelsHold(AddRels(s.rels, runtime), DependencyEdges(packages, application));
    PackagesAreSettled(r, d, u, packages, application, rels);
    PackagesOrdered(r, u, application);
    SourceNameOrdered(u);
    PackagesStay(r, Ordered(u), application);
  }

  /** A document with lost paths grows when it is run again. */
  lemma LostGrows(r: Release, d: Document)
    requires ReleaseOk(r) && Augment(r, d).Some? && NoRival(r, Identify(r, d.packages).value.0)
    requires IsSource(d.name, AugmentPackages(r, d).value.0)
    requires exists rec :: rec in r.inventory && Lost(d.files, rec)
    ensures Augment(r, Augment(r, d).value) != Augment(r, d)
  {
    var packages, application, rels, s := Steps(r, d);
    DrawnEdges(r, d);
    SecondStart(r, d, packages, application, rels, s);
    var q := LongestLost(d.files, r.inventory);
    StillLost(r, application.id, Sources(d.files, rels, d.infos), q);
    Sorting.SumSorted(AtPath(q.path), s.files, ByFileName);
    GrowsAgain(r, Ordered(Unordered(d, packages, application, s)), application, q);
  }

  // ---------- hashes in upper case ----------

  lemma PlaceAt(r: Release, files: seq<File>, known: nat, rec: Record, i: nat)
    requires known <= |files| && Place(r, files, known, rec).Some? && i < |files|
    requires i >= known || SourcePath(files[i].fileName) != rec.path
    ensures var after := Place(r, files, known, rec).value.0;
      i < |after| && after[i] == files[i]
  {}

  /** A file that no later record speaks of stays where it is. */
  lemma {:induction false} StaysAt(
      r: Release, application: string, known: nat, records: seq<Record>, s: Sources, after: Sources, i: nat)
    requires known <= |s.files| && FileSources(r, application, known, records, s) == Some(after) && i < |s.files|
    requires i >= known || Apart(records, SourcePath(s.files[i].fileName))
    ensures i < |after.files| && after.files[i] == s.files[i] && s.rels <= after.rels
    decreases |records|
  {
    if records != [] {
      assert records[0] in records && forall rec :: rec in records[1..] ==> rec in records;
      PlaceAt(r, s.files, known, records[0], i);
      StaysAt(r, application, known, records[1..], Round(r, application, known, records[0], s), after, i);
    }
  }

  /** Where a record is placed. */
  lemma PlacedAt(r: Release, files: seq<File>, known: nat, rec: Record) returns (i: nat)
    requires known <= |files| && Place(r, files, known, rec).Some?
    ensures var (after, f) := Place(r, files, known, rec).value;
      && i < |after| && after[i] == f && Filled(f, rec) == f
      && (if Sorting.Sum(AtPath(rec.path), files[..known]) == 0 then i >= known && f.fileName == rec.path
          else i < known && SourcePath(f.fileName) == rec.path)
  {
    if Sorting.Sum(AtPath(rec.path), files[..known]) == 0 {
      FilledDone(NewFile(r, rec), rec);
      i := |files|;
    } else {
      i := Sorting.Index(AtPath(rec.path), files[..known]);
      FilledDone(files[i], rec);
    }
  }

  /** f is the file of a record: the one that was found, or a new one named by the path. */
  predicate Carries(before: seq<File>, rec: Record, f: File) {
    && Filled(f, rec) == f
    && (if Sorting.Sum(AtPath(rec.path), before) == 0 then f.fileName == rec.path else SourcePath(f.fileName) == rec.path)
  }

  lemma FirstCarried(
      r: Release, application: string, known: nat, records: seq<Record>, s: Sources, after: Sources) returns (i: nat)
    requires known <= |s.files| && FileSources(r, application, known, records, s) == Some(after)
    requires records != [] && DistinctPaths(records)
    ensures i < |after.files| && Carries(s.files[..known], records[0], after.files[i])
    ensures Rel(application, "CONTAINS", after.files[i].id) in after.rels
  {
    var next := Round(r, application, known, records[0], s);
    i := PlacedAt(r, s.files, known, records[0]);
    assert Rel(application, "CONTAINS", next.files[i].id) in next.rels;
    StaysAt(r, application, known, records[1..], next, after, i);
  }

  /** After the loop every record has its file inside the application. */
  lemma {:induction false} RecordCarried(
      r: Release, application: string, known: nat, records: seq<Record>, s: Sources, after: Sources, k: nat)
    returns (i: nat)
    requires known <= |s.files| && FileSources(r, application, known, records, s) == Some(after)
    requires k < |records| && DistinctPaths(records)
    ensures i < |after.files| && Carries(s.files[..known], records[k], after.files[i])
    ensures Rel(application, "CONTAINS", after.files[i].id) in after.rels
    decreases |records|
  {
    if k == 0 {
      i := FirstCarried(r, application, known, records, s, after);
    } else {
      var next := Round(r, application, known, records[0], s);
      PlaceCounts(r, s.files, known, records[0], records[k].path);
      i := RecordCarried(r, application, known, records[1..], next, after, k - 1);
      assert records[1..][k - 1] == records[k];
    }
  }

  /** A file with another hash or license stops the loop. */
  lemma {:induction false} Refused(r: Release, application: string, known: nat, records: seq<Record>, s: Sources,
                                   rec: Record, i: nat)
    requires known <= |s.files| && i < known && rec in records && DistinctPaths(records)
    requires SourcePath(s.files[i].fileName) == rec.path && !Agrees(s.files[i], rec)
    ensures FileSources(r, application, known, records, s) == None
    decreases |records|
  {
    if records[0] == rec {
      Sorting.SumMember(AtPath(rec.path), s.files[..known], s.files[..known][i]);
      if Sorting.Sum(AtPath(rec.path), s.files[..known]) == 1 {
        Sorting.OnlyOne(AtPath(rec.path), s.files[..known], i);
      }
    } else if FileSources(r, application, known, records, s).Some? {
      assert records == [records[0]] + records[1..];
      PlaceAt(r, s.files, known, records[0], i);
      Refused(r, application, known, records[1..], Round(r, application, known, records[0], s), rec, i);
    }
  }

  /** The loop over the inventory stops a run. */
  lemma FilesStop(r: Release, d: Document, application: Package)
    requires AugmentPackages(r, d) == Some((d.packages, application, d.rels)) && IsSource(d.name, d.packages)
    requires FileSources(r, application.id, |d.files|, r.inventory, Sources(d.files, d.rels, d.infos)) == None
    ensures Augment(r, d) == None
  {}

  /** An upper-case hash of the inventory stops the second run. */
  lemma UpperCaseStops(r: Release, d: Document, k: nat)
    requires ReleaseOk(r) && Augment(r, d).Some? && NoRival(r, Identify(r, d.packages).value.0)
    requires IsSource(d.name, AugmentPackages(r, d).value.0)
    requires k < |r.inventory| && Lower(r.inventory[k].sha) != r.inventory[k].sha && !Lost(d.files, r.inventory[k])
    ensures Augment(r, Augment(r, d).value) == None
  {
    var packages, application, rels, s := Steps(r, d);
    DrawnEdges(r, d);
    SecondStart(r, d, packages, application, rels, s);
    var after := Ordered(Unordered(d, packages, application, s));
    UpperCaseRefused(r, d, rels, application.id, s, k, after);
    FilesStop(r, after, application);
  }

  lemma UpperCaseRefused(
      r: Release, d: Document, rels: seq<Rel>, application: string, s: Sources, k: nat, after: Document)
    requires ReleaseOk(r) && FileSources(r, application, |d.files|, r.inventory, Sources(d.files, rels, d.infos)) == Some(s)
    requires k < |r.inventory| && Lower(r.inventory[k].sha) != r.inventory[k].sha && !Lost(d.files, r.inventory[k])
    requires after.files == Sorting.Sort(s.files, ByFileName)
    ensures FileSources(r, application, |after.files|, r.inventory, Sources(after.files, after.rels, after.infos)) == None
  {
    assert d.files[..|d.files|] == d.files;
    var i := RecordCarried(r, application, |d.files|, r.inventory, Sources(d.files, rels, d.infos), s, k);
    PairOrder();
    Sorting.SameElements(s.files, ByFileName);
    RefusedAgain(r, after, application, r.inventory[k], s.files[i]);
  }

  lemma RefusedAgain(r: Release, d: Document, application: string, rec: Record, f: File)
    requires ReleaseOk(r) && rec in r.inventory && f in d.files
    requires SourcePath(f.fileName) == rec.path && Filled(f, rec) == f && Lower(rec.sha) != rec.sha
    ensures FileSources(r, application, |d.files|, r.inventory, Sources(d.files, d.rels, d.infos)) == None
  {
    FilledDone(f, rec);
    var i :| 0 <= i < |d.files| && d.files[i] == f;
    assert d.files[..|d.files|] == d.files;
    Refused(r, application, |d.files|, r.inventory, Sources(d.files, d.rels, d.infos), rec, i);
  }

  // ---------- rivals and runtime files ----------

  lemma RivalAdded(r: Release, a: seq<Package>, application: Package, described: seq<Rel>,
                   packages: seq<Package>, rels: seq<Rel>) returns (p: Package)
    requires Identified(r, a, application) && !NoRival(r, a)
    requires Supply(Needs(r, a), application.id, a, described) == Some((packages, rels))
    ensures p in packages && Conflicts(r, p)
  {
    var needs := Needs(r, a);
    var k :| 0 <= k < |needs| && Added(needs, a, k) && LooksLikeApplication(needs[k].template);
    NeedsOk(r, a);
    SupplyTail(needs, application.id, a, described, packages, rels);
    p := needs[k].template;
    assert Template(needs, a, p) && needs[k] in needs;
    TemplateMatches(needs[k], ApplicationPurl(r));
  }

  lemma ConflictStops(r: Release, d: Document, p: Package)
    requires p in d.packages && Conflicts(r, p)
    ensures Augment(r, d) == None
  {}

  /** A new package that passes for the application stops the second run. */
  lemma RivalStops(r: Release, d: Document)
    requires ReleaseOk(r) && Augment(r, d).Some? && !NoRival(r, Identify(r, d.packages).value.0)
    ensures Augment(r, Augment(r, d).value) == None
  {
    var packages, application, rels, s := Steps(r, d);
    var a, described := PackageSteps(r, d);
    IdentifyIdentifies(r, d.packages);
    var p := RivalAdded(r, a, application, described, packages, rels);
    OrderedInOrder(Unordered(d, packages, application, s));
    ConflictStops(r, Augment(r, d).value, p);
  }

  lemma RuntimeEdgesDrawn(
      r: Release, d: Document, packages: seq<Package>, application: Package, rels: seq<Rel>, s: Sources, e: Rel)
    requires AugmentPackages(r, d) == Some((packages, application, rels))
    requires AugmentFiles(r, d, packages, application.id, rels) == Some(s)
    requires e in RuntimeEdges(s.files, application.id, RUNTIME_PATHS)
    ensures Augment(r, d) == Some(Ordered(Unordered(d, packages, application, s))) && e in Augment(r, d).value.rels
  {
    var runtime := RuntimeEdges(s.files, application.id, RUNTIME_PATHS);
    AddRelsHold(s.rels, runtime);
    AddRelsHold(AddRels(s.rels, runtime), DependencyEdges(packages, application));
    OrderedInOrder(Unordered(d, packages, application, s));
  }

  /** A missing edge to a runtime file is drawn by the second run. */
  lemma RuntimeEdgeAdded(r: Release, d: Document, application: Package, e: Rel)
    requires AugmentPackages(r, d) == Some((d.packages, application, d.rels)) && FilesSettled(r, d, application.id)
    requires e in RuntimeEdges(d.files, application.id, RUNTIME_PATHS) && e !in d.rels
    ensures Augment(r, d) != Some(d)
  {
    var s := Sources(d.files, d.rels, d.infos);
    if IsSource(d.name, d.packages) {
      SourcesStay(r, s, application.id, r.inventory);
    }
    RuntimeEdgesDrawn(r, d, d.packages, application, d.rels, s, e);
  }

  lemma RuntimeChanges(r: Release, d: Document)
    requires ReleaseOk(r) && Augment(r, d).Some? && NoRival(r, Identify(r, d.packages).value.0) && !Lasting(r, d)
    requires IsSource(d.name, AugmentPackages(r, d).value.0) ==> InventoryOk(d.files, r.inventory)
    ensures Augment(r, Augment(r, d).value) != Augment(r, d)
  {
    var packages, application, rels, s := Steps(r, d);
    var u := Unordered(d, packages, application, s);
    DrawnEdges(r, d);
    SecondStart(r, d, packages, application, rels, s);
    FilesAreSettled(r, d, u, application.id, rels);
    FilesOrdered(r, u, application.id);
    RuntimeBeforeDependencies(s.files, packages, application,
                              AddRels(s.rels, RuntimeEdges(s.files, application.id, RUNTIME_PATHS)));
    OrderedInOrder(u);
    var e :| e in RuntimeEdges(Sorting.Sort(s.files, ByFileName), application.id, RUNTIME_PATHS) && e !in u.rels;
    RuntimeEdgeAdded(r, Ordered(u), application, e);
  }

  /** Exactly when the second run changes nothing. */
  lemma SecondRunExact(r: Release, d: Document)
    requires ReleaseOk(r) && Augment(r, d).Some?
    ensures Identify(r, d.packages).Some?
    ensures Augment(r, Augment(r, d).value) == Augment(r, d) <==> Stable(r, d)
  {
    StableLasts(r, d);
    var source := IsSource(d.name, AugmentPackages(r, d).value.0);
    if Lasting(r, d) {
      LastingStays(r, d);
    } else if !NoRival(r, Identify(r, d.packages).value.0) {
      RivalStops(r, d);
    } else if source && exists rec :: rec in r.inventory && Lost(d.files, rec) {
      LostGrows(r, d);
    } else if source && !InventoryOk(d.files, r.inventory) {
      var rec :| rec in r.inventory && !RecordOk(d.files, rec);
      var k :| 0 <= k < |r.inventory| && r.inventory[k] == rec;
      UpperCaseStops(r, d, k);
    } else {
      RuntimeChanges(r, d);
    }
  }

  /** A release whose names keep apart, on a document with one file at most at each runtime path. */
  lemma SecondRunChangesNothing(r: Release, d: Document)
    requires ReleaseOk(r) && ReleaseApart(r) && Augment(r, d).Some?
    requires Identify(r, d.packages).Some?
    requires var source := WillBeSource(r, d.name, Identify(r, d.packages).value.0);
      RuntimeOnce(FilesAhead(r, d, source)) && (source ==> InventoryOk(d.files, r.inventory))
    ensures Stable(r, d) && Augment(r, Augment(r, d).value) == Augment(r, d)
  {
    var (packages, application) := Identify(r, d.packages).value;
    var files := FilesAhead(r, d, WillBeSource(r, d.name, packages));
    ApartNoRival(r, packages);
    OnceIsDrawn(files, application.id, RuntimeEdges(files, application.id, RUNTIME_PATHS));
    SecondRunExact(r, d);
  }

  // ---------- four documents that a second run changes or refuses ----------

  /** A release without components and Debian packages on a document without packages. */
  lemma BarePackages(r: Release, d: Document)
    requires ReleaseOk(r) && r.components == [] && r.mappings == [] && d.packages == []
    ensures var application := Marked(r, NewApplication(r));
      && Identify(r, d.packages) == Some(([application], application)) && NoRival(r, [application])
      && AugmentPackages(r, d)
         == Some(([application], application, AddRel(d.rels, Rel(d.id, "DESCRIBES", application.id))))
  {
    var application := Marked(r, NewApplication(r));
    assert d.packages + [application] == [application];
    assert Needs(r, [application]) == [];
  }

  /** Two files at one runtime path: the first run links the last one of the input, the second run
      the last one of the sorted list, which is another file. */
  lemma RuntimeFileChanges(r: Release, id: string)
    requires ReleaseOk(r) && r.components == [] && r.mappings == [] && r.inventory == []
    ensures
      var a := File("a", "cockroach/cockroach", [], None, [], None, 0);
      var b := File("b", "/cockroach/cockroach", [], None, [], None, 0);
      var d := Document(id, "image", [], [a, b], [], []);
      Augment(r, d).Some? && Augment(r, Augment(r, d).value) != Augment(r, d)
  {
    var a := File("a", "cockroach/cockroach", [], None, [], None, 0);
    var b := File("b", "/cockroach/cockroach", [], None, [], None, 0);
    var d := Document(id, "image", [], [a, b], [], []);
    var application := Marked(r, NewApplication(r));
    BarePackages(r, d);
    LastRuntimeFile(a, b);
    OtherRuntimeFile(a, b, application.id, AddRel([], Rel(id, "DESCRIBES", application.id)));
    BareUnstable(r, d, application, AddRel([], Rel(id, "DESCRIBES", application.id)));
    SecondRunExact(r, d);
  }

  lemma BareUnstable(r: Release, d: Document, application: Package, rels: seq<Rel>)
    requires AugmentPackages(r, d) == Some(([application], application, rels)) && r.inventory == []
    requires !RuntimeDrawn(d.files, application.id, AddRels(rels, RuntimeEdges(d.files, application.id, RUNTIME_PATHS)))
    ensures Augment(r, d).Some? && Identify(r, d.packages).Some? && !Stable(r, d)
  {
    StableLasts(r, d);
    assert AugmentFiles(r, d, [application], application.id, rels) == Some(Sources(d.files, rels, d.infos));
  }

  lemma LastRuntimeFile(a: File, b: File)
    requires a.fileName == "cockroach/cockroach" && b.fileName == "/cockroach/cockroach"
    ensures LastAt([a, b], RUNTIME_PATHS[0]) == Some(b) && LastAt([a, b], RUNTIME_PATHS[1]) == None
    ensures LastAt(Sorting.Sort([a, b], ByFileName), RUNTIME_PATHS[0]) == Some(a)
  {
    assert TrimSlashes(a.fileName) == a.fileName && TrimSlashes(b.fileName) == a.fileName;
    assert RUNTIME_PATHS[0][1] == 'c' && RUNTIME_PATHS[1][1] == 'u';
    SwappedFiles(a, b);
    LastOfTwo(a, b, RUNTIME_PATHS[0], RUNTIME_PATHS[1]);
  }

  lemma SwappedFiles(a: File, b: File)
    requires !ByFileName(a, b)
    ensures Sorting.Sort([a, b], ByFileName) == [b, a]
  {
    assert [a, b][..1] == [a] && [a][..0] == [];
    assert Sorting.Sort([a], ByFileName) == [a];
    assert Sorting.Insert(b, [a], ByFileName) == Sorting.Insert(b, [], ByFileName) + [a] == [b, a];
  }

  lemma LastOfTwo(a: File, b: File, path: string, other: string)
    requires "/" + TrimSlashes(a.fileName) == "/" + TrimSlashes(b.fileName) == path != other
    ensures LastAt([a, b], path) == Some(b) && LastAt([b, a], path) == Some(a) && LastAt([a, b], other) == None
  {
    assert [a, b][..1] == [a] && [a][..0] == [];
    assert LastAt([a], other) == LastAt([], other) == None;
  }

  lemma OtherRuntimeFile(a: File, b: File, application: string, rels: seq<Rel>)
    requires a.id != b.id && Rel(application, "CONTAINS", a.id) !in rels
    requires LastAt([a, b], RUNTIME_PATHS[0]) == Some(b) && LastAt([a, b], RUNTIME_PATHS[1]) == None
    requires LastAt(Sorting.Sort([a, b], ByFileName), RUNTIME_PATHS[0]) == Some(a)
    ensures var runtime := RuntimeEdges([a, b], application, RUNTIME_PATHS);
      !RuntimeDrawn([a, b], application, AddRels(rels, runtime))
  {
    var sorted, runtime := Sorting.Sort([a, b], ByFileName), RuntimeEdges([a, b], application, RUNTIME_PATHS);
    assert RUNTIME_PATHS[1..] == [RUNTIME_PATHS[1]] && RUNTIME_PATHS[1..][1..] == [];
    assert RuntimeEdges([a, b], application, RUNTIME_PATHS[1..]) == [];
    assert runtime == [Rel(application, "CONTAINS", b.id)];
    assert Rel(application, "CONTAINS", a.id) in RuntimeEdges(sorted, application, RUNTIME_PATHS);
    AddRelsHold(rels, runtime);
  }

  /** A component that passes for the application stops the second run on an empty document. */
  lemma RivalComponent(r: Release, id: string, name: string, c: Component)
    requires ReleaseOk(r) && r.components == [c] && r.mappings == [] && r.inventory == []
    requires LooksLikeApplication(ComponentNeed(r, c).template) && NormalizedPurl(ComponentPurl(c)) != ApplicationPurl(r)
    ensures var d := Document(id, name, [], [], [], []);
      Augment(r, d).Some? && Augment(r, Augment(r, d).value) == None
  {
    var d, need := Document(id, name, [], [], [], []), ComponentNeed(r, c);
    var application := Marked(r, NewApplication(r));
    assert d.packages + [application] == [application];
    assert Needs(r, [application]) == [need];
    RivalSupplied(r, application, need, AddRel([], Rel(id, "DESCRIBES", application.id)));
    assert !NoRival(r, [application]);
    BareRun(r, d, [application], application);
    RivalStops(r, d);
  }

  lemma BareRun(r: Release, d: Document, a: seq<Package>, application: Package)
    requires Identify(r, d.packages) == Some((a, application)) && DebianOk(r, a) && r.inventory == []
    requires Supply(Needs(r, a), application.id, a, AddRel(d.rels, Rel(d.id, "DESCRIBES", application.id))).Some?
    ensures Augment(r, d).Some?
  {
    var rels := AddRel(d.rels, Rel(d.id, "DESCRIBES", application.id));
    var supplied := Supply(Needs(r, a), application.id, a, rels).value;
    assert AugmentPackages(r, d) == Some((supplied.0, application, supplied.1));
    assert AugmentFiles(r, d, supplied.0, application.id, supplied.1) == Some(Sources(d.files, supplied.1, d.infos));
  }

  lemma RivalSupplied(r: Release, application: Package, need: Need, rels: seq<Rel>)
    requires ReleaseOk(r) && application.purls == [ApplicationPurl(r)] && NormalizedPurl(need.purl) != ApplicationPurl(r)
    ensures Added([need], [application], 0) && Supply([need], application.id, [application], rels).Some?
  {
    var key := NormalizedPurl(need.purl);
    ApplicationPurlIsKey(r);
    Sorting.SumOne(ByPurl(key), application);
    Sorting.SumOne(RefersTo(key), ApplicationPurl(r));
    assert [need][1..] == [];
  }

  lemma OneRecordFiled(r: Release, application: string, rec: Record, rels: seq<Rel>)
    requires rec.text.None?
    ensures FileSources(r, application, 0, [rec], Sources([], rels, [])).Some?
  {
    var s := Sources([], rels, []);
    assert s.files[..0] == [] && Place(r, s.files, 0, rec).Some? && Define(r, s.infos, rec) == Some([]);
    assert [rec][1..] == [];
  }

  lemma RunsOn(r: Release, d: Document, packages: seq<Package>, application: Package, rels: seq<Rel>)
    requires AugmentPackages(r, d) == Some((packages, application, rels))
    requires AugmentFiles(r, d, packages, application.id, rels).Some?
    ensures Augment(r, d).Some?
  {}

  lemma BareSource(r: Release, id: string, name: string, rec: Record)
    requires ReleaseOk(r) && r.components == [] && r.mappings == [] && r.inventory == [rec]
    requires SourceName(name) && rec.text.None?
    ensures var d := Document(id, name, [], [], [], []);
      && Augment(r, d).Some? && NoRival(r, Identify(r, d.packages).value.0)
      && IsSource(d.name, AugmentPackages(r, d).value.0)
  {
    var d := Document(id, name, [], [], [], []);
    BarePackages(r, d);
    var application := Marked(r, NewApplication(r));
    var rels := AddRel([], Rel(id, "DESCRIBES", application.id));
    OneRecordFiled(r, application.id, rec, rels);
    RunsOn(r, d, [application], application, rels);
  }

  /** An inventory hash in upper case stops the second run on an empty source document. */
  lemma UpperCaseHash(r: Release, id: string, name: string, rec: Record)
    requires ReleaseOk(r) && r.components == [] && r.mappings == [] && r.inventory == [rec]
    requires SourceName(name) && rec.text.None? && SourcePath(rec.path) == rec.path && Lower(rec.sha) != rec.sha
    ensures var d := Document(id, name, [], [], [], []);
      Augment(r, d).Some? && Augment(r, Augment(r, d).value) == None
  {
    BareSource(r, id, name, rec);
    UpperCaseStops(r, Document(id, name, [], [], [], []), 0);
  }

  /** A path under source/ that no file stands for gets another file in every run. */
  lemma LostPath(r: Release, id: string, name: string, rec: Record)
    requires ReleaseOk(r) && r.components == [] && r.mappings == [] && r.inventory == [rec]
    requires SourceName(name) && rec.text.None? && SourcePath(rec.path) != rec.path
    ensures var d := Document(id, name, [], [], [], []);
      Augment(r, d).Some? && Augment(r, Augment(r, d).value) != Augment(r, d)
  {
    BareSource(r, id, name, rec);
    assert rec in r.inventory;
    LostGrows(r, Document(id, name, [], [], [], []));
  }

  /** A document without files and packages is stable under a release without further records. */
  lemma EmptyDocument(r: Release, id: string, name: string)
    requires ReleaseOk(r) && r.components == [] && r.mappings == [] && r.inventory == []
    ensures var d := Document(id, name, [], [], [], []);
      Augment(r, d).Some? && Stable(r, d)
  {
    var d := Document(id, name, [], [], [], []);
    BarePackages(r, d);
    assert Sorting.Sort(d.files, ByFileName) == d.files;
    assert RUNTIME_PATHS[1..] == [RUNTIME_PATHS[1]] && RUNTIME_PATHS[1..][1..] == [];
    assert RuntimeEdges(d.files, Marked(r, NewApplication(r)).id, RUNTIME_PATHS) == [];
  }

  // ---------- what a run keeps and what it adds ----------

  lemma IdentifyKeeps(r: Release, packages: seq<Package>, p: Package)
    requires Identify(r, packages).Some? && p in packages && Matches(p, ApplicationPurl(r)) == 0
    ensures p in Identify(r, packages).value.0
  {
    var key := ApplicationPurl(r);
    var j :| 0 <= j < |packages| && packages[j] == p;
    if Hits(packages, key) == 1 {
      var i := Sorting.Index(ByPurl(key), packages);
      assert Matches(packages[i], key) > 0;
      assert packages[i := Marked(r, packages[i])][j] == p;
    }
  }

  lemma SupplyKeeps(needs: seq<Need>, application: string, a: seq<Package>, described: seq<Rel>,
                    packages: seq<Package>, rels: seq<Rel>, p: Package)
    requires forall n :: n in needs ==> NeedOk(n)
    requires Supply(needs, application, a, described) == Some((packages, rels)) && p in a
    ensures p in packages
  {
    SupplyTail(needs, application, a, described, packages, rels);
    assert forall q :: q in a ==> q in packages;
  }

  lemma PackageKept(r: Release, d: Document, p: Package)
    requires AugmentPackages(r, d).Some? && p in d.packages && Matches(p, ApplicationPurl(r)) == 0
    ensures p in AugmentPackages(r, d).value.0
  {
    var (packages, application, rels) := AugmentPackages(r, d).value;
    var a, described := PackageSteps(r, d);
    IdentifyKeeps(r, d.packages, p);
    NeedsOk(r, a);
    SupplyKeeps(Needs(r, a), application.id, a, described, packages, rels, p);
  }

  lemma PlaceKeeps(r: Release, files: seq<File>, known: nat, rec: Record, f: File)
    requires known <= |files| && Place(r, files, known, rec).Some?
    requires f in files && SourcePath(f.fileName) != rec.path
    ensures f in Place(r, files, known, rec).value.0
  {
    var j :| 0 <= j < |files| && files[j] == f;
    var after := Place(r, files, known, rec).value.0;
    if Sorting.Sum(AtPath(rec.path), files[..known]) > 0 {
      var i := Sorting.Index(AtPath(rec.path), files[..known]);
      assert after[j] == f;
    } else {
      assert after[j] == f;
    }
  }

  lemma {:induction false} SourcesKeep(
      r: Release, application: string, known: nat, records: seq<Record>, s: Sources, after: Sources, f: File, info: Info)
    requires known <= |s.files| && FileSources(r, application, known, records, s) == Some(after)
    requires f in s.files && Apart(records, SourcePath(f.fileName))
    ensures f in after.files && (info in s.infos ==> info in after.infos)
    decreases |records|
  {
    if records != [] {
      assert records[0] in records && forall rec :: rec in records[1..] ==> rec in records;
      PlaceKeeps(r, s.files, known, records[0], f);
      SourcesKeep(r, application, known, records[1..], Round(r, application, known, records[0], s), after, f, info);
    }
  }

  /** A file the inventory does not speak of is left alone. */
  lemma FileKept(r: Release, d: Document, packages: seq<Package>, application: string, rels: seq<Rel>, f: File)
    requires AugmentFiles(r, d, packages, application, rels).Some? && f in d.files
    requires Apart(r.inventory, SourcePath(f.fileName))
    ensures f in AugmentFiles(r, d, packages, application, rels).value.files
  {
    if IsSource(d.name, packages) {
      var after := AugmentFiles(r, d, packages, application, rels).value;
      SourcesKeep(r, application, |d.files|, r.inventory, Sources(d.files, rels, d.infos), after, f, Info("", "", "", 0));
    }
  }

  /** The lists end in order, every package but the application is kept as it was, and so is every
      file the inventory does not speak of. */
  lemma NothingLost(r: Release, d: Document)
    requires Augment(r, d).Some?
    ensures var after := Augment(r, d).value;
      && InOrder(after) && after.id == d.id && after.name == d.name
      && (forall p :: p in d.packages && Matches(p, ApplicationPurl(r)) == 0 ==> p in after.packages)
      && (forall f :: f in d.files && Apart(r.inventory, SourcePath(f.fileName)) ==> f in after.files)
  {
    var packages, application, rels, s := Steps(r, d);
    OrderedInOrder(Unordered(d, packages, application, s));
    forall p | p in d.packages && Matches(p, ApplicationPurl(r)) == 0 ensures p in packages {
      PackageKept(r, d, p);
    }
    forall f | f in d.files && Apart(r.inventory, SourcePath(f.fileName)) ensures f in s.files {
      FileKept(r, d, packages, application.id, rels, f);
    }
  }

  /** Every native component is in the result once, with an edge from the application. */
  lemma EveryComponent(r: Release, d: Document, k: nat) returns (application: Package, p: Package)
    requires ReleaseOk(r) && Augment(r, d).Some? && k < |r.components|
    ensures var after := Augment(r, d).value;
      && Found(after.packages, ApplicationPurl(r), application)
      && Found(after.packages, NormalizedPurl(ComponentPurl(r.components[k])), p)
      && Rel(application.id, "DEPENDS_ON", p.id) in after.rels
  {
    var packages, app, rels, s := Steps(r, d);
    application := app;
    p := ComponentMet(r, d, k);
    ComponentEdge(r, d, packages, app, rels, s, ComponentNeed(r, r.components[k]), p);
  }

  lemma ComponentMet(r: Release, d: Document, k: nat) returns (p: Package)
    requires AugmentPackages(r, d).Some? && k < |r.components|
    ensures var (packages, application, rels) := AugmentPackages(r, d).value;
      Met(ComponentNeed(r, r.components[k]), application.id, packages, rels, p)
  {
    var (packages, application, rels) := AugmentPackages(r, d).value;
    var a, described := PackageSteps(r, d);
    NeedsOk(r, a);
    var i := ComponentIndex(r, a, k);
    p := NeedMet(Needs(r, a), application.id, a, described, packages, rels, i);
  }

  lemma ComponentIndex(r: Release, packages: seq<Package>, k: nat) returns (i: nat)
    requires k < |r.components|
    ensures i < |Needs(r, packages)| && Needs(r, packages)[i] == ComponentNeed(r, r.components[k])
  {
    i := |DebianNeeds(r, packages)| + k;
  }

  lemma NeedMet(needs: seq<Need>, application: string, packages: seq<Package>, rels: seq<Rel>,
                after: seq<Package>, more: seq<Rel>, i: nat) returns (p: Package)
    requires forall n :: n in needs ==> NeedOk(n)
    requires Supply(needs, application, packages, rels) == Some((after, more)) && i < |needs|
    ensures Met(needs[i], application, after, more, p)
  {
    p := SupplyMeet(needs, application, packages, rels, i);
  }

  lemma ComponentEdge(r: Release, d: Document, packages: seq<Package>, application: Package, rels: seq<Rel>, s: Sources,
                      need: Need, p: Package)
    requires ReleaseOk(r) && AugmentPackages(r, d) == Some((packages, application, rels))
    requires AugmentFiles(r, d, packages, application.id, rels) == Some(s) && Augment(r, d).Some?
    requires Met(need, application.id, packages, rels, p)
    ensures var u := Unordered(d, packages, application, s);
      && Found(Ordered(u).packages, ApplicationPurl(r), application)
      && Found(Ordered(u).packages, NormalizedPurl(need.purl), p)
      && Rel(application.id, "DEPENDS_ON", p.id) in Ordered(u).rels
  {
    var u := Unordered(d, packages, application, s);
    ApplicationFound(r, d);
    DrawnEdges(r, d);
    FoundOrdered(u, ApplicationPurl(r), application);
    FoundOrdered(u, NormalizedPurl(need.purl), p);
    OrderedInOrder(u);
    assert Rel(application.id, "DEPENDS_ON", p.id) in Edges(need, application.id, p.id);
    assert forall e :: e in rels ==> e in u.rels;
  }

  /** What a complete file entry says. */
  lemma FilledCarries(f: File, rec: Record)
    requires Filled(f, rec) == f
    ensures f.concluded == Some(rec.concluded) && f.found == [rec.concluded] && f.comments == rec.comment
    ensures Checksum("SHA256", rec.sha) in f.checksums
    ensures forall c :: c in f.checksums && c.algorithm == "SHA256" ==> c.value == rec.sha
  {
    WithoutTwice(f.checksums);
    var others := Without256(f.checksums);
    assert f.checksums == others + [Checksum("SHA256", rec.sha)];
  }

  /** What the file of a record says. */
  predicate SaysRecord(f: File, rec: Record) {
    && f.concluded == Some(rec.concluded) && f.found == [rec.concluded] && f.comments == rec.comment
    && Checksum("SHA256", rec.sha) in f.checksums
    && forall c :: c in f.checksums && c.algorithm == "SHA256" ==> c.value == rec.sha
  }

  lemma CarriedRecord(
      r: Release, d: Document, rels: seq<Rel>, application: string, s: Sources, k: nat) returns (f: File)
    requires ReleaseOk(r) && FileSources(r, application, |d.files|, r.inventory, Sources(d.files, rels, d.infos)) == Some(s)
    requires k < |r.inventory|
    ensures f in s.files && Carries(d.files, r.inventory[k], f) && SaysRecord(f, r.inventory[k])
    ensures Rel(application, "CONTAINS", f.id) in s.rels
    ensures InventoryOk(d.files, r.inventory) ==> Sorting.Sum(AtPath(r.inventory[k].path), s.files) == 1
  {
    var start := Sources(d.files, rels, d.infos);
    assert d.files[..|d.files|] == d.files;
    var i := RecordCarried(r, application, |d.files|, r.inventory, start, s, k);
    f := s.files[i];
    FilledCarries(f, r.inventory[k]);
    if InventoryOk(d.files, r.inventory) {
      SourceDone(r, application, |d.files|, r.inventory, start, s, k);
    }
  }

  /** After a run on a source document every record of the inventory has its file, with exactly the
      hash and the license of the inventory, inside the application; and if every record can be
      looked up again it is the only file at its path. */
  lemma EveryRecord(r: Release, d: Document, k: nat) returns (f: File)
    requires ReleaseOk(r) && Augment(r, d).Some? && k < |r.inventory|
    requires IsSource(d.name, AugmentPackages(r, d).value.0)
    ensures f in Augment(r, d).value.files && Carries(d.files, r.inventory[k], f) && SaysRecord(f, r.inventory[k])
    ensures Rel(AugmentPackages(r, d).value.1.id, "CONTAINS", f.id) in Augment(r, d).value.rels
    ensures InventoryOk(d.files, r.inventory) ==>
      Sorting.Sum(AtPath(r.inventory[k].path), Augment(r, d).value.files) == 1
  {
    var packages, application, rels, s := Steps(r, d);
    f := CarriedRecord(r, d, rels, application.id, s, k);
    RecordShown(d, packages, application, s, f, r.inventory[k].path);
  }

  lemma RecordShown(d: Document, packages: seq<Package>, application: Package, s: Sources, f: File, path: string)
    requires f in s.files && Rel(application.id, "CONTAINS", f.id) in s.rels
    ensures var after := Ordered(Unordered(d, packages, application, s));
      && f in after.files && Rel(application.id, "CONTAINS", f.id) in after.rels
      && Sorting.Sum(AtPath(path), after.files) == Sorting.Sum(AtPath(path), s.files)
  {
    var u, runtime := Unordered(d, packages, application, s), RuntimeEdges(s.files, application.id, RUNTIME_PATHS);
    AddRelsHold(s.rels, runtime);
    AddRelsHold(AddRels(s.rels, runtime), DependencyEdges(packages, application));
    OrderedInOrder(u);
    Sorting.SumSorted(AtPath(path), s.files, ByFileName);
  }

  lemma SourceMet(r: Release, d: Document, k: nat) returns (binary: Package, p: Package)
    requires AugmentPackages(r, d).Some? && k < |r.mappings| && HasDebian(r, Identify(r, d.packages).value.0)
    ensures var (packages, application, rels) := AugmentPackages(r, d).value;
      && binary in packages && Binary(r, r.mappings[k], binary) > 0
      && Found(packages, NormalizedPurl(SourcePurl(r, r.mappings[k])), p)
      && Rel(binary.id, "GENERATED_FROM", p.id) in rels
  {
    var (packages, application, rels) := AugmentPackages(r, d).value;
    var a, described := PackageSteps(r, d);
    var m := r.mappings[k];
    assert m in r.mappings;
    NeedsOk(r, a);
    assert Needs(r, a)[k] == DebianNeed(r, a, m);
    p := NeedMet(Needs(r, a), application.id, a, described, packages, rels, k);
    binary := a[Sorting.Index(BinaryOf(r, m), a)];
    SupplyKeeps(Needs(r, a), application.id, a, described, packages, rels, binary);
    GeneratedEdge(DebianNeed(r, a, m), application.id, packages, rels, p, binary.id);
  }

  lemma GeneratedEdge(need: Need, application: string, packages: seq<Package>, rels: seq<Rel>, p: Package, binary: string)
    requires Met(need, application, packages, rels, p) && need.binary == Some(binary)
    ensures Rel(binary, "GENERATED_FROM", p.id) in rels
  {
    assert Rel(binary, "GENERATED_FROM", p.id) in Edges(need, application, p.id);
  }

  /** In a document with the Debian runtime packages every one of them is marked as generated from
      its source package, which is there once. */
  lemma EverySource(r: Release, d: Document, k: nat) returns (binary: Package, p: Package)
    requires Augment(r, d).Some? && k < |r.mappings| && HasDebian(r, Identify(r, d.packages).value.0)
    ensures var after := Augment(r, d).value;
      && binary in after.packages && Binary(r, r.mappings[k], binary) > 0
      && Found(after.packages, NormalizedPurl(SourcePurl(r, r.mappings[k])), p)
      && Rel(binary.id, "GENERATED_FROM", p.id) in after.rels
  {
    var packages, application, rels, s := Steps(r, d);
    var u := Unordered(d, packages, application, s);
    binary, p := SourceMet(r, d, k);
    DrawnEdges(r, d);
    FoundOrdered(u, NormalizedPurl(SourcePurl(r, r.mappings[k])), p);
    OrderedInOrder(u);
    assert forall e :: e in rels ==> e in u.rels;
  }
}
