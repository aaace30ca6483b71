/** What a run of augment_spdx will do, read off the document before the run. */
module SbomForecast {
  import opened Common
  import opened Sbom
  import opened SbomRelease
  import opened SbomRerun
  import opened SbomSettles
  import Sorting

  // ---------- the forecast ----------

  /** The packages with the application make a source document, or a package to be added does. */
  predicate WillBeSource(r: Release, name: string, packages: seq<Package>) {
    var needs := Needs(r, packages);
    || IsSource(name, packages)
    || exists k :: 0 <= k < |needs| && Added(needs, packages, k) && SourceName(needs[k].template.name)
  }

  /** The files of the records that no file stands for. */
  function NewFiles(r: Release, files: seq<File>, records: seq<Record>): seq<File>
    decreases |records|
  {
    if records == [] then []
    else
      (if Sorting.Sum(AtPath(records[0].path), files) == 0 then [NewFile(r, records[0])] else [])
      + NewFiles(r, files, records[1..])
  }

  /** The files at the end of the run, before the inventory is filled in. */
  function FilesAhead(r: Release, d: Document, source: bool): seq<File> {
    d.files + if source then NewFiles(r, d.files, r.inventory) else []
  }

  /** The file of a record. */
  function FileOf(r: Release, files: seq<File>, rec: Record): File {
    if Sorting.Sum(AtPath(rec.path), files) == 0 then NewFile(r, rec)
    else files[Sorting.Index(AtPath(rec.path), files)]
  }

  /** The application will contain e.right as the file of a record. */
  predicate RecordEdge(r: Release, files: seq<File>, application: string, records: seq<Record>, e: Rel) {
    exists rec :: rec in records && e == Rel(application, "CONTAINS", FileOf(r, files, rec).id)
  }

  // ---------- lists that differ in what a run fills in ----------

  predicate Alike(a: File, b: File) { a.id == b.id && a.fileName == b.fileName }

  predicate AlikeAll(a: seq<File>, b: seq<File>) {
    |a| == |b| && forall i :: 0 <= i < |a| ==> Alike(a[i], b[i])
  }

  lemma {:induction false} LastAlike(a: seq<File>, b: seq<File>, path: string)
    requires AlikeAll(a, b)
    ensures LastAt(a, path).Some? == LastAt(b, path).Some?
    ensures LastAt(a, path).Some? ==> LastAt(a, path).value.id == LastAt(b, path).value.id
  {
    if a != [] {
      var n := |a| - 1;
      assert Alike(a[n], b[n]);
      LastAlike(a[..n], b[..n], path);
    }
  }

  lemma {:induction false} EdgesAlike(a: seq<File>, b: seq<File>, application: string, paths: seq<string>)
    requires AlikeAll(a, b)
    ensures RuntimeEdges(a, application, paths) == RuntimeEdges(b, application, paths)
    decreases |paths|
  {
    if paths != [] {
      LastAlike(a, b, paths[0]);
      EdgesAlike(a, b, application, paths[1..]);
    }
  }

  lemma {:induction false} InsertAlike(f: File, a: seq<File>, g: File, b: seq<File>)
    requires AlikeAll(a, b) && Alike(f, g)
    ensures AlikeAll(Sorting.Insert(f, a, ByFileName), Sorting.Insert(g, b, ByFileName))
    decreases |a|
  {
    if a != [] {
      var n := |a| - 1;
      assert Alike(a[n], b[n]);
      InsertAlike(f, a[..n], g, b[..n]);
    }
  }

  lemma {:induction false} SortAlike(a: seq<File>, b: seq<File>)
    requires AlikeAll(a, b)
    ensures AlikeAll(Sorting.Sort(a, ByFileName), Sorting.Sort(b, ByFileName))
  {
    if a != [] {
      var n := |a| - 1;
      assert Alike(a[n], b[n]);
      SortAlike(a[..n], b[..n]);
      InsertAlike(a[n], Sorting.Sort(a[..n], ByFileName), b[n], Sorting.Sort(b[..n], ByFileName));
    }
  }

  lemma {:induction false} CountAlike(a: seq<File>, b: seq<File>, path: string)
    requires AlikeAll(a, b)
    ensures Sorting.Sum(AtPath(path), a) == Sorting.Sum(AtPath(path), b)
    ensures Sorting.Sum(AtPath(path), a) > 0 ==> Sorting.Index(AtPath(path), a) == Sorting.Index(AtPath(path), b)
  {
    if a != [] {
      var n := |a| - 1;
      assert Alike(a[n], b[n]);
      CountAlike(a[..n], b[..n], path);
    }
  }

  // ---------- the files ----------

  /** One record: the list grows by its new file, and the edge to its file is drawn. */
  lemma PlaceForecast(r: Release, base: seq<File>, all: seq<File>, files: seq<File>, known: nat, rec: Record)
    requires known <= |files| && Place(r, files, known, rec).Some?
    requires AlikeAll(base, files[..known]) && AlikeAll(all, files)
    ensures var (after, f) := Place(r, files, known, rec).value;
      && known <= |after| && AlikeAll(base, after[..known]) && f.id == FileOf(r, base, rec).id
      && AlikeAll(all + NewFiles(r, base, [rec]), after)
  {
    var (after, f) := Place(r, files, known, rec).value;
    var path := rec.path;
    CountAlike(base, files[..known], path);
    assert [rec][1..] == [];
    if Sorting.Sum(AtPath(path), base) == 0 {
      assert after[..known] == files[..known];
      assert NewFiles(r, base, [rec]) == [NewFile(r, rec)];
    } else {
      var i := Sorting.Index(AtPath(path), base);
      assert Alike(base[i], files[..known][i]) && files[..known][i] == files[i];
      assert after[..known] == files[..known][i := f];
      assert all + [] == all && NewFiles(r, base, [rec]) == [];
    }
  }

  lemma NewFilesFirst(r: Release, base: seq<File>, all: seq<File>, records: seq<Record>)
    requires records != []
    ensures all + NewFiles(r, base, records) == (all + NewFiles(r, base, [records[0]])) + NewFiles(r, base, records[1..])
  {
    assert [records[0]][1..] == [];
  }

  lemma RecordEdgeFirst(r: Release, base: seq<File>, application: string, records: seq<Record>, e: Rel)
    requires records != []
    ensures RecordEdge(r, base, application, records, e) <==>
      e == Rel(application, "CONTAINS", FileOf(r, base, records[0]).id)
      || RecordEdge(r, base, application, records[1..], e)
  {
    assert records == [records[0]] + records[1..];
    assert records[0] in records;
  }

  lemma {:induction false} FilesForecast(
      r: Release, application: string, known: nat, records: seq<Record>, s: Sources, after: Sources,
      base: seq<File>, all: seq<File>)
    requires known <= |s.files| && FileSources(r, application, known, records, s) == Some(after)
    requires AlikeAll(base, s.files[..known]) && AlikeAll(all, s.files)
    ensures AlikeAll(all + NewFiles(r, base, records), after.files)
    ensures forall e :: e in after.rels <==> e in s.rels || RecordEdge(r, base, application, records, e)
    decreases |records|
  {
    if records == [] {
      assert all + [] == all;
    } else {
      var rec, next := records[0], Round(r, application, known, records[0], s);
      var more := all + NewFiles(r, base, [rec]);
      PlaceForecast(r, base, all, s.files, known, rec);
      NewFilesFirst(r, base, all, records);
      FilesForecast(r, application, known, records[1..], next, after, base, more);
      forall e ensures e in after.rels <==> e in s.rels || RecordEdge(r, base, application, records, e) {
        RecordEdgeFirst(r, base, application, records, e);
      }
    }
  }

  // ---------- the packages ----------

  /** The packages draw no edge to a file. */
  lemma {:induction false} SupplyForecast(needs: seq<Need>, application: string, packages: seq<Package>, rels: seq<Rel>, e: Rel)
    requires Supply(needs, application, packages, rels).Some? && e.kind == "CONTAINS"
    ensures e in Supply(needs, application, packages, rels).value.1 <==> e in rels
    decreases |needs|
  {
    if needs != [] {
      var found := Ensure(packages, needs[0]).value;
      var edges := Edges(needs[0], application, found.1.id);
      var more := AddRels(rels, edges);
      AddRelsHold(rels, edges);
      assert forall x :: x in rels ==> x in more;
      OtherKinds(needs[0], application, found.1.id);
      SupplyForecast(needs[1..], application, found.0, more, e);
    }
  }

  lemma OtherKinds(need: Need, application: string, id: string)
    ensures forall e :: e in Edges(need, application, id) ==> e.kind != "CONTAINS"
  {
    var a, b, c := "DEPENDS_ON", "GENERATED_FROM", "CONTAINS";
    assert a[0] == 'D' && b[0] == 'G' && c[0] == 'C';
  }

  lemma PackagesForecast(r: Release, d: Document, a: seq<Package>, described: seq<Rel>)
    requires AugmentPackages(r, d).Some?
    requires var (packages, application, rels) := AugmentPackages(r, d).value;
      && Identify(r, d.packages) == Some((a, application))
      && described == AddRel(d.rels, Rel(d.id, "DESCRIBES", application.id))
      && Supply(Needs(r, a), application.id, a, described) == Some((packages, rels))
    ensures var (packages, _, rels) := AugmentPackages(r, d).value;
      && (forall e: Rel :: e.kind == "CONTAINS" ==> (e in rels <==> e in d.rels))
      && (IsSource(d.name, packages) <==> WillBeSource(r, d.name, a))
  {
    var (packages, application, rels) := AugmentPackages(r, d).value;
    var needs, kind := Needs(r, a), "DESCRIBES";
    assert kind[0] == 'D' && "CONTAINS"[0] == 'C';
    forall e: Rel | e.kind == "CONTAINS" ensures e in rels <==> e in d.rels {
      SupplyForecast(needs, application.id, a, described, e);
    }
    NeedsHarmless(r, a);
    SupplyTail(needs, application.id, a, described, packages, rels);
    SourceForecast(r, d.name, a, packages);
  }

  lemma SourceForecast(r: Release, name: string, a: seq<Package>, packages: seq<Package>)
    requires a <= packages && forall p :: p in packages[|a|..] <==> Template(Needs(r, a), a, p)
    ensures IsSource(name, packages) <==> WillBeSource(r, name, a)
  {
    var needs := Needs(r, a);
    assert packages == a + packages[|a|..];
    if exists p :: p in packages && SourceName(p.name) {
      var p :| p in packages && SourceName(p.name);
      assert p in a || Template(needs, a, p);
    }
    if k :| 0 <= k < |needs| && Added(needs, a, k) && SourceName(needs[k].template.name) {
      assert Template(needs, a, needs[k].template);
    }
  }

  // ---------- the runtime files ----------

  /** The edges to the runtime files that are last by name are drawn, as far as can be told ahead. */
  predicate RuntimeAhead(r: Release, d: Document, application: string, source: bool) {
    var files := FilesAhead(r, d, source);
    forall e :: e in RuntimeEdges(Sorting.Sort(files, ByFileName), application, RUNTIME_PATHS) ==>
      || e in d.rels || e in RuntimeEdges(files, application, RUNTIME_PATHS)
      || (source && RecordEdge(r, d.files, application, r.inventory, e))
  }

  lemma {:induction false} RuntimeKind(files: seq<File>, application: string, paths: seq<string>)
    ensures forall e :: e in RuntimeEdges(files, application, paths) ==> e.kind == "CONTAINS"
    decreases |paths|
  {
    if paths != [] {
      RuntimeKind(files, application, paths[1..]);
    }
  }

  /** The files and the edges to files at the end of a run. */
  lemma FilesComeTrue(r: Release, d: Document, packages: seq<Package>, application: string, rels: seq<Rel>, s: Sources)
    requires AugmentFiles(r, d, packages, application, rels) == Some(s)
    ensures var source := IsSource(d.name, packages);
      && AlikeAll(FilesAhead(r, d, source), s.files)
      && forall e :: e in s.rels <==> e in rels || (source && RecordEdge(r, d.files, application, r.inventory, e))
  {
    if IsSource(d.name, packages) {
      assert d.files[..|d.files|] == d.files;
      FilesForecast(r, application, |d.files|, r.inventory, Sources(d.files, rels, d.infos), s, d.files, d.files);
    } else {
      assert d.files + [] == d.files;
    }
  }

  /** The forecast of the runtime edges is right. */
  lemma RuntimeComesTrue(r: Release, d: Document, packages: seq<Package>, application: string, rels: seq<Rel>, s: Sources)
    requires AugmentFiles(r, d, packages, application, rels) == Some(s)
    requires forall e: Rel :: e.kind == "CONTAINS" ==> (e in rels <==> e in d.rels)
    ensures RuntimeDrawn(s.files, application, AddRels(s.rels, RuntimeEdges(s.files, application, RUNTIME_PATHS)))
      <==> RuntimeAhead(r, d, application, IsSource(d.name, packages))
  {
    var source := IsSource(d.name, packages);
    var files, runtime := FilesAhead(r, d, source), RuntimeEdges(s.files, application, RUNTIME_PATHS);
    FilesComeTrue(r, d, packages, application, rels, s);
    EdgesAlike(files, s.files, application, RUNTIME_PATHS);
    SortAlike(files, s.files);
    EdgesAlike(Sorting.Sort(files, ByFileName), Sorting.Sort(s.files, ByFileName), application, RUNTIME_PATHS);
    AddRelsHold(s.rels, runtime);
    RuntimeKind(Sorting.Sort(files, ByFileName), application, RUNTIME_PATHS);
    forall e | e in RuntimeEdges(Sorting.Sort(files, ByFileName), application, RUNTIME_PATHS)
      ensures e in AddRels(s.rels, runtime) <==>
        e in d.rels || e in RuntimeEdges(files, application, RUNTIME_PATHS)
        || (source && RecordEdge(r, d.files, application, r.inventory, e))
    {
      assert e in s.rels ==> e in AddRels(s.rels, runtime);
    }
  }
}
