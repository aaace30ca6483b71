/** One run of augment_spdx settles the document, so a second run changes nothing. */
module SbomSettles {
  import opened Common
  import opened Text
  import opened Sbom
  import opened SbomRelease
  import opened SbomRerun
  import Sorting

  // ---------- package URLs of the release ----------

  /** Cutting a purl at its qualifiers keeps a prefix without a question mark. */
  lemma BaseKeeps(prefix: string, value: string)
    requires prefix <= value && '?' !in prefix
    ensures prefix <= Base(value)
  {
    assert forall i :: 0 <= i < |prefix| ==> value[i] == prefix[i] && prefix[i] in prefix;
  }

  lemma ApplicationPurlIsKey(r: Release)
    requires ReleaseOk(r)
    ensures NormalizedPurl(ApplicationPurl(r)) == ApplicationPurl(r) && ApplicationPurl(r) != ""
  {
    var purl := ApplicationPurl(r);
    assert '?' !in APPLICATION_BASE;
    assert forall c :: c in r.version ==> LowerChar(c) == c && c != '?';
    assert Base(purl) == purl;
    assert forall i :: 0 <= i < |APPLICATION_BASE| ==> LowerChar(APPLICATION_BASE[i]) == APPLICATION_BASE[i];
    forall i | 0 <= i < |purl| ensures LowerChar(purl[i]) == purl[i] {
      assert i > |APPLICATION_BASE| ==> purl[i] in r.version;
    }
  }

  /** A generic purl is not a Debian one. */
  lemma GenericIsNotDebian(r: Release, value: string)
    requires GENERIC <= value
    ensures DebianIdentity(r, value) == None
  {
    BaseKeeps(GENERIC, value);
    var base := Base(value);
    assert base[4] == GENERIC[4] == 'g';
    assert Lower(base)[4] == 'g' && DEBIAN_PREFIX[4] == 'd';
  }

  lemma DebianSourceIsNotApplication(value: string)
    requires DEBIAN_SOURCE <= value
    ensures !IsApplicationPurl(value)
  {
    BaseKeeps(DEBIAN_SOURCE, value);
    var base := Base(value);
    assert base[12] == DEBIAN_SOURCE[12] == 'd';
    assert Lower(base)[12] == 'd' && APPLICATION_BASE[12] == 'r';
    assert (APPLICATION_BASE + "@")[12] == 'r';
  }

  // ---------- the application ----------

  lemma IdentifyIdentifies(r: Release, packages: seq<Package>)
    requires ReleaseOk(r) && Identify(r, packages).Some?
    ensures Identified(r, Identify(r, packages).value.0, Identify(r, packages).value.1)
  {
    var key := ApplicationPurl(r);
    var (after, application) := Identify(r, packages).value;
    if Hits(packages, key) == 1 {
      var i := Sorting.Index(ByPurl(key), packages);
      Sorting.SumUpdate(ByPurl(key), packages, i, application);
      assert Matches(application, key) == Matches(packages[i], key);
      assert after[i] == application;
      forall p | p in after ensures !Conflicts(r, p) {
        assert p in packages || p == application;
      }
    } else {
      ApplicationPurlIsKey(r);
      Sorting.SumOne(RefersTo(key), key);
      assert Matches(application, key) == 1;
      Sorting.SumAppend(ByPurl(key), packages, [application]);
      Sorting.SumOne(ByPurl(key), application);
    }
  }

  // ---------- the needs ----------

  lemma GenericIsNoBinary(r: Release, p: Package, purl: string)
    requires p.purls == [purl] && GENERIC <= purl
    ensures forall m :: Binary(r, m, p) == 0
  {
    forall m ensures Binary(r, m, p) == 0 {
      GenericIsNotDebian(r, purl);
      Sorting.SumOne(NamesBinary(r, m), purl);
    }
  }

  lemma SourcePurlStarts(r: Release, m: Mapping)
    ensures DEBIAN_SOURCE <= SourcePurl(r, m) && GENERIC <= SourcePurl(r, m)
  {
    assert GENERIC <= DEBIAN_SOURCE;
  }

  /** What the release brings has one purl and is no Debian binary. */
  ghost predicate Harmless(r: Release, need: Need) {
    NeedOk(need) && forall m :: Binary(r, m, need.template) == 0
  }

  lemma NeedsHarmless(r: Release, packages: seq<Package>)
    ensures forall need :: need in Needs(r, packages) ==> Harmless(r, need)
  {
    var debian, components := DebianNeeds(r, packages), ComponentNeeds(r);
    forall i | 0 <= i < |debian| ensures Harmless(r, debian[i]) {
      SourcePurlStarts(r, r.mappings[i]);
      GenericIsNoBinary(r, debian[i].template, debian[i].purl);
    }
    forall i | 0 <= i < |components| ensures Harmless(r, components[i]) {
      GenericIsNoBinary(r, components[i].template, components[i].purl);
    }
  }

  /** No package that has to be added passes for the application. */
  predicate NoRival(r: Release, packages: seq<Package>) {
    var needs := Needs(r, packages);
    forall k :: 0 <= k < |needs| && Added(needs, packages, k) ==> !LooksLikeApplication(needs[k].template)
  }

  /** No component and no Debian source passes for the application. */
  predicate ReleaseApart(r: Release) {
    && (forall m :: m in r.mappings ==> m.source != APPLICATION_NAME)
    && (forall c :: c in r.components ==> c.name != APPLICATION_NAME && !IsApplicationPurl(ComponentPurl(c)))
  }

  lemma ApartNoRival(r: Release, packages: seq<Package>)
    requires ReleaseApart(r)
    ensures NoRival(r, packages)
  {
    var debian, needs := DebianNeeds(r, packages), Needs(r, packages);
    forall k | 0 <= k < |needs| ensures !LooksLikeApplication(needs[k].template) {
      if k < |debian| {
        assert r.mappings[k] in r.mappings;
        SourcePurlStarts(r, r.mappings[k]);
        DebianSourceIsNotApplication(needs[k].purl);
      } else {
        assert r.components[k - |debian|] in r.components;
      }
    }
  }

  /** The Debian binaries are the same in any list that holds the same ones. */
  ghost predicate SameBinaries(r: Release, a: seq<Package>, b: seq<Package>) {
    && (forall m :: Binaries(r, a, m) == Binaries(r, b, m))
    && (forall p :: p in a ==> p in b || forall m :: Binary(r, m, p) == 0)
  }

  lemma SameNeed(r: Release, a: seq<Package>, b: seq<Package>, m: Mapping)
    requires SameBinaries(r, a, b) && Binaries(r, a, m) == 1
    ensures DebianNeed(r, a, m) == DebianNeed(r, b, m)
  {
    var i := Sorting.Index(BinaryOf(r, m), a);
    assert a[i] in a && a[i] in b;
    var j :| 0 <= j < |b| && b[j] == a[i];
    Sorting.OnlyOne(BinaryOf(r, m), b, j);
  }

  lemma SameNeeds(r: Release, a: seq<Package>, b: seq<Package>)
    requires SameBinaries(r, a, b) && DebianOk(r, a)
    ensures DebianOk(r, b) && Needs(r, a) == Needs(r, b)
  {
    assert HasDebian(r, a) <==> HasDebian(r, b);
    if HasDebian(r, a) {
      SameDebianNeeds(r, a, b);
    }
  }

  lemma SameDebianNeeds(r: Release, a: seq<Package>, b: seq<Package>)
    requires SameBinaries(r, a, b) && DebianOk(r, a) && HasDebian(r, a) && HasDebian(r, b)
    ensures DebianNeeds(r, a) == DebianNeeds(r, b)
  {
    forall i | 0 <= i < |r.mappings| ensures DebianNeeds(r, a)[i] == DebianNeeds(r, b)[i] {
      assert r.mappings[i] in r.mappings;
      SameNeed(r, a, b, r.mappings[i]);
    }
  }

  // ---------- the packages after one run ----------

  lemma SumGrows<T>(f: T -> nat, a: seq<T>, b: seq<T>)
    requires a <= b && forall x :: x in b[|a|..] ==> f(x) == 0
    ensures Sorting.Sum(f, b) == Sorting.Sum(f, a)
  {
    assert b == a + b[|a|..];
    Sorting.SumAppend(f, a, b[|a|..]);
    Sorting.SumZero(f, b[|a|..]);
  }

  /** Harmless templates leave the Debian binaries alone. */
  lemma GrownBinaries(r: Release, a: seq<Package>, b: seq<Package>)
    requires a <= b && forall p :: p in b[|a|..] ==> forall m :: Binary(r, m, p) == 0
    ensures SameBinaries(r, a, b)
  {
    forall m ensures Binaries(r, b, m) == Binaries(r, a, m) {
      SumGrows(BinaryOf(r, m), a, b);
    }
    assert b == a + b[|a|..];
  }

  lemma GrownIdentity(r: Release, a: seq<Package>, b: seq<Package>, application: Package)
    requires Identified(r, a, application) && a <= b && Hits(b, ApplicationPurl(r)) == 1
    requires forall p :: p in b[|a|..] ==> !LooksLikeApplication(p)
    ensures Identified(r, b, application)
  {
    assert b == a + b[|a|..];
  }

  lemma SupplySettles(r: Release, a: seq<Package>, application: Package, rels: seq<Rel>)
    requires NoRival(r, a) && Identified(r, a, application) && DebianOk(r, a)
    requires Supply(Needs(r, a), application.id, a, rels).Some?
    ensures var (b, more) := Supply(Needs(r, a), application.id, a, rels).value;
      && Identified(r, b, application) && DebianOk(r, b) && rels <= more
      && Needs(r, b) == Needs(r, a) && AllMet(Needs(r, a), application.id, b, more)
  {
    var needs := Needs(r, a);
    var (b, more) := Supply(needs, application.id, a, rels).value;
    NeedsHarmless(r, a);
    SupplyAppends(needs, application.id, a, rels, ApplicationPurl(r));
    SupplyTail(needs, application.id, a, rels, b, more);
    forall q | q in b[|a|..] ensures !LooksLikeApplication(q) && forall m :: Binary(r, m, q) == 0 {
      var k :| 0 <= k < |needs| && Added(needs, a, k) && q == needs[k].template;
      assert needs[k] in needs;
    }
    SupplyMeets(needs, application.id, a, rels);
    GrownIdentity(r, a, b, application);
    GrownBinaries(r, a, b);
    SameNeeds(r, a, b);
  }

  /** The steps of AugmentPackages. */
  lemma PackageSteps(r: Release, d: Document) returns (a: seq<Package>, described: seq<Rel>)
    requires AugmentPackages(r, d).Some?
    ensures var (b, application, rels) := AugmentPackages(r, d).value;
      && Identify(r, d.packages) == Some((a, application)) && DebianOk(r, a)
      && described == AddRel(d.rels, Rel(d.id, "DESCRIBES", application.id))
      && Supply(Needs(r, a), application.id, a, described) == Some((b, rels))
  {
    var (list, application) := Identify(r, d.packages).value;
    a, described := list, AddRel(d.rels, Rel(d.id, "DESCRIBES", application.id));
  }

  lemma Described(d: Document, application: string, described: seq<Rel>, rels: seq<Rel>)
    requires described == AddRel(d.rels, Rel(d.id, "DESCRIBES", application)) && described <= rels
    ensures d.rels <= rels && Rel(d.id, "DESCRIBES", application) in rels
  {
    assert Rel(d.id, "DESCRIBES", application) in described;
    assert forall e :: e in described ==> e in rels;
  }

  lemma SuppliedSettled(
      r: Release, d: Document, a: seq<Package>, application: Package, described: seq<Rel>, b: seq<Package>, rels: seq<Rel>)
    requires NoRival(r, a) && Identified(r, a, application) && DebianOk(r, a)
    requires described == AddRel(d.rels, Rel(d.id, "DESCRIBES", application.id))
    requires Supply(Needs(r, a), application.id, a, described) == Some((b, rels))
    ensures PackagesSettled(r, d.(packages := b, rels := rels), application) && d.rels <= rels
  {
    SupplySettles(r, a, application, described);
    Described(d, application.id, described, rels);
    var after := d.(packages := b, rels := rels);
    assert AllMet(Needs(r, after.packages), application.id, after.packages, after.rels);
  }

  lemma PackagesSettle(r: Release, d: Document)
    requires ReleaseOk(r) && AugmentPackages(r, d).Some? && NoRival(r, Identify(r, d.packages).value.0)
    ensures var (packages, application, rels) := AugmentPackages(r, d).value;
      PackagesSettled(r, d.(packages := packages, rels := rels), application) && d.rels <= rels
  {
    var (packages, application, rels) := AugmentPackages(r, d).value;
    var a, described := PackageSteps(r, d);
    IdentifyIdentifies(r, d.packages);
    SuppliedSettled(r, d, a, application, described, packages, rels);
  }

  // ---------- source files ----------

  /** A record can be looked up again: its hash is in lower case, and if no file of the document
      stands for its path, the path is its own source path. */
  predicate RecordOk(files: seq<File>, rec: Record) {
    && Lower(rec.sha) == rec.sha
    && (Sorting.Sum(AtPath(rec.path), files) == 0 ==> SourcePath(rec.path) == rec.path)
  }

  predicate InventoryOk(files: seq<File>, records: seq<Record>) {
    forall rec :: rec in records ==> RecordOk(files, rec)
  }

  lemma {:induction false} WithoutTwice(checksums: seq<Checksum>)
    ensures Without256(Without256(checksums)) == Without256(checksums)
    ensures forall c :: c in Without256(checksums) ==> c.algorithm != "SHA256"
  {
    if checksums != [] {
      var n := |checksums| - 1;
      var front, last := checksums[..n], checksums[n];
      WithoutTwice(front);
      if last.algorithm != "SHA256" {
        assert Without256(checksums)[..|Without256(front)|] == Without256(front);
      } else {
        assert Without256(checksums) == Without256(front);
      }
    }
  }

  /** A filled file is complete, and it passes the checks of a second run exactly when the
      inventory writes its hash in lower case. */
  lemma FilledDone(f: File, rec: Record)
    ensures Filled(Filled(f, rec), rec) == Filled(f, rec)
    ensures Agrees(Filled(f, rec), rec) <==> Lower(rec.sha) == rec.sha
  {
    var others := Without256(f.checksums);
    WithoutTwice(f.checksums);
    var checksums := others + [Checksum("SHA256", rec.sha)];
    assert checksums[..|others|] == others;
    assert Without256(checksums) == others;
    assert checksums[|others|] in checksums;
  }

  /** What placing one record does to the files at any path. */
  lemma PlaceCounts(r: Release, files: seq<File>, known: nat, rec: Record, path: string)
    requires known <= |files| && Place(r, files, known, rec).Some?
    ensures var after := Place(r, files, known, rec).value.0;
      && known <= |after|
      && Sorting.Sum(AtPath(path), after[..known]) == Sorting.Sum(AtPath(path), files[..known])
      && Sorting.Sum(AtPath(path), after)
         == Sorting.Sum(AtPath(path), files)
            + (if Sorting.Sum(AtPath(rec.path), files[..known]) == 0 && SourcePath(rec.path) == path then 1 else 0)
  {
    var (after, f) := Place(r, files, known, rec).value;
    if Sorting.Sum(AtPath(rec.path), files[..known]) == 0 {
      assert after[..known] == files[..known];
      Sorting.SumAppend(AtPath(path), files, [f]);
      Sorting.SumOne(AtPath(path), f);
    } else {
      var i := Sorting.Index(AtPath(rec.path), files[..known]);
      assert after[..known] == files[..known][i := f];
      Sorting.SumUpdate(AtPath(path), files, i, f);
      Sorting.SumUpdate(AtPath(path), files[..known], i, f);
    }
  }

  /** The placed file is done, the files at other paths are untouched and the new tail holds
      nothing but files of this record. */
  lemma PlaceDone(r: Release, files: seq<File>, known: nat, rec: Record)
    requires known <= |files| && Place(r, files, known, rec).Some? && Lower(rec.sha) == rec.sha
    requires Sorting.Sum(AtPath(rec.path), files[..known]) == 0 ==> SourcePath(rec.path) == rec.path
    ensures var (after, f) := Place(r, files, known, rec).value;
      && f in after && SourcePath(f.fileName) == rec.path && Filled(f, rec) == f && Agrees(f, rec)
      && (forall g :: g in files && SourcePath(g.fileName) != rec.path ==> g in after)
      && known <= |after|
      && (forall g :: g in after[known..] ==> g in files[known..] || SourcePath(g.fileName) == rec.path)
  {
    var (after, f) := Place(r, files, known, rec).value;
    if Sorting.Sum(AtPath(rec.path), files[..known]) == 0 {
      FilledDone(NewFile(r, rec), rec);
      assert after[known..] == files[known..] + [f];
    } else {
      var i := Sorting.Index(AtPath(rec.path), files[..known]);
      FilledDone(files[i], rec);
      assert after[i] == f && after[known..] == files[known..];
      forall g | g in files && SourcePath(g.fileName) != rec.path ensures g in after {
        var j :| 0 <= j < |files| && files[j] == g;
        assert j != i && after[j] == g;
      }
    }
  }

  lemma DefineDone(r: Release, infos: seq<Info>, rec: Record, other: Record)
    requires Define(r, infos, rec).Some?
    ensures InfoDone(r, Define(r, infos, rec).value, rec)
    ensures InfoDone(r, infos, other) ==> InfoDone(r, Define(r, infos, rec).value, other)
  {
    if rec.text.Some? {
      var info := ExpectedInfo(r, rec);
      Sorting.SumAppend(WithId(rec.concluded), infos, [info]);
      Sorting.SumOne(WithId(rec.concluded), info);
      if other.text.Some? {
        Sorting.SumAppend(WithId(other.concluded), infos, [info]);
        Sorting.SumOne(WithId(other.concluded), info);
      }
    }
  }

  /** One round of the loop over the inventory. */
  function Round(r: Release, application: string, known: nat, rec: Record, s: Sources): Sources
    requires known <= |s.files| && Place(r, s.files, known, rec).Some? && Define(r, s.infos, rec).Some?
  {
    var placed := Place(r, s.files, known, rec).value;
    Sources(placed.0, AddRel(s.rels, Rel(application, "CONTAINS", placed.1.id)), Define(r, s.infos, rec).value)
  }

  lemma KnownOnly(files: seq<File>, known: nat, path: string)
    requires known <= |files| && forall f :: f in files[known..] ==> SourcePath(f.fileName) != path
    ensures Sorting.Sum(AtPath(path), files) == Sorting.Sum(AtPath(path), files[..known])
  {
    assert files == files[..known] + files[known..];
    Sorting.SumAppend(AtPath(path), files[..known], files[known..]);
    Sorting.SumZero(AtPath(path), files[known..]);
  }

  /** A record that no file behind the known ones stands for has one file after its round. */
  lemma PlacedOnce(r: Release, files: seq<File>, known: nat, rec: Record)
    requires known <= |files| && Place(r, files, known, rec).Some? && RecordOk(files[..known], rec)
    requires forall f :: f in files[known..] ==> SourcePath(f.fileName) != rec.path
    ensures Sorting.Sum(AtPath(rec.path), Place(r, files, known, rec).value.0) == 1
  {
    PlaceCounts(r, files, known, rec, rec.path);
    KnownOnly(files, known, rec.path);
  }

  lemma DoneBy(r: Release, s: Sources, application: string, rec: Record, f: File)
    requires InfoDone(r, s.infos, rec) && FileDone(s.files, s.rels, application, rec, f)
    ensures RecordDone(r, s, application, rec)
  {}

  /** Its round leaves a record done. */
  lemma RoundDone(r: Release, application: string, known: nat, rec: Record, s: Sources)
    requires known <= |s.files| && Place(r, s.files, known, rec).Some? && Define(r, s.infos, rec).Some?
    requires RecordOk(s.files[..known], rec)
    requires forall f :: f in s.files[known..] ==> SourcePath(f.fileName) != rec.path
    ensures RecordDone(r, Round(r, application, known, rec, s), application, rec)
  {
    PlacedOnce(r, s.files, known, rec);
    PlaceDone(r, s.files, known, rec);
    DefineDone(r, s.infos, rec, rec);
    DoneBy(r, Round(r, application, known, rec, s), application, rec, Place(r, s.files, known, rec).value.1);
  }

  /** The one file at another path is left alone. */
  lemma FileKept(r: Release, files: seq<File>, known: nat, rec: Record, path: string, f: File)
    requires known <= |files| && Place(r, files, known, rec).Some? && RecordOk(files[..known], rec)
    requires path != rec.path && f in files && SourcePath(f.fileName) == path && Sorting.Sum(AtPath(path), files) == 1
    ensures var after := Place(r, files, known, rec).value.0;
      f in after && Sorting.Sum(AtPath(path), after) == 1
  {
    PlaceCounts(r, files, known, rec, path);
    PlaceDone(r, files, known, rec);
  }

  /** A record that is done stays done in the round of another one. */
  lemma RoundKeeps(r: Release, application: string, known: nat, rec: Record, s: Sources, other: Record)
    requires known <= |s.files| && Place(r, s.files, known, rec).Some? && Define(r, s.infos, rec).Some?
    requires RecordOk(s.files[..known], rec) && other.path != rec.path
    requires RecordDone(r, s, application, other)
    ensures RecordDone(r, Round(r, application, known, rec, s), application, other)
  {
    var f :| FileDone(s.files, s.rels, application, other, f);
    FileKept(r, s.files, known, rec, other.path, f);
    DefineDone(r, s.infos, rec, other);
    DoneBy(r, Round(r, application, known, rec, s), application, other, f);
  }

  /** What the loop needs of the files behind the known ones. */
  predicate TailApart(files: seq<File>, records: seq<Record>) {
    forall rec, f :: rec in records && f in files ==> SourcePath(f.fileName) != rec.path
  }

  predicate DistinctPaths(records: seq<Record>) {
    forall i, j :: 0 <= i < j < |records| ==> records[i].path != records[j].path
  }

  predicate Apart(records: seq<Record>, path: string) {
    forall rec :: rec in records ==> rec.path != path
  }

  predicate LoopOk(files: seq<File>, known: nat, records: seq<Record>) {
    && known <= |files| && InventoryOk(files[..known], records)
    && TailApart(files[known..], records) && DistinctPaths(records)
  }

  lemma LoopHead(files: seq<File>, known: nat, records: seq<Record>)
    requires LoopOk(files, known, records) && records != []
    ensures RecordOk(files[..known], records[0]) && Apart(records[1..], records[0].path)
    ensures forall f :: f in files[known..] ==> SourcePath(f.fileName) != records[0].path
  {
    assert records[0] in records;
  }

  /** The head of the loop has a round, and what follows it is fit for the loop. */
  lemma RoundLoop(r: Release, application: string, known: nat, records: seq<Record>, s: Sources) returns (next: Sources)
    requires LoopOk(s.files, known, records) && records != []
    requires FileSources(r, application, known, records, s).Some?
    ensures Place(r, s.files, known, records[0]).Some? && Define(r, s.infos, records[0]).Some?
    ensures next == Round(r, application, known, records[0], s) && s.rels <= next.rels
    ensures LoopOk(next.files, known, records[1..])
    ensures FileSources(r, application, known, records, s) == FileSources(r, application, known, records[1..], next)
  {
    LoopHead(s.files, known, records);
    next := Round(r, application, known, records[0], s);
    PlaceDone(r, s.files, known, records[0]);
    RoundFiles(r, known, records, s.files, next.files);
  }

  lemma RoundFiles(r: Release, known: nat, records: seq<Record>, files: seq<File>, after: seq<File>)
    requires LoopOk(files, known, records) && records != []
    requires Place(r, files, known, records[0]).Some? && after == Place(r, files, known, records[0]).value.0
    ensures LoopOk(after, known, records[1..])
  {
    var head, rest := records[0], records[1..];
    LoopHead(files, known, records);
    PlaceDone(r, files, known, head);
    forall rec | rec in rest ensures RecordOk(after[..known], rec) {
      assert rec in records;
      PlaceCounts(r, files, known, head, rec.path);
    }
    forall rec, f | rec in rest && f in after[known..] ensures SourcePath(f.fileName) != rec.path {
      assert rec in records;
    }
  }

  lemma {:induction false} DoneKept(
      r: Release, application: string, known: nat, records: seq<Record>, s: Sources, after: Sources, other: Record)
    requires LoopOk(s.files, known, records) && FileSources(r, application, known, records, s) == Some(after)
    requires Apart(records, other.path) && RecordDone(r, s, application, other)
    ensures RecordDone(r, after, application, other)
    decreases |records|
  {
    if records != [] {
      assert records[0] in records;
      LoopHead(s.files, known, records);
      var next := RoundLoop(r, application, known, records, s);
      RoundKeeps(r, application, known, records[0], s, other);
      DoneKept(r, application, known, records[1..], next, after, other);
    }
  }

  lemma HeadDone(r: Release, application: string, known: nat, records: seq<Record>, s: Sources, after: Sources)
    requires LoopOk(s.files, known, records) && FileSources(r, application, known, records, s) == Some(after)
    requires records != []
    ensures RecordDone(r, after, application, records[0])
  {
    LoopHead(s.files, known, records);
    var next := RoundLoop(r, application, known, records, s);
    RoundDone(r, application, known, records[0], s);
    DoneKept(r, application, known, records[1..], next, after, records[0]);
  }

  /** After the loop every record is done. */
  lemma {:induction false} SourceDone(
      r: Release, application: string, known: nat, records: seq<Record>, s: Sources, after: Sources, k: nat)
    requires LoopOk(s.files, known, records) && FileSources(r, application, known, records, s) == Some(after)
    requires k < |records|
    ensures RecordDone(r, after, application, records[k])
    decreases |records|
  {
    if k == 0 {
      HeadDone(r, application, known, records, s, after);
    } else {
      var next := RoundLoop(r, application, known, records, s);
      SourceDone(r, application, known, records[1..], next, after, k - 1);
      assert records[1..][k - 1] == records[k];
    }
  }

  lemma {:induction false} SourcesGrow(r: Release, application: string, known: nat, records: seq<Record>, s: Sources)
    requires known <= |s.files| && FileSources(r, application, known, records, s).Some?
    ensures s.rels <= FileSources(r, application, known, records, s).value.rels
    decreases |records|
  {
    if records != [] {
      SourcesGrow(r, application, known, records[1..], Round(r, application, known, records[0], s));
    }
  }

  // ---------- the edges ----------

  lemma {:induction false} DependencyIs(packages: seq<Package>, application: Package, e: Rel)
    ensures e in DependencyEdges(packages, application) <==>
      exists p :: p in packages && p != application && p.purls != [] && e == Rel(application.id, "DEPENDS_ON", p.id)
    decreases |packages|
  {
    if packages != [] {
      DependencyIs(packages[1..], application, e);
      assert packages == [packages[0]] + packages[1..];
      assert packages[0] in packages;
    }
  }

  /** With one file at most the dictionary keeps the same file in any order. */
  lemma {:induction false} LastAtIs(files: seq<File>, path: string)
    ensures LastAt(files, path).Some? <==> Sorting.Sum(RuntimeAt(path), files) > 0
    ensures LastAt(files, path).Some? ==> LastAt(files, path).value in files && RuntimeAt(path)(LastAt(files, path).value) > 0
  {
    if files != [] {
      LastAtIs(files[..|files| - 1], path);
      assert files == files[..|files| - 1] + [files[|files| - 1]];
    }
  }

  lemma LastAtAlike(a: seq<File>, b: seq<File>, path: string)
    requires Sorting.Sum(RuntimeAt(path), a) == Sorting.Sum(RuntimeAt(path), b) <= 1
    requires forall f :: f in a <==> f in b
    ensures LastAt(a, path) == LastAt(b, path)
  {
    LastAtIs(a, path);
    LastAtIs(b, path);
    if LastAt(a, path).Some? {
      var f, g := LastAt(a, path).value, LastAt(b, path).value;
      var i :| 0 <= i < |a| && a[i] == f;
      var j :| 0 <= j < |a| && a[j] == g;
      Sorting.OnlyOne(RuntimeAt(path), a, i);
      Sorting.OnlyOne(RuntimeAt(path), a, j);
    }
  }

  lemma {:induction false} RuntimeAlike(a: seq<File>, b: seq<File>, application: string, paths: seq<string>)
    requires forall path :: path in paths ==> LastAt(a, path) == LastAt(b, path)
    ensures RuntimeEdges(a, application, paths) == RuntimeEdges(b, application, paths)
    decreases |paths|
  {
    if paths != [] {
      assert paths[0] in paths && forall path :: path in paths[1..] ==> path in paths;
      RuntimeAlike(a, b, application, paths[1..]);
    }
  }

  // ---------- the order ----------

  lemma PairOrder()
    ensures Sorting.TotalPreorder(ByName) && Sorting.TotalPreorder(ByFileName)
    ensures Sorting.TotalPreorder(ByEnds) && Sorting.TotalPreorder(ByLicense)
  {
    LeqIsOrder();
  }

  lemma OrderedInOrder(d: Document)
    ensures InOrder(Ordered(d))
    ensures forall p :: p in Ordered(d).packages <==> p in d.packages
    ensures forall f :: f in Ordered(d).files <==> f in d.files
    ensures forall e :: e in Ordered(d).rels <==> e in d.rels
    ensures forall i :: i in Ordered(d).infos <==> i in d.infos
  {
    PairOrder();
    Sorting.SortSorts(d.packages, ByName);
    Sorting.SortSorts(d.files, ByFileName);
    Sorting.SortSorts(d.rels, ByEnds);
    Sorting.SortSorts(d.infos, ByLicense);
    Sorting.SameElements(d.packages, ByName);
    Sorting.SameElements(d.files, ByFileName);
    Sorting.SameElements(d.rels, ByEnds);
    Sorting.SameElements(d.infos, ByLicense);
  }

  lemma FoundOrdered(d: Document, key: string, p: Package)
    requires Found(d.packages, key, p)
    ensures Found(Ordered(d).packages, key, p)
  {
    OrderedInOrder(d);
    Sorting.SumSorted(ByPurl(key), d.packages, ByName);
  }

  lemma BinariesOrdered(r: Release, d: Document)
    ensures SameBinaries(r, d.packages, Ordered(d).packages)
  {
    OrderedInOrder(d);
    forall m ensures Binaries(r, d.packages, m) == Binaries(r, Ordered(d).packages, m) {
      Sorting.SumSorted(BinaryOf(r, m), d.packages, ByName);
    }
  }

  lemma MetOrdered(d: Document, application: string, need: Need, p: Package)
    requires Met(need, application, d.packages, d.rels, p)
    ensures Met(need, application, Ordered(d).packages, Ordered(d).rels, p)
  {
    FoundOrdered(d, NormalizedPurl(need.purl), p);
    OrderedInOrder(d);
  }

  lemma AllMetOrdered(d: Document, application: string, needs: seq<Need>)
    requires AllMet(needs, application, d.packages, d.rels)
    ensures AllMet(needs, application, Ordered(d).packages, Ordered(d).rels)
  {
    forall need | need in needs ensures exists p :: Met(need, application, Ordered(d).packages, Ordered(d).rels, p) {
      var p :| Met(need, application, d.packages, d.rels, p);
      MetOrdered(d, application, need, p);
    }
  }

  lemma IdentifiedOrdered(r: Release, d: Document, application: Package)
    requires Identified(r, d.packages, application)
    ensures Identified(r, Ordered(d).packages, application)
  {
    FoundOrdered(d, ApplicationPurl(r), application);
    OrderedInOrder(d);
  }

  lemma PackagesOrdered(r: Release, d: Document, application: Package)
    requires PackagesSettled(r, d, application)
    ensures PackagesSettled(r, Ordered(d), application)
  {
    IdentifiedOrdered(r, d, application);
    BinariesOrdered(r, d);
    SameNeeds(r, d.packages, Ordered(d).packages);
    AllMetOrdered(d, application.id, Needs(r, d.packages));
    OrderedInOrder(d);
    assert AllMet(Needs(r, Ordered(d).packages), application.id, Ordered(d).packages, Ordered(d).rels);
  }

  lemma RecordOrdered(r: Release, d: Document, application: string, rec: Record)
    requires RecordDone(r, Sources(d.files, d.rels, d.infos), application, rec)
    ensures RecordDone(r, Sources(Ordered(d).files, Ordered(d).rels, Ordered(d).infos), application, rec)
  {
    var f :| FileDone(d.files, d.rels, application, rec, f);
    OrderedInOrder(d);
    Sorting.SumSorted(AtPath(rec.path), d.files, ByFileName);
    Sorting.SumSorted(WithId(rec.concluded), d.infos, ByLicense);
    DoneBy(r, Sources(Ordered(d).files, Ordered(d).rels, Ordered(d).infos), application, rec, f);
  }

  lemma SourceNameOrdered(d: Document)
    ensures IsSource(Ordered(d).name, Ordered(d).packages) <==> IsSource(d.name, d.packages)
  {
    OrderedInOrder(d);
  }

  lemma FilesOrdered(r: Release, d: Document, application: string)
    requires FilesSettled(r, d, application)
    ensures FilesSettled(r, Ordered(d), application)
  {
    SourceNameOrdered(d);
    if IsSource(d.name, d.packages) {
      forall rec | rec in r.inventory
        ensures RecordDone(r, Sources(Ordered(d).files, Ordered(d).rels, Ordered(d).infos), application, rec)
      {
        RecordOrdered(r, d, application, rec);
      }
    }
  }

  /** At most one file stands at a runtime path. */
  predicate RuntimeOnce(files: seq<File>) {
    forall path :: path in RUNTIME_PATHS ==> Sorting.Sum(RuntimeAt(path), files) <= 1
  }

  /** The edges to the runtime files that are last in the order of names are drawn. */
  predicate RuntimeDrawn(files: seq<File>, application: string, rels: seq<Rel>) {
    forall e :: e in RuntimeEdges(Sorting.Sort(files, ByFileName), application, RUNTIME_PATHS) ==> e in rels
  }

  /** With one file at most at each runtime path they always are. */
  lemma OnceIsDrawn(files: seq<File>, application: string, rels: seq<Rel>)
    requires RuntimeOnce(files) && forall e :: e in RuntimeEdges(files, application, RUNTIME_PATHS) ==> e in rels
    ensures RuntimeDrawn(files, application, rels)
  {
    var sorted := Sorting.Sort(files, ByFileName);
    PairOrder();
    Sorting.SameElements(files, ByFileName);
    forall path | path in RUNTIME_PATHS ensures LastAt(files, path) == LastAt(sorted, path) {
      Sorting.SumSorted(RuntimeAt(path), files, ByFileName);
      LastAtAlike(files, sorted, path);
    }
    RuntimeAlike(files, sorted, application, RUNTIME_PATHS);
  }

  lemma EdgesOrdered(d: Document, application: Package)
    requires EdgesSettled(d, application) && RuntimeDrawn(d.files, application.id, d.rels)
    ensures EdgesSettled(Ordered(d), application)
  {
    OrderedInOrder(d);
    forall e | e in DependencyEdges(Ordered(d).packages, application) ensures e in Ordered(d).rels {
      DependencyIs(Ordered(d).packages, application, e);
      DependencyIs(d.packages, application, e);
    }
  }

  lemma SettledOrdered(r: Release, d: Document, application: Package)
    requires Settled(r, d, application) && RuntimeDrawn(d.files, application.id, d.rels)
    ensures Settled(r, Ordered(d), application) && InOrder(Ordered(d))
  {
    PackagesOrdered(r, d, application);
    FilesOrdered(r, d, application.id);
    EdgesOrdered(d, application);
    OrderedInOrder(d);
  }
}
