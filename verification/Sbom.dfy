/** augment_spdx of scripts/augment-sbom.py: the release adds its own records to an SPDX document. */
module Sbom {
  import opened Common
  import opened SbomRelease
  import opened Text
  import Sorting

  // ---------- the document ----------

  datatype Rel = Rel(left: string, kind: string, right: string)

  /** `purls` holds the locators of the external references of type purl, in order; `rest`
      stands for the fields that are never looked at. */
  datatype Package = Package(
    id: string, name: string, version: string, concluded: string, declared: string,
    purls: seq<string>, rest: int)

  datatype Checksum = Checksum(algorithm: string, value: string)

  datatype File = File(
    id: string, fileName: string, checksums: seq<Checksum>, concluded: Option<string>,
    found: seq<string>, comments: Option<string>, rest: int)

  datatype Info = Info(id: string, name: string, text: string, rest: int)

  datatype Document = Document(
    id: string, name: string, packages: seq<Package>, files: seq<File>, rels: seq<Rel>, infos: seq<Info>)

  // ---------- looking packages up ----------

  function Refers(value: string, key: string): nat {
    if value != "" && NormalizedPurl(value) == key then 1 else 0
  }

  function RefersTo(key: string): string -> nat { (value: string) => Refers(value, key) }

  /** How often a package stands in by_purl under a key. */
  function Matches(p: Package, key: string): nat { Sorting.Sum(RefersTo(key), p.purls) }

  function ByPurl(key: string): Package -> nat { (p: Package) => Matches(p, key) }

  function Hits(packages: seq<Package>, key: string): nat { Sorting.Sum(ByPurl(key), packages) }

  function AddRel(rels: seq<Rel>, rel: Rel): seq<Rel> {
    if rel in rels then rels else rels + [rel]
  }

  // ---------- the application ----------

  function NewApplication(r: Release): Package {
    Package("SPDXRef-Package-r1db", APPLICATION_NAME, r.version, APPLICATION_LICENSE, APPLICATION_LICENSE,
            [ApplicationPurl(r)], r.rest)
  }

  function Marked(r: Release, p: Package): Package {
    p.(concluded := APPLICATION_LICENSE, declared := APPLICATION_LICENSE, name := APPLICATION_NAME, version := r.version)
  }

  predicate LooksLikeApplication(p: Package) {
    p.name == APPLICATION_NAME || exists value :: value in p.purls && IsApplicationPurl(value)
  }

  /** A package that is not the application but carries its name or one of its purls. */
  predicate Conflicts(r: Release, p: Package) {
    Matches(p, ApplicationPurl(r)) == 0 && LooksLikeApplication(p)
  }

  function Identify(r: Release, packages: seq<Package>): Option<(seq<Package>, Package)> {
    var key := ApplicationPurl(r);
    if (exists p :: p in packages && Conflicts(r, p)) || Hits(packages, key) > 1 then None
    else if Hits(packages, key) == 1 then
      var i := Sorting.Index(ByPurl(key), packages);
      Some((packages[i := Marked(r, packages[i])], Marked(r, packages[i])))
    else
      var application := Marked(r, NewApplication(r));
      Some((packages + [application], application))
  }

  // ---------- packages the release must mention ----------

  /** A package to find or add; a Debian source also gets an edge from its binary. */
  datatype Need = Need(purl: string, template: Package, binary: Option<string>)

  function Names(r: Release, m: Mapping, value: string): nat {
    if DebianIdentity(r, value) == Some((m.binary, m.version)) then 1 else 0
  }

  function NamesBinary(r: Release, m: Mapping): string -> nat { (value: string) => Names(r, m, value) }

  /** How often a package is the Debian binary of a mapping. */
  function Binary(r: Release, m: Mapping, p: Package): nat { Sorting.Sum(NamesBinary(r, m), p.purls) }

  function BinaryOf(r: Release, m: Mapping): Package -> nat { (p: Package) => Binary(r, m, p) }

  function Binaries(r: Release, packages: seq<Package>, m: Mapping): nat { Sorting.Sum(BinaryOf(r, m), packages) }

  function DebianNeed(r: Release, packages: seq<Package>, m: Mapping): Need
    requires Binaries(r, packages, m) > 0
  {
    var purl := SourcePurl(r, m);
    Need(purl,
         Package("SPDXRef-Package-debian-source-" + r.sourceId(purl), m.source, m.sourceVersion,
                 "NOASSERTION", "NOASSERTION", [purl], r.rest),
         Some(packages[Sorting.Index(BinaryOf(r, m), packages)].id))
  }

  function ComponentNeed(r: Release, c: Component): Need {
    Need(ComponentPurl(c),
         Package("SPDXRef-Package-r1-native-" + r.nativeId(c.name), c.name, c.commit, c.license, c.license,
                 [ComponentPurl(c)], c.rest),
         None)
  }

  /** The Debian runtime packages are all there, each once, or none is. */
  predicate DebianOk(r: Release, packages: seq<Package>) {
    || (forall m :: m in r.mappings ==> Binaries(r, packages, m) == 0)
    || (forall m :: m in r.mappings ==> Binaries(r, packages, m) == 1)
  }

  predicate HasDebian(r: Release, packages: seq<Package>) {
    forall m :: m in r.mappings ==> Binaries(r, packages, m) > 0
  }

  function DebianNeeds(r: Release, packages: seq<Package>): seq<Need> {
    if HasDebian(r, packages) then
      seq(|r.mappings|, i requires 0 <= i < |r.mappings| => DebianNeed(r, packages, r.mappings[i]))
    else []
  }

  function ComponentNeeds(r: Release): seq<Need> {
    seq(|r.components|, i requires 0 <= i < |r.components| => ComponentNeed(r, r.components[i]))
  }

  function Needs(r: Release, packages: seq<Package>): seq<Need> {
    DebianNeeds(r, packages) + ComponentNeeds(r)
  }

  function Ensure(packages: seq<Package>, need: Need): Option<(seq<Package>, Package)> {
    var key := NormalizedPurl(need.purl);
    if Hits(packages, key) > 1 then None
    else if Hits(packages, key) == 1 then Some((packages, packages[Sorting.Index(ByPurl(key), packages)]))
    else Some((packages + [need.template], need.template))
  }

  /** The edges of one need. */
  function Edges(need: Need, application: string, id: string): seq<Rel> {
    [Rel(application, "DEPENDS_ON", id)]
    + if need.binary.Some? then [Rel(need.binary.value, "GENERATED_FROM", id)] else []
  }

  function AddRels(rels: seq<Rel>, more: seq<Rel>): seq<Rel>
    decreases |more|
  {
    if more == [] then rels else AddRels(AddRel(rels, more[0]), more[1..])
  }

  function Supply(needs: seq<Need>, application: string, packages: seq<Package>, rels: seq<Rel>)
    : Option<(seq<Package>, seq<Rel>)>
    decreases |needs|
  {
    if needs == [] then Some((packages, rels))
    else
      var found := Ensure(packages, needs[0]);
      if found.None? then None
      else Supply(needs[1..], application, found.value.0,
                  AddRels(rels, Edges(needs[0], application, found.value.1.id)))
  }

  // ---------- source files ----------

  /** is_spdx_source */
  predicate IsSource(name: string, packages: seq<Package>) {
    SourceName(name) || exists p :: p in packages && SourceName(p.name)
  }

  function AtPath(path: string): File -> nat {
    (f: File) => if SourcePath(f.fileName) == path then 1 else 0
  }

  function Without256(checksums: seq<Checksum>): seq<Checksum> {
    if checksums == [] then []
    else
      var last := checksums[|checksums| - 1];
      Without256(checksums[..|checksums| - 1]) + if last.algorithm == "SHA256" then [] else [last]
  }

  /** The hash and the license a file already carries do not contradict the inventory. */
  predicate Agrees(f: File, rec: Record) {
    && (forall c :: c in f.checksums && c.algorithm == "SHA256" ==> Lower(c.value) == rec.sha)
    && f.concluded in {None, Some("NOASSERTION"), Some(rec.spdx), Some(rec.concluded)}
  }

  function Filled(f: File, rec: Record): File {
    f.(checksums := Without256(f.checksums) + [Checksum("SHA256", rec.sha)],
       concluded := Some(rec.concluded), found := [rec.concluded], comments := rec.comment)
  }

  function NewFile(r: Release, rec: Record): File {
    File("SPDXRef-File-r1-source-" + r.sourceId(rec.path), rec.path, [], None, [], None, r.rest)
  }

  /** The file of a record among the files that were there before the loop, or a new one. */
  function Place(r: Release, files: seq<File>, known: nat, rec: Record): Option<(seq<File>, File)>
    requires known <= |files|
  {
    var hits := Sorting.Sum(AtPath(rec.path), files[..known]);
    if hits > 1 then None
    else if hits == 0 then
      var f := Filled(NewFile(r, rec), rec);
      Some((files + [f], f))
    else
      var i := Sorting.Index(AtPath(rec.path), files[..known]);
      if Agrees(files[i], rec) then Some((files[i := Filled(files[i], rec)], Filled(files[i], rec))) else None
  }

  function WithId(id: string): Info -> nat { (info: Info) => if info.id == id then 1 else 0 }

  function ExpectedInfo(r: Release, rec: Record): Info
    requires rec.text.Some?
  {
    Info(rec.concluded, "Exact license or notice text SHA-256 " + rec.sha, rec.text.value, r.rest)
  }

  function Define(r: Release, infos: seq<Info>, rec: Record): Option<seq<Info>> {
    if rec.text.None? then Some(infos)
    else
      var hits := Sorting.Sum(WithId(rec.concluded), infos);
      if hits == 0 then Some(infos + [ExpectedInfo(r, rec)])
      else if hits == 1 && infos[Sorting.Index(WithId(rec.concluded), infos)] == ExpectedInfo(r, rec) then Some(infos)
      else None
  }

  datatype Sources = Sources(files: seq<File>, rels: seq<Rel>, infos: seq<Info>)

  function FileSources(r: Release, application: string, known: nat, records: seq<Record>, s: Sources): Option<Sources>
    requires known <= |s.files|
    decreases |records|
  {
    if records == [] then Some(s)
    else
      var placed := Place(r, s.files, known, records[0]);
      var infos := Define(r, s.infos, records[0]);
      if placed.None? || infos.None? then None
      else FileSources(r, application, known, records[1..],
             Sources(placed.value.0, AddRel(s.rels, Rel(application, "CONTAINS", placed.value.1.id)), infos.value))
  }

  // ---------- runtime files and dependencies ----------

  function RuntimeAt(path: string): File -> nat {
    (f: File) => if "/" + TrimSlashes(f.fileName) == path then 1 else 0
  }

  /** The file a dictionary by path keeps: the last one. */
  function LastAt(files: seq<File>, path: string): Option<File> {
    if files == [] then None
    else
      var last := files[|files| - 1];
      if RuntimeAt(path)(last) > 0 then Some(last) else LastAt(files[..|files| - 1], path)
  }

  function RuntimeEdges(files: seq<File>, application: string, paths: seq<string>): seq<Rel> {
    if paths == [] then []
    else
      (if LastAt(files, paths[0]).Some? then [Rel(application, "CONTAINS", LastAt(files, paths[0]).value.id)] else [])
      + RuntimeEdges(files, application, paths[1..])
  }

  /** Every other package with a purl. */
  function DependencyEdges(packages: seq<Package>, application: Package): seq<Rel> {
    if packages == [] then []
    else
      (if packages[0] != application && packages[0].purls != [] then
         [Rel(application.id, "DEPENDS_ON", packages[0].id)] else [])
      + DependencyEdges(packages[1..], application)
  }

  // ---------- the final sort ----------

  predicate ByName(a: Package, b: Package) { PairLeq(a.name, a.id, b.name, b.id) }

  predicate ByFileName(a: File, b: File) { PairLeq(a.fileName, a.id, b.fileName, b.id) }

  predicate ByEnds(a: Rel, b: Rel) {
    if a.left == b.left then PairLeq(a.kind, a.right, b.kind, b.right) else Leq(a.left, b.left)
  }

  predicate ByLicense(a: Info, b: Info) { Leq(a.id, b.id) }

  function Ordered(d: Document): Document {
    d.(packages := Sorting.Sort(d.packages, ByName), files := Sorting.Sort(d.files, ByFileName),
       rels := Sorting.Sort(d.rels, ByEnds), infos := Sorting.Sort(d.infos, ByLicense))
  }

  // ---------- the whole run ----------

  /** The packages part: the application, then everything the release must mention. */
  function AugmentPackages(r: Release, d: Document): Option<(seq<Package>, Package, seq<Rel>)> {
    var identified := Identify(r, d.packages);
    if identified.None? || !DebianOk(r, identified.value.0) then None
    else
      var (packages, application) := identified.value;
      var rels := AddRel(d.rels, Rel(d.id, "DESCRIBES", application.id));
      var supplied := Supply(Needs(r, packages), application.id, packages, rels);
      if supplied.None? then None else Some((supplied.value.0, application, supplied.value.1))
  }

  function AugmentFiles(r: Release, d: Document, packages: seq<Package>, application: string, rels: seq<Rel>)
    : Option<Sources>
  {
    var s := Sources(d.files, rels, d.infos);
    if IsSource(d.name, packages) then FileSources(r, application, |d.files|, r.inventory, s) else Some(s)
  }

  /** augment_spdx; None is SystemExit. */
  function Augment(r: Release, d: Document): Option<Document> {
    var first := AugmentPackages(r, d);
    if first.None? then None
    else
      var (packages, application, rels) := first.value;
      var second := AugmentFiles(r, d, packages, application.id, rels);
      if second.None? then None
      else
        var s := second.value;
        var contained := AddRels(s.rels, RuntimeEdges(s.files, application.id, RUNTIME_PATHS));
        var depends := AddRels(contained, DependencyEdges(packages, application));
        Some(Ordered(Document(d.id, d.name, packages, s.files, depends, s.infos)))
  }
}
