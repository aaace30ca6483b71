/** augment_cyclonedx of scripts/augment-sbom.py: the release adds its own records to a CycloneDX
    document. */
module CycloneDx {
  import opened Common
  import opened Text
  import opened SbomRelease
  import Sorting

  // ---------- the document ----------

  datatype Property = Property(name: string, value: string)

  datatype Hash = Hash(alg: string, content: string)

  /** A license choice; an empty text stands for an absent field. */
  datatype Choice = Choice(expression: string, id: string, name: string, text: Option<string>)

  /** A component. An absent list is an empty one, an absent purl is empty; `rest` stands for the
      fields that are never looked at. */
  datatype Part = Part(
    ref: Option<string>, kind: string, name: string, version: string, purl: string,
    hashes: seq<Hash>, licenses: seq<Choice>, properties: seq<Property>, rest: int)

  datatype Dep = Dep(ref: Option<string>, on: Option<seq<string>>, rest: int)

  /** `root` and `rootName` belong to the component of the metadata. */
  datatype Bom = Bom(root: Option<string>, rootName: string, parts: seq<Part>, deps: seq<Dep>)

  /** component.get("bom-ref", "") */
  function Ref(p: Part): string { if p.ref.Some? then p.ref.value else "" }

  predicate RefsOk(parts: seq<Part>) {
    && (forall i :: 0 <= i < |parts| ==> parts[i].ref.Some?)
    && (forall i, j :: 0 <= i < j < |parts| ==> parts[i].ref != parts[j].ref)
  }

  predicate DepsOk(deps: seq<Dep>) {
    && (forall i :: 0 <= i < |deps| ==> deps[i].ref.Some?)
    && (forall i, j :: 0 <= i < j < |deps| ==> deps[i].ref != deps[j].ref)
  }

  // ---------- dependencies ----------

  function DepAt(ref: string): Dep -> nat { (d: Dep) => if d.ref == Some(ref) then 1 else 0 }

  /** dependencies_by_ref.setdefault */
  function Enter(deps: seq<Dep>, ref: string): seq<Dep> {
    if Sorting.Sum(DepAt(ref), deps) > 0 then deps else deps + [Dep(Some(ref), Some([]), 0)]
  }

  /** An edge that is not there is appended; an entry without dependsOn is a KeyError. */
  function Tie(deps: seq<Dep>, from: string, to: string): Option<seq<Dep>> {
    if Sorting.Sum(DepAt(from), deps) == 0 then None
    else
      var i := Sorting.Index(DepAt(from), deps);
      if deps[i].on.None? then None
      else if to in deps[i].on.value then Some(deps)
      else Some(deps[i := deps[i].(on := Some(deps[i].on.value + [to]))])
  }

  /** The usual pair: the entry of a component and the edge to it. */
  function EnterTie(deps: seq<Dep>, from: string, to: string): Option<seq<Dep>> { Tie(Enter(deps, to), from, to) }

  // ---------- properties ----------

  function Named(name: string): Property -> nat { (q: Property) => if q.name == name then 1 else 0 }

  predicate ByNameValue(a: Property, b: Property) { PairLeq(a.name, a.value, b.name, b.value) }

  /** add_cdx_property */
  function AddProperty(p: Part, name: string, value: string): Option<Part> {
    var matches := Sorting.Sum(Named(name), p.properties);
    if matches > 1 || (matches == 1 && p.properties[Sorting.Index(Named(name), p.properties)].value != value) then None
    else
      var list := if matches == 0 then p.properties + [Property(name, value)] else p.properties;
      Some(p.(properties := Sorting.Sort(list, ByNameValue)))
  }

  const SOURCE_PURL := "io.ratio1.debian.source-purl"
  const SOURCE_PATH := "io.ratio1.source.path"
  const LICENSE_BASIS := "io.ratio1.source.license-basis"
  const LICENSE_COMMENT := "io.ratio1.source.license-comment"

  // ---------- licenses ----------

  /** What \s matches in a str pattern. */
  predicate IsBlank(c: char) {
    || c == ' ' || '\t' <= c <= '\r' || '\U{1C}' <= c <= '\U{1F}' || '\U{2000}' <= c <= '\U{200A}'
    || c in {'\U{85}', '\U{A0}', '\U{1680}', '\U{2028}', '\U{2029}', '\U{202F}', '\U{205F}', '\U{3000}'}
  }

  /** re.search(r"\s(?:AND|OR|WITH)\s", spdx) */
  predicate Compound(spdx: string) {
    exists i, j :: 0 <= i < j < |spdx| && IsBlank(spdx[i]) && IsBlank(spdx[j]) && spdx[i + 1..j] in {"AND", "OR", "WITH"}
  }

  /** cdx_license_choice */
  function ChoiceOf(spdx: string, text: Option<string>): Choice {
    if Compound(spdx) then Choice(spdx, "", "", None)
    else if "LicenseRef-" <= spdx then Choice("", "", spdx, text)
    else Choice("", spdx, "", None)
  }

  /** What cdx_license_values reads from one choice. */
  function ChoiceValue(c: Choice): Option<string> {
    if c.expression != "" then Some(c.expression)
    else if c.id != "" then Some(c.id)
    else if c.name != "" then Some(c.name)
    else None
  }

  const APACHE := Choice("", APPLICATION_LICENSE, "", None)

  const AGGREGATE := "LicenseRef-Aggregate-License-Text"

  /** What source_license returns for a record. */
  predicate LicenseRead(rec: Record) {
    if rec.spdx == AGGREGATE || rec.spdx == "NOASSERTION" then
      rec.concluded == "NOASSERTION" && rec.comment.Some? && rec.text.None?
    else if "LicenseRef-" <= rec.spdx then "LicenseRef-" <= rec.concluded && rec.comment.None? && rec.text.Some?
    else rec.concluded == rec.spdx && rec.comment.None? && rec.text.None?
  }

  predicate InventoryRead(r: Release) { ReleaseOk(r) && forall rec :: rec in r.inventory ==> LicenseRead(rec) }

  // ---------- the application ----------

  function Carries(p: Part, key: string): nat { if p.purl != "" && NormalizedPurl(p.purl) == key then 1 else 0 }

  function WithPurl(key: string): Part -> nat { (p: Part) => Carries(p, key) }

  function Hits(parts: seq<Part>, key: string): nat { Sorting.Sum(WithPurl(key), parts) }

  predicate LooksLikeApplication(p: Part) { p.name == APPLICATION_NAME || IsApplicationPurl(p.purl) }

  predicate Conflicts(r: Release, p: Part) { Carries(p, ApplicationPurl(r)) == 0 && LooksLikeApplication(p) }

  function NewApplication(r: Release): Part {
    Part(Some(ApplicationPurl(r)), "application", APPLICATION_NAME, r.version, ApplicationPurl(r), [], [APACHE], [], r.rest)
  }

  function Marked(r: Release, p: Part): Part {
    p.(licenses := [APACHE], name := APPLICATION_NAME, version := r.version)
  }

  /** The components with the application, and where it stands. */
  function Identify(r: Release, parts: seq<Part>): (found: Option<(seq<Part>, nat)>)
    ensures found.Some? ==> found.value.1 < |found.value.0|
  {
    var key := ApplicationPurl(r);
    if (exists p :: p in parts && Conflicts(r, p)) || Hits(parts, key) > 1 then None
    else if Hits(parts, key) == 1 then
      var i := Sorting.Index(WithPurl(key), parts);
      Some((parts[i := Marked(r, parts[i])], i))
    else Some((parts + [Marked(r, NewApplication(r))], |parts|))
  }

  // ---------- components the release must mention ----------

  datatype State = State(parts: seq<Part>, deps: seq<Dep>)

  /** A component to find or add: `finder` counts how often a component stands in by_purl under the
      key. A Debian source also marks its binary, which `binary` tells. */
  datatype Need = Need(finder: Part -> nat, purl: string, template: Part, binary: Option<Part -> nat>)

  function IsBinary(r: Release, m: Mapping, p: Part): nat {
    if DebianIdentity(r, p.purl) == Some((m.binary, m.version)) then 1 else 0
  }

  function BinaryOf(r: Release, m: Mapping): Part -> nat { (p: Part) => IsBinary(r, m, p) }

  function Binaries(r: Release, parts: seq<Part>, m: Mapping): nat { Sorting.Sum(BinaryOf(r, m), parts) }

  predicate DebianOk(r: Release, parts: seq<Part>) {
    || (forall m :: m in r.mappings ==> Binaries(r, parts, m) == 0)
    || (forall m :: m in r.mappings ==> Binaries(r, parts, m) == 1)
  }

  predicate HasDebian(r: Release, parts: seq<Part>) {
    forall m :: m in r.mappings ==> Binaries(r, parts, m) > 0
  }

  function DebianNeed(r: Release, m: Mapping): Need {
    var purl := SourcePurl(r, m);
    Need(WithPurl(NormalizedPurl(purl)), purl,
         Part(Some(purl), "library", m.source, m.sourceVersion, purl, [], [],
              [Property("io.ratio1.debian.corresponding-source", "included at /usr/share/src/r1db/debian")], r.rest),
         Some(BinaryOf(r, m)))
  }

  function ComponentNeed(r: Release, c: Component): Need {
    Need(WithPurl(NormalizedPurl(ComponentPurl(c))), ComponentPurl(c),
         Part(Some(ComponentPurl(c)), "library", c.name, c.commit, ComponentPurl(c),
              [Hash("SHA-256", c.treeSha)], [Choice("", c.license, "", None)],
              [Property("io.ratio1.native.role", c.role), Property("io.ratio1.native.source-tree-sha256", c.treeSha)],
              c.rest),
         None)
  }

  function DebianNeeds(r: Release, parts: seq<Part>): seq<Need> {
    if HasDebian(r, parts) then
      seq(|r.mappings|, i requires 0 <= i < |r.mappings| => DebianNeed(r, r.mappings[i]))
    else []
  }

  function ComponentNeeds(r: Release): seq<Need> {
    seq(|r.components|, i requires 0 <= i < |r.components| => ComponentNeed(r, r.components[i]))
  }

  function Needs(r: Release, parts: seq<Part>): seq<Need> { DebianNeeds(r, parts) + ComponentNeeds(r) }

  function Ensure(parts: seq<Part>, need: Need): (found: Option<(seq<Part>, nat)>)
    ensures found.Some? ==> found.value.1 < |found.value.0|
  {
    var hits := Sorting.Sum(need.finder, parts);
    if hits > 1 then None
    else if hits == 1 then Some((parts, Sorting.Index(need.finder, parts)))
    else Some((parts + [need.template], |parts|))
  }

  /** The mark and the edge of a Debian binary. */
  function MarkBinary(binary: Part -> nat, purl: string, source: string, st: State): (next: Option<State>)
    ensures next.Some? ==> |next.value.parts| == |st.parts|
  {
    if Sorting.Sum(binary, st.parts) == 0 then None
    else
      var j := Sorting.Index(binary, st.parts);
      var marked := AddProperty(st.parts[j], SOURCE_PURL, purl);
      var deps := Tie(Enter(st.deps, Ref(st.parts[j])), Ref(st.parts[j]), source);
      if marked.None? || deps.None? then None else Some(State(st.parts[j := marked.value], deps.value))
  }

  function Meet(need: Need, application: string, st: State): (next: Option<State>)
    ensures next.Some? ==> |st.parts| <= |next.value.parts|
  {
    var found := Ensure(st.parts, need);
    if found.None? then None
    else
      var source := Ref(found.value.0[found.value.1]);
      var deps := EnterTie(st.deps, application, source);
      if deps.None? then None
      else if need.binary.None? then Some(State(found.value.0, deps.value))
      else MarkBinary(need.binary.value, need.purl, source, State(found.value.0, deps.value))
  }

  function Supply(needs: seq<Need>, application: string, st: State): (next: Option<State>)
    ensures next.Some? ==> |st.parts| <= |next.value.parts|
    decreases |needs|
  {
    if |needs| == 0 then Some(st)
    else
      var next := Meet(needs[0], application, st);
      if next.None? then None else Supply(needs[1..], application, next.value)
  }

  // ---------- source files ----------

  function Says(q: Property): Property -> nat { (x: Property) => if x == q then 1 else 0 }

  /** How often a component stands in by_path under a path of the inventory. */
  function Stands(p: Part, path: string): nat {
    if Sorting.Sum(Named(SOURCE_PATH), p.properties) > 0 then
      Sorting.Sum(Says(Property(SOURCE_PATH, path)), p.properties)
    else if p.kind == "file" && SourcePath(p.name) == path then 1
    else 0
  }

  function AtPath(path: string): Part -> nat { (p: Part) => Stands(p, path) }

  predicate Agrees(p: Part, rec: Record) {
    && (forall h :: h in p.hashes && h.alg == "SHA-256" ==> Lower(h.content) == rec.sha)
    && (forall c :: c in p.licenses && ChoiceValue(c).Some? ==> ChoiceValue(c).value in {rec.spdx, rec.concluded})
  }

  function Without256(hashes: seq<Hash>): seq<Hash> {
    if hashes == [] then []
    else
      var last := hashes[|hashes| - 1];
      Without256(hashes[..|hashes| - 1]) + if last.alg == "SHA-256" then [] else [last]
  }

  /** The hash and the license of a record. */
  function Signed(p: Part, rec: Record): Part {
    p.(hashes := Without256(p.hashes) + [Hash("SHA-256", rec.sha)],
       licenses := if rec.concluded == "NOASSERTION" then [] else [ChoiceOf(rec.concluded, rec.text)])
  }

  function Fill(p: Part, rec: Record): Option<Part> {
    var path := AddProperty(Signed(p, rec), SOURCE_PATH, rec.path);
    if path.None? then None
    else
      var basis := AddProperty(path.value, LICENSE_BASIS, rec.basis);
      if basis.None? || rec.comment.None? then basis
      else AddProperty(basis.value, LICENSE_COMMENT, rec.comment.value)
  }

  const URN := "urn:ratio1:source-file:"

  function NewPart(r: Release, rec: Record): Part {
    Part(Some(URN + r.sourceId(rec.path)), "file", "/source/" + rec.path, "", "", [], [], [], r.rest)
  }

  /** The component of a record among those that were there before the loop, or a new one. */
  function Place(r: Release, parts: seq<Part>, known: nat, rec: Record): (placed: Option<(seq<Part>, nat)>)
    requires known <= |parts|
    ensures placed.Some? ==> placed.value.1 < |placed.value.0| && known <= |placed.value.0|
  {
    var hits := Sorting.Sum(AtPath(rec.path), parts[..known]);
    if hits > 1 then None
    else if hits == 0 then
      var filled := Fill(NewPart(r, rec), rec);
      if filled.None? then None else Some((parts + [filled.value], |parts|))
    else
      var i := Sorting.Index(AtPath(rec.path), parts[..known]);
      var filled := Fill(parts[i], rec);
      if !Agrees(parts[i], rec) || filled.None? then None else Some((parts[i := filled.value], i))
  }

  /** One record of the inventory. */
  function File(r: Release, application: string, known: nat, rec: Record, st: State): (next: Option<State>)
    requires known <= |st.parts|
    ensures next.Some? ==> known <= |next.value.parts|
  {
    var placed := Place(r, st.parts, known, rec);
    if placed.None? then None
    else
      var deps := EnterTie(st.deps, application, Ref(placed.value.0[placed.value.1]));
      if deps.None? then None else Some(State(placed.value.0, deps.value))
  }

  function FileAll(r: Release, application: string, known: nat, records: seq<Record>, st: State): Option<State>
    requires known <= |st.parts|
    decreases |records|
  {
    if records == [] then Some(st)
    else
      var next := File(r, application, known, records[0], st);
      if next.None? then None else FileAll(r, application, known, records[1..], next.value)
  }

  // ---------- everything else the application depends on ----------

  predicate Wanted(p: Part) {
    p.purl != "" || (p.kind == "file" && "/" + TrimSlashes(p.name) in RUNTIME_PATHS)
  }

  function LinkAll(parts: seq<Part>, a: nat, application: string, i: nat, deps: seq<Dep>): Option<seq<Dep>>
    requires i <= |parts|
    decreases |parts| - i
  {
    if i == |parts| then Some(deps)
    else if i != a && Wanted(parts[i]) then
      var next := Tie(deps, application, Ref(parts[i]));
      if next.None? then None else LinkAll(parts, a, application, i + 1, next.value)
    else LinkAll(parts, a, application, i + 1, deps)
  }

  // ---------- the final sort ----------

  predicate ByNameRef(a: Part, b: Part) { PairLeq(a.name, Ref(a), b.name, Ref(b)) }

  function DepRef(d: Dep): string { if d.ref.Some? then d.ref.value else "" }

  predicate ByRef(a: Dep, b: Dep) { Leq(DepRef(a), DepRef(b)) }

  /** The first of each. */
  function Distinctly(s: seq<string>): seq<string> {
    if s == [] then []
    else
      var front := Distinctly(s[..|s| - 1]);
      if s[|s| - 1] in front then front else front + [s[|s| - 1]]
  }

  /** sorted(set(dependency.get("dependsOn", []))) */
  function Canonical(d: Dep): Dep {
    d.(on := Some(Sorting.Sort(Distinctly(if d.on.Some? then d.on.value else []), Leq)))
  }

  function CanonicalAll(deps: seq<Dep>): seq<Dep> {
    seq(|deps|, i requires 0 <= i < |deps| => Canonical(deps[i]))
  }

  function Ordered(b: Bom): Bom {
    b.(parts := Sorting.Sort(b.parts, ByNameRef), deps := Sorting.Sort(CanonicalAll(b.deps), ByRef))
  }

  // ---------- the whole run ----------

  /** The application and everything the release must mention: the state and where the application
      stands. */
  function AugmentParts(r: Release, b: Bom): (found: Option<(State, nat)>)
    requires b.root.Some?
    ensures found.Some? ==> found.value.1 < |found.value.0.parts|
  {
    var identified := Identify(r, b.parts);
    if identified.None? || !DebianOk(r, identified.value.0) then None
    else
      var (parts, a) := identified.value;
      var application := Ref(parts[a]);
      var deps := Tie(Enter(Enter(b.deps, b.root.value), application), b.root.value, application);
      if deps.None? then None
      else
        var supplied := Supply(Needs(r, parts), application, State(parts, deps.value));
        if supplied.None? then None else Some((supplied.value, a))
  }

  function AugmentSources(r: Release, b: Bom, application: string, st: State): Option<State> {
    if SourceName(b.rootName) then FileAll(r, application, |st.parts|, r.inventory, st) else Some(st)
  }

  predicate Readable(b: Bom) {
    RefsOk(b.parts) && DepsOk(b.deps) && b.root.Some? && b.root.value != ""
  }

  /** augment_cyclonedx; None is SystemExit or KeyError. */
  function Augment(r: Release, b: Bom): Option<Bom> {
    if !Readable(b) then None
    else
      var first := AugmentParts(r, b);
      if first.None? then None
      else
        var (st, a) := first.value;
        var application := Ref(st.parts[a]);
        var second := AugmentSources(r, b, application, st);
        if second.None? then None
        else
          var deps := LinkAll(second.value.parts, a, application, 0, second.value.deps);
          if deps.None? then None
          else Some(Ordered(b.(parts := second.value.parts, deps := deps.value)))
  }
}
