/** What scripts/augment-sbom.py knows about the release, and the small text functions that both of
    its formats share. */
module SbomRelease {
  import opened Common
  import opened Text

  // ---------- what the release knows ----------

  datatype Component = Component(
    name: string, commit: string, license: string, treeSha: string, role: string, rest: int)

  datatype Mapping = Mapping(binary: string, version: string, source: string, sourceVersion: string)

  /** One inventory record with what source_license reads for it. */
  datatype Record = Record(
    path: string, sha: string, spdx: string, basis: string,
    concluded: string, comment: Option<string>, text: Option<string>)

  datatype Release = Release(
    version: string, components: seq<Component>, mappings: seq<Mapping>, inventory: seq<Record>, rest: int,
    nativeId: string -> string, sourceId: string -> string, quote: string -> string, unquote: string -> string)

  const APPLICATION_NAME := "R1DB"
  const APPLICATION_LICENSE := "Apache-2.0"
  const RUNTIME_PATHS := ["/cockroach/cockroach", "/usr/local/bin/cloudflared"]

  /** VERSION is checked on import, the inventory becomes a dictionary by path and the Debian
      mapping is refused when a binary package stands in it twice. */
  predicate ReleaseOk(r: Release) {
    && (forall c :: c in r.version ==> IsDigit(c) || c == '.')
    && (forall i, j :: 0 <= i < j < |r.inventory| ==> r.inventory[i].path != r.inventory[j].path)
    && (forall i, j :: 0 <= i < j < |r.mappings| ==> r.mappings[i].binary != r.mappings[j].binary)
  }

  // ---------- package URLs ----------

  /** value.split("?", 1)[0] */
  function Base(value: string): string {
    var i := IndexOf(value, '?');
    if i == -1 then value else value[..i]
  }

  function NormalizedPurl(value: string): string { Lower(Base(value)) }

  const APPLICATION_BASE := "pkg:generic/r1db"

  function ApplicationPurl(r: Release): string { APPLICATION_BASE + "@" + r.version }

  predicate IsApplicationPurl(value: string) {
    var normalized := NormalizedPurl(value);
    normalized == APPLICATION_BASE || APPLICATION_BASE + "@" <= normalized
  }

  const DEBIAN_PREFIX := "pkg:deb/debian/"

  function LastIndexOf(s: string, c: char): (i: int)
    ensures -1 <= i < |s|
  {
    if s == "" then -1 else if s[|s| - 1] == c then |s| - 1 else LastIndexOf(s[..|s| - 1], c)
  }

  /** debian_purl_identity */
  function DebianIdentity(r: Release, value: string): Option<(string, string)> {
    var base := Base(value);
    if !(DEBIAN_PREFIX <= Lower(base)) || '@' !in base then None
    else
      var rest := base[|DEBIAN_PREFIX|..];
      var i := LastIndexOf(rest, '@');
      if i == -1 then None else Some((Lower(r.unquote(rest[..i])), r.unquote(rest[i + 1..])))
  }

  const GENERIC := "pkg:generic/"

  function ComponentPurl(c: Component): string { GENERIC + c.name + "@" + c.commit }

  const DEBIAN_SOURCE := "pkg:generic/debian-source/"

  function SourcePurl(r: Release, m: Mapping): string {
    DEBIAN_SOURCE + r.quote(m.source) + "@" + r.quote(m.sourceVersion)
  }

  // ---------- paths and names ----------

  /** value.lstrip("/") */
  function TrimSlashes(s: string): (r: string)
    ensures r == "" || r[0] != '/'
  {
    if s != "" && s[0] == '/' then TrimSlashes(s[1..]) else s
  }

  /** source_path */
  function SourcePath(value: string): string {
    var path := TrimSlashes(value);
    if "source/" <= path then path[|"source/"|..]
    else if "source-snapshot/" <= path then path[|"source-snapshot/"|..]
    else path
  }

  /** Where name[..n].rstrip("/") ends. */
  function SegmentEnd(name: string, n: nat): (e: nat)
    requires n <= |name|
    ensures e <= n
  {
    if n > 0 && name[n - 1] == '/' then SegmentEnd(name, n - 1) else n
  }

  /** Where the last segment of name[..n] starts. */
  function SegmentStart(name: string, n: nat): (i: nat)
    requires n <= |name|
    ensures i <= n
  {
    if n > 0 && name[n - 1] != '/' then SegmentStart(name, n - 1) else n
  }

  /** name.rstrip("/").rsplit("/", 1)[-1] */
  function LastSegment(name: string): string {
    var n := SegmentEnd(name, |name|);
    name[SegmentStart(name, n)..n]
  }

  predicate SourceName(name: string) { LastSegment(name) == "source" || LastSegment(name) == "source-snapshot" }

  // ---------- sort keys ----------

  predicate PairLeq(a0: string, a1: string, b0: string, b1: string) {
    if a0 == b0 then Leq(a1, b1) else Leq(a0, b0)
  }
}
