/** The values behind scripts/cloudflare_ephemeral_tunnels.py: what the remote service
    holds, what an allocation record says, and which remote resources a list of
    allocation records names. */
module TunnelModel {
  import opened Common

  datatype Tunnel = Tunnel(name: string, configSrc: Option<string>)

  /** A CNAME record. */
  datatype Record = Record(hostname: string, content: string)

  /** The remote account and zone.  tunnelIds and recordIds hold every id ever issued:
      the service does not issue an id twice. */
  datatype Cloud = Cloud(
    tunnels: map<string, Tunnel>,
    connectors: set<string>,
    records: map<string, Record>,
    tunnelIds: set<string>,
    recordIds: set<string>)

  datatype Allocation = Allocation(
    name: Option<string>,
    hostname: Option<string>,
    nodeIndex: int,
    id: Option<string>,
    dnsRecordId: Option<string>,
    tokenFile: Option<string>)

  const CONTENT_SUFFIX: string := ".cfargotunnel.com"

  function Content(id: string): string { id + CONTENT_SUFFIX }

  lemma ContentInjective(a: string, b: string)
    requires Content(a) == Content(b)
    ensures a == b
  {
    assert |a| == |b|;
    assert a == Content(a)[..|a|] && b == Content(b)[..|b|];
  }

  predicate IsIdChar(c: char) {
    IsDigit(c) || 'a' <= c <= 'z' || 'A' <= c <= 'Z' || c == '_' || c == '-'
  }

  /** RESOURCE_ID.fullmatch */
  predicate IsResourceId(s: string) {
    1 <= |s| <= 128 && forall i :: 0 <= i < |s| ==> IsIdChar(s[i])
  }

  /** Python truthiness of an optional string. */
  predicate Truthy(o: Option<string>) { o.Some? && o.value != "" }

  /** What the service guarantees of its own state. */
  ghost predicate CloudOk(c: Cloud) {
    && c.tunnels.Keys <= c.tunnelIds
    && c.records.Keys <= c.recordIds
    && (forall t :: t in c.tunnelIds ==> IsResourceId(t))
    && (forall r :: r in c.recordIds ==> IsResourceId(r))
    && (forall r, t :: r in c.records && c.records[r].content == Content(t) ==> t in c.tunnelIds)
  }

  // ---------- which resources an allocation record names ----------

  /** A record is named by its saved id, or failing that by hostname and target. */
  predicate NamesRecord(a: Allocation, r: string, rec: Record) {
    if Truthy(a.dnsRecordId) then r == a.dnsRecordId.value
    else
      Truthy(a.hostname) && Truthy(a.id) && IsResourceId(r)
      && Lower(rec.hostname) == Lower(a.hostname.value)
      && rec.content == Content(a.id.value)
  }

  /** A tunnel is named by its saved id, or failing that by its name. */
  predicate NamesTunnel(a: Allocation, t: string, tun: Tunnel) {
    if Truthy(a.id) then t == a.id.value
    else Truthy(a.name) && tun.name == a.name.value && IsResourceId(t)
  }

  ghost predicate RecordNamed(allocs: seq<Allocation>, r: string, rec: Record) {
    exists a :: a in allocs && NamesRecord(a, r, rec)
  }

  ghost predicate TunnelNamed(allocs: seq<Allocation>, t: string, tun: Tunnel) {
    exists a :: a in allocs && NamesTunnel(a, t, tun)
  }

  /** No remaining resource is named by allocs. */
  ghost predicate Clean(allocs: seq<Allocation>, c: Cloud) {
    && (forall r :: r in c.records ==> !RecordNamed(allocs, r, c.records[r]))
    && (forall t :: t in c.tunnels ==> !TunnelNamed(allocs, t, c.tunnels[t]))
  }

  /** Everything in c that was not in c0 is named by allocs. */
  ghost predicate Tracked(allocs: seq<Allocation>, c0: Cloud, c: Cloud) {
    && (forall r :: r in c.records ==>
          (r in c0.records && c0.records[r] == c.records[r]) || RecordNamed(allocs, r, c.records[r]))
    && (forall t :: t in c.tunnels ==>
          (t in c0.tunnels && c0.tunnels[t] == c.tunnels[t]) || TunnelNamed(allocs, t, c.tunnels[t]))
  }

  ghost predicate Submap<K, V>(m: map<K, V>, n: map<K, V>) {
    forall k :: k in m ==> k in n && m[k] == n[k]
  }

  /** c came from c0 by removals alone, and only resources named by allocs were removed. */
  ghost predicate Shrinks(allocs: seq<Allocation>, c0: Cloud, c: Cloud) {
    && Submap(c.records, c0.records)
    && Submap(c.tunnels, c0.tunnels)
    && c.connectors <= c0.connectors
    && c.tunnelIds == c0.tunnelIds && c.recordIds == c0.recordIds
    && (forall r :: r in c0.records && r !in c.records ==> RecordNamed(allocs, r, c0.records[r]))
    && (forall t :: t in c0.tunnels && t !in c.tunnels ==> TunnelNamed(allocs, t, c0.tunnels[t]))
    && (forall t :: t in c0.tunnels && t in c0.connectors && t !in c.connectors ==>
          TunnelNamed(allocs, t, c0.tunnels[t]))
  }

  /** Whatever existed in c0 is still there. */
  ghost predicate Intact(c0: Cloud, c: Cloud) {
    && Submap(c0.records, c.records)
    && Submap(c0.tunnels, c.tunnels)
  }

  lemma ShrinksTransitive(allocs: seq<Allocation>, c0: Cloud, c1: Cloud, c2: Cloud)
    requires Shrinks(allocs, c0, c1) && Shrinks(allocs, c1, c2)
    ensures Shrinks(allocs, c0, c2)
  {
    forall t | t in c0.tunnels && t in c0.connectors && t !in c2.connectors
      ensures TunnelNamed(allocs, t, c0.tunnels[t])
    {
      if t in c1.connectors && t in c1.tunnels {
        assert c1.tunnels[t] == c0.tunnels[t];
      }
    }
  }

  lemma ShrinksKeepsOk(allocs: seq<Allocation>, c0: Cloud, c: Cloud)
    requires CloudOk(c0) && Shrinks(allocs, c0, c)
    ensures CloudOk(c)
  {}

  /** A removal by anybody's list keeps the new resources tracked. */
  lemma ShrinksKeepsTracked(remover: seq<Allocation>, allocs: seq<Allocation>, c0: Cloud, c1: Cloud, c2: Cloud)
    requires Tracked(allocs, c0, c1) && Shrinks(remover, c1, c2)
    ensures Tracked(allocs, c0, c2)
  {}

  /** Tracked and clean together leave nothing that was not there at the start. */
  lemma TrackedCleanIsGone(allocs: seq<Allocation>, c0: Cloud, c: Cloud)
    requires Tracked(allocs, c0, c) && Clean(allocs, c)
    ensures Submap(c.records, c0.records) && Submap(c.tunnels, c0.tunnels)
  {}

  /** The ids in the list were issued after c0. */
  ghost predicate IdsIssuedAfter(allocs: seq<Allocation>, c0: Cloud) {
    forall a :: a in allocs ==>
      && (Truthy(a.id) ==> a.id.value !in c0.tunnelIds)
      && (Truthy(a.dnsRecordId) ==> a.dnsRecordId.value !in c0.recordIds)
  }

  /** No tunnel of c0 carries a name from the list. */
  ghost predicate NamesFresh(allocs: seq<Allocation>, c0: Cloud) {
    forall a, t :: a in allocs && Truthy(a.name) && t in c0.tunnels ==> c0.tunnels[t].name != a.name.value
  }

  ghost predicate NameUsed(allocs: seq<Allocation>, name: string) {
    exists a :: a in allocs && a.name == Some(name)
  }

  /** Whatever existed in c0 is still there, except tunnels that carry a name from the list. */
  ghost predicate IntactBut(allocs: seq<Allocation>, c0: Cloud, c: Cloud) {
    && Submap(c0.records, c.records)
    && (forall t :: t in c0.tunnels ==>
          (t in c.tunnels && c.tunnels[t] == c0.tunnels[t]) || NameUsed(allocs, c0.tunnels[t].name))
  }

  /** An entry of the list can name an old tunnel by its name only, and no old record. */
  lemma ForeignNamed(allocs: seq<Allocation>, c0: Cloud)
    requires CloudOk(c0) && IdsIssuedAfter(allocs, c0)
    ensures forall r :: r in c0.records ==> !RecordNamed(allocs, r, c0.records[r])
    ensures forall t :: t in c0.tunnels && TunnelNamed(allocs, t, c0.tunnels[t]) ==>
              NameUsed(allocs, c0.tunnels[t].name)
  {}

  lemma ShrinkSparesForeign(allocs: seq<Allocation>, known: seq<Allocation>, c0: Cloud, c1: Cloud, c2: Cloud)
    requires CloudOk(c0) && IdsIssuedAfter(allocs, c0)
    requires forall a :: a in allocs && a.name.Some? ==> NameUsed(known, a.name.value)
    requires IntactBut(known, c0, c1) && Shrinks(allocs, c1, c2)
    ensures IntactBut(known, c0, c2)
  {
    ForeignNamed(allocs, c0);
  }

  /** A cleanup that leaves nothing of its list loses a tunnel from before exactly when an entry
      without an id carries its name. */
  lemma OldTunnelLost(allocs: seq<Allocation>, c0: Cloud, c1: Cloud, c2: Cloud, t: string)
    requires CloudOk(c0) && IdsIssuedAfter(allocs, c0) && t in c0.tunnels
    requires t in c1.tunnels && c1.tunnels[t] == c0.tunnels[t] && Shrinks(allocs, c1, c2) && Clean(allocs, c2)
    ensures t !in c2.tunnels <==>
      exists a :: a in allocs && !Truthy(a.id) && Truthy(a.name) && a.name.value == c0.tunnels[t].name
  {
    assert t in c0.tunnelIds;
    if t !in c2.tunnels {
      var a :| a in allocs && NamesTunnel(a, t, c1.tunnels[t]);
      assert !Truthy(a.id);
    }
  }

  /** An account with one tunnel from before, and a run that planned a tunnel of that name and was
      stopped before it had an id: the cleanup takes the old tunnel. */
  lemma NameReused(there: string, name: string, c2: Cloud)
    requires IsResourceId(there) && name != ""
    ensures
      var c0 := Cloud(map[there := Tunnel(name, None)], {}, map[], {there}, {});
      var allocs := [Allocation(Some(name), None, 0, None, None, None)];
      && CloudOk(c0) && IdsIssuedAfter(allocs, c0)
      && Shrinks(allocs, c0, c0.(tunnels := map[])) && Clean(allocs, c0.(tunnels := map[]))
      && (Shrinks(allocs, c0, c2) && Clean(allocs, c2) ==> there !in c2.tunnels)
  {
    var tunnel, a := Tunnel(name, None), Allocation(Some(name), None, 0, None, None, None);
    var c0 := Cloud(map[there := tunnel], {}, map[], {there}, {});
    assert a in [a] && NamesTunnel(a, there, tunnel);
    if Shrinks([a], c0, c2) && Clean([a], c2) {
      OldTunnelLost([a], c0, c0, c2, there);
    }
  }

  // ---------- calls ----------

  datatype Op =
    | FindRecords(hostname: string, target: string)
    | DeleteRecord(record: string)
    | FindTunnels(name: string)
    | DeleteConnections(tunnel: string)
    | DeleteTunnel(tunnel: string)

  ghost function MatchingRecords(c: Cloud, hostname: string, target: string): set<string> {
    set r | r in c.records && IsResourceId(r)
            && Lower(c.records[r].hostname) == Lower(hostname)
            && c.records[r].content == Content(target)
  }

  ghost function MatchingTunnels(c: Cloud, name: string): set<string> {
    set t | t in c.tunnels && IsResourceId(t) && c.tunnels[t].name == name
  }

  ghost predicate Lists(ids: seq<string>, s: set<string>) {
    && (forall i :: 0 <= i < |ids| ==> ids[i] in s)
    && (forall x :: x in s ==> x in ids)
    && (forall i, j :: 0 <= i < j < |ids| ==> ids[i] != ids[j])
  }

  /** The state after op has taken effect. */
  function Done(op: Op, c: Cloud): Cloud {
    match op
    case FindRecords(_, _) => c
    case FindTunnels(_) => c
    case DeleteRecord(r) => c.(records := c.records - {r})
    case DeleteConnections(t) => c.(connectors := c.connectors - {t})
    case DeleteTunnel(t) => c.(tunnels := c.tunnels - {t})
  }

  /** The service refuses to delete a tunnel that still has connectors. */
  predicate Blocked(op: Op, c: Cloud) {
    op.DeleteTunnel? && op.tunnel in c.connectors
  }

  /** What a caller may see: success means op took effect; an error leaves open whether it
      did (the reply may be lost after the effect). */
  ghost predicate Effect(op: Op, ok: bool, ids: seq<string>, c0: Cloud, c: Cloud) {
    && (ok ==> c == Done(op, c0) && !Blocked(op, c0))
    && (!ok ==> c == c0 || (c == Done(op, c0) && !Blocked(op, c0)))
    && (ok && op.FindRecords? ==> Lists(ids, MatchingRecords(c0, op.hostname, op.target)))
    && (ok && op.FindTunnels? ==> Lists(ids, MatchingTunnels(c0, op.name)))
  }

  /** A failed attempt followed by another attempt looks like one attempt. */
  lemma EffectRetry(op: Op, c0: Cloud, c1: Cloud, ok: bool, ids: seq<string>, c2: Cloud)
    requires Effect(op, false, [], c0, c1) && Effect(op, ok, ids, c1, c2)
    ensures Effect(op, ok, ids, c0, c2)
  {
    if c1 == Done(op, c0) {
      assert Done(op, c1) == Done(op, c0);
    }
  }
}
