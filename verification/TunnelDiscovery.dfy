/** Recovery by exact run prefix: discover_run_allocations and cleanup_run_prefix of
    scripts/cloudflare_ephemeral_tunnels.py. */
module TunnelDiscovery {
  import opened Common
  import opened TunnelModel
  import opened TunnelNames
  import opened TunnelProtocol
  import opened TunnelWorld
  import opened TunnelRecovery

  // ---------- the namespace of a run ----------

  function RunTunnels(c: Cloud, prefix: string): set<string> {
    set t | t in c.tunnels && StartsWith(c.tunnels[t].name, prefix + "-")
  }

  function RunRecords(c: Cloud, prefix: string): set<string> {
    set r | r in c.records && StartsWith(Lower(c.records[r].hostname), prefix + "-")
  }

  /** The node name in front of ".{base_domain}", when the pattern matches. */
  predicate HostMatch(prefix: string, baseDomain: string, host: string) {
    && |host| == |prefix| + 12 + |baseDomain|
    && NodeMatch(prefix, host[..|prefix| + 11])
    && host[|prefix| + 11..] == "." + baseDomain
  }

  predicate ContentOk(content: string) {
    EndsWith(content, CONTENT_SUFFIX) && IsResourceId(content[..|content| - |CONTENT_SUFFIX|])
  }

  function ContentId(content: string): (id: string)
    requires ContentOk(content)
    ensures content == Content(id) && IsResourceId(id)
  {
    content[..|content| - |CONTENT_SUFFIX|]
  }

  /** A matched tunnel or record: the node it belongs to and the tunnel id it carries. */
  datatype Seen = Seen(id: string, name: string, index: int, tunnel: string)

  predicate IsNode(prefix: string, name: string, index: int) {
    NodeMatch(prefix, name) && NodeIndex(prefix, name) == index
  }

  /** The per-tunnel checks of discover_run_allocations. */
  function SeeTunnel(prefix: string, t: string, tun: Tunnel): (s: Option<Seen>)
    ensures s.Some? ==> s.value.id == t && s.value.tunnel == t && s.value.name == tun.name
    ensures s.Some? ==> IsNode(prefix, s.value.name, s.value.index) && 1 <= s.value.index <= 3 && IsResourceId(t)
  {
    if NodeMatch(prefix, tun.name) && IsResourceId(t) && tun.configSrc in {None, Some("local")} then
      Some(Seen(t, tun.name, NodeIndex(prefix, tun.name), t))
    else None
  }

  /** The per-record checks. */
  function SeeRecord(prefix: string, baseDomain: string, r: string, rec: Record): (s: Option<Seen>)
    ensures s.Some? ==> s.value.id == r && rec.content == Content(s.value.tunnel)
    ensures s.Some? ==> s.value.name + "." + baseDomain == Lower(rec.hostname)
    ensures s.Some? ==> IsNode(prefix, s.value.name, s.value.index) && 1 <= s.value.index <= 3 && IsResourceId(r)
  {
    var host := Lower(rec.hostname);
    if HostMatch(prefix, baseDomain, host) && ContentOk(rec.content) && IsResourceId(r) then
      var name := host[..|prefix| + 11];
      assert host == name + ("." + baseDomain);
      Some(Seen(r, name, NodeIndex(prefix, name), ContentId(rec.content)))
    else None
  }

  predicate DistinctIndexes(s: seq<Seen>) {
    forall i, j :: 0 <= i < j < |s| ==> s[i].index != s[j].index
  }

  /** A record of a node that has a tunnel carries the tunnel's name and id. */
  predicate Agree(tunnels: seq<Seen>, records: seq<Seen>) {
    forall i, j :: 0 <= i < |tunnels| && 0 <= j < |records| && tunnels[i].index == records[j].index ==>
      tunnels[i].name == records[j].name && tunnels[i].id == records[j].tunnel
  }

  // ---------- discover_run_allocations ----------

  ghost predicate EntryFits(a: Allocation, k: int, prefix: string, baseDomain: string) {
    && a.name.Some? && IsNode(prefix, a.name.value, k)
    && a.hostname == Some(a.name.value + "." + baseDomain) && a.nodeIndex == k
    && (a.id.Some? || a.dnsRecordId.Some?)
  }

  ghost predicate HasIndex(s: seq<Seen>, k: int) { exists i :: 0 <= i < |s| && s[i].index == k }

  /** The table of allocations for the tunnels and records seen. */
  ghost predicate Table(tunnels: seq<Seen>, records: seq<Seen>, prefix: string, baseDomain: string,
                        found: map<int, Allocation>)
  {
    && (forall i :: 0 <= i < |tunnels| ==>
          && tunnels[i].index in found
          && found[tunnels[i].index].id == Some(tunnels[i].id)
          && found[tunnels[i].index].name == Some(tunnels[i].name))
    && (forall i :: 0 <= i < |records| ==>
          && records[i].index in found
          && found[records[i].index].dnsRecordId == Some(records[i].id))
    && (forall k :: k in found ==> EntryFits(found[k], k, prefix, baseDomain))
    && (forall k :: k in found && found[k].id.Some? ==> HasIndex(tunnels, k))
    && (forall k :: k in found && found[k].dnsRecordId.Some? ==> HasIndex(records, k))
  }

  ghost predicate AllNodes(s: seq<Seen>, prefix: string) {
    forall i :: 0 <= i < |s| ==> IsNode(prefix, s[i].name, s[i].index)
  }

  /** The loop over the tunnels. */
  method GatherTunnels(tunnels: seq<Seen>, prefix: string, baseDomain: string)
    returns (ok: bool, found: map<int, Allocation>)
    requires AllNodes(tunnels, prefix)
    ensures ok <==> DistinctIndexes(tunnels)
    ensures ok ==> Table(tunnels, [], prefix, baseDomain, found)
  {
    found := map[];
    var i := 0;
    while i < |tunnels|
      invariant 0 <= i <= |tunnels|
      invariant DistinctIndexes(tunnels[..i])
      invariant Table(tunnels[..i], [], prefix, baseDomain, found)
    {
      var t := tunnels[i];
      if t.index in found {
        assert HasIndex(tunnels[..i], t.index);
        return false, map[];
      }
      found := found[t.index := Allocation(Some(t.name), Some(t.name + "." + baseDomain), t.index, Some(t.id), None, None)];
      Grow(tunnels, i);
      i := i + 1;
    }
    assert tunnels[..i] == tunnels;
    ok := true;
  }

  lemma Grow(s: seq<Seen>, i: nat)
    requires i < |s|
    ensures s[..i + 1] == s[..i] + [s[i]]
    ensures forall k :: HasIndex(s[..i + 1], k) <==> HasIndex(s[..i], k) || s[i].index == k
  {
    assert s[..i + 1] == s[..i] + [s[i]];
    forall k | HasIndex(s[..i], k) || s[i].index == k ensures HasIndex(s[..i + 1], k) {
      if s[i].index == k {
        assert s[..i + 1][i].index == k;
      } else {
        var j :| 0 <= j < |s[..i]| && s[..i][j].index == k;
        assert s[..i + 1][j].index == k;
      }
    }
  }

  /** What one record does to the table: a new row, a completed row, or a conflict. */
  function EnterRecord(found: map<int, Allocation>, r: Seen, baseDomain: string): Option<map<int, Allocation>> {
    if r.index !in found then
      Some(found[r.index := Allocation(Some(r.name), Some(r.name + "." + baseDomain), r.index, None, Some(r.id), None)])
    else
      var existing := found[r.index];
      if existing.name != Some(r.name) || existing.id != Some(r.tunnel) || existing.dnsRecordId.Some? then None
      else Some(found[r.index := existing.(dnsRecordId := Some(r.id))])
  }

  lemma EnterConflict(tunnels: seq<Seen>, records: seq<Seen>, i: nat, prefix: string, baseDomain: string,
                      found: map<int, Allocation>)
    requires i < |records| && Table(tunnels, records[..i], prefix, baseDomain, found)
    requires EnterRecord(found, records[i], baseDomain).None?
    ensures !DistinctIndexes(records) || !Agree(tunnels, records)
  {
    var k := records[i].index;
    if found[k].dnsRecordId.Some? {
      assert HasIndex(records[..i], k);
      var j :| 0 <= j < |records[..i]| && records[..i][j].index == k;
      assert records[j].index == records[i].index;
    } else {
      assert HasIndex(tunnels, k);
    }
  }

  lemma EnterKeeps(tunnels: seq<Seen>, records: seq<Seen>, i: nat, prefix: string, baseDomain: string,
                   found: map<int, Allocation>)
    requires i < |records| && Table(tunnels, records[..i], prefix, baseDomain, found)
    requires IsNode(prefix, records[i].name, records[i].index)
    requires EnterRecord(found, records[i], baseDomain).Some?
    ensures Table(tunnels, records[..i + 1], prefix, baseDomain, EnterRecord(found, records[i], baseDomain).value)
  {
    Grow(records, i);
  }

  lemma EnterAgrees(tunnels: seq<Seen>, records: seq<Seen>, i: nat, prefix: string, baseDomain: string,
                    found: map<int, Allocation>)
    requires i < |records| && Table(tunnels, records[..i], prefix, baseDomain, found)
    requires DistinctIndexes(records[..i]) && Agree(tunnels, records[..i])
    requires EnterRecord(found, records[i], baseDomain).Some?
    ensures DistinctIndexes(records[..i + 1]) && Agree(tunnels, records[..i + 1])
  {
    assert records[..i + 1] == records[..i] + [records[i]];
  }

  /** The loop over the DNS records. */
  method GatherRecords(tunnels: seq<Seen>, records: seq<Seen>, prefix: string, baseDomain: string,
                       start: map<int, Allocation>)
    returns (ok: bool, found: map<int, Allocation>)
    requires AllNodes(records, prefix) && Table(tunnels, [], prefix, baseDomain, start)
    ensures ok <==> DistinctIndexes(records) && Agree(tunnels, records)
    ensures ok ==> Table(tunnels, records, prefix, baseDomain, found)
  {
    found := start;
    var i := 0;
    while i < |records|
      invariant 0 <= i <= |records|
      invariant DistinctIndexes(records[..i]) && Agree(tunnels, records[..i])
      invariant Table(tunnels, records[..i], prefix, baseDomain, found)
    {
      var entered := EnterRecord(found, records[i], baseDomain);
      if entered.None? {
        EnterConflict(tunnels, records, i, prefix, baseDomain, found);
        return false, map[];
      }
      EnterKeeps(tunnels, records, i, prefix, baseDomain, found);
      EnterAgrees(tunnels, records, i, prefix, baseDomain, found);
      found := entered.value;
      i := i + 1;
    }
    assert records[..i] == records;
    ok := true;
  }

  // ---------- the whole discovery ----------

  ghost predicate TunnelsSeen(c: Cloud, prefix: string, ts: seq<string>, seen: seq<Seen>) {
    |seen| == |ts| && forall i :: 0 <= i < |ts| ==>
      ts[i] in c.tunnels && SeeTunnel(prefix, ts[i], c.tunnels[ts[i]]) == Some(seen[i])
  }

  ghost predicate RecordsSeen(c: Cloud, prefix: string, baseDomain: string, rs: seq<string>, seen: seq<Seen>) {
    |seen| == |rs| && forall i :: 0 <= i < |rs| ==>
      rs[i] in c.records && SeeRecord(prefix, baseDomain, rs[i], c.records[rs[i]]) == Some(seen[i])
  }

  /** The state of the account that discovery accepts: every tunnel and record whose name
      starts with the prefix is one of nodes 1 to 3, one tunnel and one record a node, and
      the record of a node points at the node's tunnel. */
  ghost predicate RunFits(c: Cloud, prefix: string, baseDomain: string) {
    && (forall t :: t in RunTunnels(c, prefix) ==> SeeTunnel(prefix, t, c.tunnels[t]).Some?)
    && (forall r :: r in RunRecords(c, prefix) ==> SeeRecord(prefix, baseDomain, r, c.records[r]).Some?)
    && (forall t, u :: t in RunTunnels(c, prefix) && u in RunTunnels(c, prefix) && t != u ==>
          SeeTunnel(prefix, t, c.tunnels[t]).value.index != SeeTunnel(prefix, u, c.tunnels[u]).value.index)
    && (forall r, q :: r in RunRecords(c, prefix) && q in RunRecords(c, prefix) && r != q ==>
          SeeRecord(prefix, baseDomain, r, c.records[r]).value.index
          != SeeRecord(prefix, baseDomain, q, c.records[q]).value.index)
    && (forall t, r :: t in RunTunnels(c, prefix) && r in RunRecords(c, prefix) ==>
          PairFits(SeeTunnel(prefix, t, c.tunnels[t]).value, SeeRecord(prefix, baseDomain, r, c.records[r]).value))
  }

  predicate PairFits(t: Seen, r: Seen) {
    t.index == r.index ==> t.name == r.name && t.id == r.tunnel
  }

  lemma SeenFits(c: Cloud, prefix: string, baseDomain: string, ts: seq<string>, rs: seq<string>,
                 tunnels: seq<Seen>, records: seq<Seen>)
    requires Lists(ts, RunTunnels(c, prefix)) && Lists(rs, RunRecords(c, prefix))
    requires TunnelsSeen(c, prefix, ts, tunnels) && RecordsSeen(c, prefix, baseDomain, rs, records)
    ensures RunFits(c, prefix, baseDomain) ==>
              DistinctIndexes(tunnels) && DistinctIndexes(records) && Agree(tunnels, records)
    ensures RunFits(c, prefix, baseDomain) ==> |ts| <= 3 && |rs| <= 3
  {
    if RunFits(c, prefix, baseDomain) {
      forall i, j | 0 <= i < j < |tunnels| ensures tunnels[i].index != tunnels[j].index {
        assert ts[i] != ts[j] && ts[i] in RunTunnels(c, prefix) && ts[j] in RunTunnels(c, prefix);
      }
      forall i, j | 0 <= i < j < |records| ensures records[i].index != records[j].index {
        assert rs[i] != rs[j] && rs[i] in RunRecords(c, prefix) && rs[j] in RunRecords(c, prefix);
      }
      forall i, j | 0 <= i < |tunnels| && 0 <= j < |records| && tunnels[i].index == records[j].index
        ensures tunnels[i].name == records[j].name && tunnels[i].id == records[j].tunnel
      {
        assert ts[i] in RunTunnels(c, prefix) && rs[j] in RunRecords(c, prefix);
        assert PairFits(tunnels[i], records[j]);
      }
      AtMostThree(tunnels);
      AtMostThree(records);
    }
  }

  lemma FitsSeen(c: Cloud, prefix: string, baseDomain: string, ts: seq<string>, rs: seq<string>,
                 tunnels: seq<Seen>, records: seq<Seen>)
    requires Lists(ts, RunTunnels(c, prefix)) && Lists(rs, RunRecords(c, prefix))
    requires TunnelsSeen(c, prefix, ts, tunnels) && RecordsSeen(c, prefix, baseDomain, rs, records)
    requires DistinctIndexes(tunnels) && DistinctIndexes(records) && Agree(tunnels, records)
    ensures RunFits(c, prefix, baseDomain)
  {
    var T, R := RunTunnels(c, prefix), RunRecords(c, prefix);
    assert forall t :: t in T ==> exists i :: 0 <= i < |ts| && ts[i] == t;
    assert forall r :: r in R ==> exists i :: 0 <= i < |rs| && rs[i] == r;
    forall t, u | t in T && u in T && t != u
      ensures SeeTunnel(prefix, t, c.tunnels[t]).value.index != SeeTunnel(prefix, u, c.tunnels[u]).value.index
    {
      var i :| 0 <= i < |ts| && ts[i] == t;
      var j :| 0 <= j < |ts| && ts[j] == u;
      assert tunnels[i].index != tunnels[j].index;
    }
    forall r, q | r in R && q in R && r != q
      ensures SeeRecord(prefix, baseDomain, r, c.records[r]).value.index
        != SeeRecord(prefix, baseDomain, q, c.records[q]).value.index
    {
      var i :| 0 <= i < |rs| && rs[i] == r;
      var j :| 0 <= j < |rs| && rs[j] == q;
      assert records[i].index != records[j].index;
    }
    forall t, r | t in T && r in R
      ensures PairFits(SeeTunnel(prefix, t, c.tunnels[t]).value, SeeRecord(prefix, baseDomain, r, c.records[r]).value)
    {
      var i :| 0 <= i < |ts| && ts[i] == t;
      var j :| 0 <= j < |rs| && rs[j] == r;
      assert PairFits(tunnels[i], records[j]);
    }
  }

  function Indexes(s: seq<Seen>): set<int> {
    if s == [] then {} else Indexes(s[..|s| - 1]) + {s[|s| - 1].index}
  }

  lemma {:induction false} IndexesCount(s: seq<Seen>)
    requires DistinctIndexes(s) && forall i :: 0 <= i < |s| ==> 1 <= s[i].index <= 3
    ensures |Indexes(s)| == |s| && Indexes(s) <= {1, 2, 3}
    ensures forall k :: k in Indexes(s) ==> HasIndex(s, k)
  {
    if s != [] {
      var n := |s| - 1;
      IndexesCount(s[..n]);
      assert s[n].index !in Indexes(s[..n]);
      forall k | k in Indexes(s) ensures HasIndex(s, k) {
        if k == s[n].index {
        } else {
          var i :| 0 <= i < n && s[..n][i].index == k;
          assert s[i].index == k;
        }
      }
    }
  }

  lemma AtMostThree(s: seq<Seen>)
    requires DistinctIndexes(s) && forall i :: 0 <= i < |s| ==> 1 <= s[i].index <= 3
    ensures |s| <= 3
  {
    IndexesCount(s);
    SubsetSize(Indexes(s), {1, 2, 3});
  }

  lemma {:induction false} SubsetSize(a: set<int>, b: set<int>)
    requires a <= b
    ensures |a| <= |b|
  {
    assert b == a + (b - a);
  }

  /** The list names exactly the resources of the run. */
  ghost predicate Discovered(c: Cloud, prefix: string, baseDomain: string, list: seq<Allocation>) {
    && (forall t :: t in RunTunnels(c, prefix) ==> exists a :: a in list && a.id == Some(t) && IsResourceId(t))
    && (forall r :: r in RunRecords(c, prefix) ==> exists a :: a in list && a.dnsRecordId == Some(r) && IsResourceId(r))
    && (forall a :: a in list ==> RowSound(c, prefix, baseDomain, a))
  }

  ghost predicate RowSound(c: Cloud, prefix: string, baseDomain: string, a: Allocation) {
    && EntryFits(a, a.nodeIndex, prefix, baseDomain)
    && (a.id.Some? ==> a.id.value in RunTunnels(c, prefix) && a.id.value != "")
    && (a.dnsRecordId.Some? ==> a.dnsRecordId.value in RunRecords(c, prefix) && a.dnsRecordId.value != "")
  }

  /** list holds the rows of the table. */
  ghost predicate RowsOf(found: map<int, Allocation>, list: seq<Allocation>) {
    && (forall k :: k in found && 1 <= k <= 3 ==> found[k] in list)
    && (forall a :: a in list ==> a.nodeIndex in found && found[a.nodeIndex] == a)
  }

  lemma TunnelsDiscovered(c: Cloud, prefix: string, baseDomain: string, ts: seq<string>,
                          tunnels: seq<Seen>, records: seq<Seen>, found: map<int, Allocation>, list: seq<Allocation>)
    requires Lists(ts, RunTunnels(c, prefix)) && TunnelsSeen(c, prefix, ts, tunnels)
    requires Table(tunnels, records, prefix, baseDomain, found) && RowsOf(found, list)
    ensures forall t :: t in RunTunnels(c, prefix) ==> exists a :: a in list && a.id == Some(t) && IsResourceId(t)
    ensures forall a :: a in list && a.id.Some? ==> a.id.value in RunTunnels(c, prefix) && a.id.value != ""
  {
    forall t | t in RunTunnels(c, prefix) ensures exists a :: a in list && a.id == Some(t) && IsResourceId(t) {
      assert t in ts;
      var i :| 0 <= i < |ts| && ts[i] == t;
      assert found[tunnels[i].index] in list;
    }
    forall a | a in list && a.id.Some? ensures a.id.value in RunTunnels(c, prefix) && a.id.value != "" {
      assert HasIndex(tunnels, a.nodeIndex);
      var i :| 0 <= i < |tunnels| && tunnels[i].index == a.nodeIndex;
      assert ts[i] in RunTunnels(c, prefix);
    }
  }

  lemma RecordsDiscovered(c: Cloud, prefix: string, baseDomain: string, rs: seq<string>,
                          tunnels: seq<Seen>, records: seq<Seen>, found: map<int, Allocation>, list: seq<Allocation>)
    requires Lists(rs, RunRecords(c, prefix)) && RecordsSeen(c, prefix, baseDomain, rs, records)
    requires Table(tunnels, records, prefix, baseDomain, found) && RowsOf(found, list)
    ensures forall r :: r in RunRecords(c, prefix) ==>
              exists a :: a in list && a.dnsRecordId == Some(r) && IsResourceId(r)
    ensures forall a :: a in list && a.dnsRecordId.Some? ==>
              a.dnsRecordId.value in RunRecords(c, prefix) && a.dnsRecordId.value != ""
  {
    forall r | r in RunRecords(c, prefix) ensures exists a :: a in list && a.dnsRecordId == Some(r) && IsResourceId(r) {
      assert r in rs;
      var i :| 0 <= i < |rs| && rs[i] == r;
      assert found[records[i].index] in list;
    }
    forall a | a in list && a.dnsRecordId.Some?
      ensures a.dnsRecordId.value in RunRecords(c, prefix) && a.dnsRecordId.value != ""
    {
      assert HasIndex(records, a.nodeIndex);
      var i :| 0 <= i < |records| && records[i].index == a.nodeIndex;
      assert rs[i] in RunRecords(c, prefix);
    }
  }

  datatype DiscoverError = InvalidPrefix | LookupFailed | Unexpected

  ghost predicate TunnelsFit(c: Cloud, prefix: string, ts: seq<string>)
    requires forall i :: 0 <= i < |ts| ==> ts[i] in c.tunnels
  {
    forall i :: 0 <= i < |ts| ==> SeeTunnel(prefix, ts[i], c.tunnels[ts[i]]).Some?
  }

  ghost predicate RecordsFit(c: Cloud, prefix: string, baseDomain: string, rs: seq<string>)
    requires forall i :: 0 <= i < |rs| ==> rs[i] in c.records
  {
    forall i :: 0 <= i < |rs| ==> SeeRecord(prefix, baseDomain, rs[i], c.records[rs[i]]).Some?
  }

  lemma RunFitsLists(c: Cloud, prefix: string, baseDomain: string, ts: seq<string>, rs: seq<string>)
    requires Lists(ts, RunTunnels(c, prefix)) && Lists(rs, RunRecords(c, prefix))
    ensures forall i :: 0 <= i < |ts| ==> ts[i] in c.tunnels
    ensures forall i :: 0 <= i < |rs| ==> rs[i] in c.records
    ensures RunFits(c, prefix, baseDomain) ==> TunnelsFit(c, prefix, ts) && RecordsFit(c, prefix, baseDomain, rs)
  {}

  lemma SeenAreNodes(c: Cloud, prefix: string, baseDomain: string, ts: seq<string>, rs: seq<string>,
                     tunnels: seq<Seen>, records: seq<Seen>)
    requires TunnelsSeen(c, prefix, ts, tunnels) && RecordsSeen(c, prefix, baseDomain, rs, records)
    ensures AllNodes(tunnels, prefix) && AllNodes(records, prefix)
  {}

  method SeeTunnels(c: Cloud, prefix: string, ts: seq<string>) returns (seen: Option<seq<Seen>>)
    requires forall i :: 0 <= i < |ts| ==> ts[i] in c.tunnels
    ensures seen.Some? ==> TunnelsSeen(c, prefix, ts, seen.value)
    ensures seen.None? ==> !TunnelsFit(c, prefix, ts)
  {
    var s: seq<Seen> := [];
    for i := 0 to |ts|
      invariant TunnelsSeen(c, prefix, ts[..i], s)
    {
      var one := SeeTunnel(prefix, ts[i], c.tunnels[ts[i]]);
      if one.None? { return None; }
      s := s + [one.value];
    }
    assert ts[..|ts|] == ts;
    return Some(s);
  }

  method SeeRecords(c: Cloud, prefix: string, baseDomain: string, rs: seq<string>) returns (seen: Option<seq<Seen>>)
    requires forall i :: 0 <= i < |rs| ==> rs[i] in c.records
    ensures seen.Some? ==> RecordsSeen(c, prefix, baseDomain, rs, seen.value)
    ensures seen.None? ==> !RecordsFit(c, prefix, baseDomain, rs)
  {
    var s: seq<Seen> := [];
    for i := 0 to |rs|
      invariant RecordsSeen(c, prefix, baseDomain, rs[..i], s)
    {
      var one := SeeRecord(prefix, baseDomain, rs[i], c.records[rs[i]]);
      if one.None? { return None; }
      s := s + [one.value];
    }
    assert rs[..|rs|] == rs;
    return Some(s);
  }

  method Rows(found: map<int, Allocation>) returns (list: seq<Allocation>)
    requires forall k :: k in found ==> found[k].nodeIndex == k
    ensures RowsOf(found, list)
  {
    list := [];
    for k := 1 to 4
      invariant forall j :: j in found && 1 <= j < k ==> found[j] in list
      invariant forall a :: a in list ==> a.nodeIndex in found && found[a.nodeIndex] == a
    {
      if k in found {
        list := list + [found[k]];
      }
    }
  }

  /** The table built from what was seen, as a list of rows. */
  method Gather(tunnels: seq<Seen>, records: seq<Seen>, prefix: string, baseDomain: string)
    returns (ok: bool, found: map<int, Allocation>, list: seq<Allocation>)
    requires AllNodes(tunnels, prefix) && AllNodes(records, prefix)
    ensures ok <==> DistinctIndexes(tunnels) && DistinctIndexes(records) && Agree(tunnels, records)
    ensures ok ==> Table(tunnels, records, prefix, baseDomain, found) && RowsOf(found, list)
  {
    list := [];
    ok, found := GatherTunnels(tunnels, prefix, baseDomain);
    if ok {
      ok, found := GatherRecords(tunnels, records, prefix, baseDomain, found);
      if ok {
        list := Rows(found);
      }
    }
  }

  /** discover_run_allocations on the two listings. */
  method DiscoverIn(c: Cloud, prefix: string, baseDomain: string, ts: seq<string>, rs: seq<string>)
    returns (r: Option<seq<Allocation>>)
    requires Lists(ts, RunTunnels(c, prefix)) && Lists(rs, RunRecords(c, prefix))
    ensures r.Some? ==> Discovered(c, prefix, baseDomain, r.value)
    ensures r.Some? <==> RunFits(c, prefix, baseDomain)
  {
    RunFitsLists(c, prefix, baseDomain, ts, rs);
    var tunnels := SeeTunnels(c, prefix, ts);
    var records := SeeRecords(c, prefix, baseDomain, rs);
    if tunnels.None? || records.None? {
      return None;
    }
    SeenFits(c, prefix, baseDomain, ts, rs, tunnels.value, records.value);
    SeenAreNodes(c, prefix, baseDomain, ts, rs, tunnels.value, records.value);
    if |ts| > 3 || |rs| > 3 {
      return None;
    }
    var ok, found, list := Gather(tunnels.value, records.value, prefix, baseDomain);
    if !ok { return None; }
    FitsSeen(c, prefix, baseDomain, ts, rs, tunnels.value, records.value);
    TunnelsDiscovered(c, prefix, baseDomain, ts, tunnels.value, records.value, found, list);
    RecordsDiscovered(c, prefix, baseDomain, rs, tunnels.value, records.value, found, list);
    return Some(list);
  }

  /** discover_run_allocations. */
  method Discover(w: World, prefix: string) returns (r: Result<seq<Allocation>, DiscoverError>)
    ensures r.Ok? ==> IsRunPrefix(prefix) && Discovered(w.cloud, prefix, w.baseDomain, r.value)
    ensures r.Ok? && r.value == [] ==> RunTunnels(w.cloud, prefix) == {} && RunRecords(w.cloud, prefix) == {}
    ensures r.Ok? ==> RunFits(w.cloud, prefix, w.baseDomain)
    ensures w.reliable && IsRunPrefix(prefix) && RunFits(w.cloud, prefix, w.baseDomain) ==> r.Ok?
  {
    if !IsRunPrefix(prefix) { return Err(InvalidPrefix); }
    var fails: bool := *;
    if fails && !w.reliable { return Err(LookupFailed); }
    var ts := w.Listing(RunTunnels(w.cloud, prefix));
    var rs := w.Listing(RunRecords(w.cloud, prefix));
    var list := DiscoverIn(w.cloud, prefix, w.baseDomain, ts, rs);
    return if list.None? then Err(Unexpected) else Ok(list.value);
  }

  // ---------- cleanup_run_prefix ----------

  /** c came from c0 by removals inside the namespace of the run alone. */
  ghost predicate OnlyRunRemoved(prefix: string, c0: Cloud, c: Cloud) {
    && Submap(c.tunnels, c0.tunnels) && Submap(c.records, c0.records)
    && (forall t :: t in c0.tunnels && t !in c.tunnels ==> t in RunTunnels(c0, prefix))
    && (forall r :: r in c0.records && r !in c.records ==> r in RunRecords(c0, prefix))
  }

  lemma LowerStarts(s: string, p: string)
    requires StartsWith(s, p) && Lower(p) == p
    ensures StartsWith(Lower(s), p)
  {
    assert Lower(s)[..|p|] == p by {
      forall i | 0 <= i < |p| ensures Lower(s)[i] == p[i] {
        assert s[i] == s[..|p|][i];
      }
    }
  }

  lemma RunPrefixLower(prefix: string)
    requires IsRunPrefix(prefix)
    ensures Lower(prefix + "-") == prefix + "-"
  {
    var run, attempt := RunParts(prefix);
    var s := prefix + "-";
    forall i | 0 <= i < |s| ensures LowerChar(s[i]) == s[i] {
      if |RUN_HEAD| <= i < |RUN_HEAD| + |run| {
        assert s[i] == run[i - |RUN_HEAD|];
      } else if |RUN_HEAD| + |run| < i < |prefix| {
        assert s[i] == attempt[i - |RUN_HEAD| - |run| - 1];
      }
    }
  }

  /** A tunnel or record that a discovered row names lies inside the namespace. */
  lemma RowNamesRunTunnel(prefix: string, baseDomain: string, a: Allocation, c: Cloud, t: string)
    requires RowSound(c, prefix, baseDomain, a) && t in c.tunnels && NamesTunnel(a, t, c.tunnels[t])
    ensures t in RunTunnels(c, prefix)
  {
    MatchStarts(prefix, a.name.value);
  }

  lemma RowNamesRunRecord(prefix: string, baseDomain: string, a: Allocation, c: Cloud, r: string)
    requires IsRunPrefix(prefix)
    requires RowSound(c, prefix, baseDomain, a) && r in c.records && NamesRecord(a, r, c.records[r])
    ensures r in RunRecords(c, prefix)
  {
    RunPrefixLower(prefix);
    MatchStarts(prefix, a.name.value);
    assert a.hostname.value[..|prefix| + 1] == a.name.value[..|prefix| + 1];
    LowerStarts(a.hostname.value, prefix + "-");
  }

  /** A removal driven by a discovered list stays inside the namespace. */
  lemma DiscoveredRemoves(prefix: string, baseDomain: string, list: seq<Allocation>, c0: Cloud, c: Cloud)
    requires IsRunPrefix(prefix) && Discovered(c0, prefix, baseDomain, list) && Shrinks(list, c0, c)
    ensures OnlyRunRemoved(prefix, c0, c)
  {
    forall t | t in c0.tunnels && t !in c.tunnels ensures t in RunTunnels(c0, prefix) {
      var a :| a in list && NamesTunnel(a, t, c0.tunnels[t]);
      RowNamesRunTunnel(prefix, baseDomain, a, c0, t);
    }
    forall r | r in c0.records && r !in c.records ensures r in RunRecords(c0, prefix) {
      var a :| a in list && NamesRecord(a, r, c0.records[r]);
      RowNamesRunRecord(prefix, baseDomain, a, c0, r);
    }
  }

  /** Once nothing the list names is left, nothing of the run is left. */
  lemma DiscoveredCleans(prefix: string, baseDomain: string, list: seq<Allocation>, c0: Cloud, c: Cloud)
    requires Discovered(c0, prefix, baseDomain, list) && Shrinks(list, c0, c) && Clean(list, c)
    ensures RunTunnels(c, prefix) == {} && RunRecords(c, prefix) == {}
  {
    forall t | t in RunTunnels(c0, prefix) ensures t !in c.tunnels {
      var a :| a in list && a.id == Some(t) && IsResourceId(t);
    }
    forall r | r in RunRecords(c0, prefix) ensures r !in c.records {
      var a :| a in list && a.dnsRecordId == Some(r) && IsResourceId(r);
    }
  }

  /** cleanup_run_prefix: discover, clean up, and insist that a second discovery is empty. */
  method CleanupRunPrefix(w: World, prefix: string, retries: nat) returns (v: Verdict)
    modifies w`cloud
    ensures OnlyRunRemoved(prefix, old(w.cloud), w.cloud) && !v.BadState?
    ensures v.Cleaned? ==> IsRunPrefix(prefix) && RunTunnels(w.cloud, prefix) == {} && RunRecords(w.cloud, prefix) == {}
    ensures w.reliable && retries > 0 && IsRunPrefix(prefix) && RunFits(old(w.cloud), prefix, w.baseDomain) ==> v.Cleaned?
  {
    var found := Discover(w, prefix);
    if found.Err? { return Incomplete; }
    var failures, crashed := w.CleanupAllocations(found.value, retries);
    DiscoveredRemoves(prefix, w.baseDomain, found.value, old(w.cloud), w.cloud);
    if crashed { return Killed; }
    if failures != [] { return Incomplete; }
    DiscoveredCleans(prefix, w.baseDomain, found.value, old(w.cloud), w.cloud);
    var again := Discover(w, prefix);
    if again.Err? || again.value != [] {
      NothingDiscovered(w.cloud, prefix, w.baseDomain);
      return Incomplete;
    }
    return Cleaned(|found.value|);
  }

  /** The cleanup command with --expected-run-prefix: the saved list is checked but its ids never
      drive a deletion, and the state file goes only with the last resource of the run. */
  method RunCleanupCommand(w: World, prefix: string) returns (v: Verdict)
    modifies w`cloud, w`disk
    ensures OnlyRunRemoved(prefix, old(w.cloud), w.cloud)
    ensures v.BadState? <==> !(old(w.disk).Dir? && old(w.disk).state.Some?
                              && LoadOk(old(w.disk).state.value, w.baseDomain, Some(prefix)))
    ensures v.BadState? ==> w.cloud == old(w.cloud) && w.disk == old(w.disk)
    ensures w.disk.Absent? <==> old(w.disk).Absent?
    ensures w.disk.Dir? && w.disk.state != old(w.disk).state ==>
              w.disk.state.None? && RunTunnels(w.cloud, prefix) == {} && RunRecords(w.cloud, prefix) == {}
    ensures v.Cleaned? ==> w.disk.state.None?
    ensures w.reliable && !v.BadState? && RunFits(old(w.cloud), prefix, w.baseDomain) ==> v.Cleaned?
  {
    if !w.disk.Dir? || w.disk.state.None? || !LoadOk(w.disk.state.value, w.baseDomain, Some(prefix)) {
      return BadState;
    }
    var list := w.disk.state.value;
    v := CleanupRunPrefix(w, prefix, 4);
    if !v.Cleaned? {
      return;
    }
    w.disk := w.disk.(tokens := w.disk.tokens - set k | 0 <= k < |list| && Truthy(list[k].tokenFile) :: list[k].tokenFile.value);
    if !w.reliable {
      if * { return Killed; }
    }
    w.disk := w.disk.(state := None);
  }

  lemma SomeElement<T>(s: seq<T>)
    ensures s == [] || exists x :: x in s
  {
    assert s == [] || s[0] in s;
  }

  lemma NothingDiscovered(c: Cloud, prefix: string, baseDomain: string)
    requires RunTunnels(c, prefix) == {} && RunRecords(c, prefix) == {}
    ensures RunFits(c, prefix, baseDomain)
    ensures forall list :: Discovered(c, prefix, baseDomain, list) ==> list == []
  {
    forall list | Discovered(c, prefix, baseDomain, list) ensures list == [] {
      SomeElement(list);
    }
  }

  /** Another run or another attempt is not touched. */
  lemma RunsIsolated(prefix: string, other: string, c0: Cloud, c: Cloud)
    requires IsRunPrefix(prefix) && IsRunPrefix(other) && prefix != other
    requires OnlyRunRemoved(prefix, c0, c)
    ensures RunTunnels(c, other) == RunTunnels(c0, other) && RunRecords(c, other) == RunRecords(c0, other)
    ensures forall t :: t in RunTunnels(c0, other) ==> c.tunnels[t] == c0.tunnels[t]
    ensures forall r :: r in RunRecords(c0, other) ==> c.records[r] == c0.records[r]
  {
    forall t | t in RunTunnels(c0, other) ensures t in c.tunnels {
      if t in RunTunnels(c0, prefix) {
        RunNamespacesDisjoint(prefix, other, c0.tunnels[t].name);
      }
    }
    forall r | r in RunRecords(c0, other) ensures r in c.records {
      if r in RunRecords(c0, prefix) {
        RunNamespacesDisjoint(prefix, other, Lower(c0.records[r].hostname));
      }
    }
  }

  // ---------- discovery succeeds after allocate ----------

  /** A run as the release workflow makes it: run prefix, at most three nodes, suffixes from
      token_hex(4), a lower-case base domain. */
  ghost predicate ReleaseRun(history: seq<Allocation>, prefix: string, suffix: nat -> string, baseDomain: string) {
    && NodesOk(history) && AllocatedAs(history, prefix, suffix, baseDomain)
    && |history| <= 3 && IsRunPrefix(prefix) && Lower(baseDomain) == baseDomain
    && forall k :: 1 <= k <= 3 ==> IsHexSuffix(suffix(k))
  }

  lemma LowerConcat(a: string, b: string)
    requires Lower(a) == a && Lower(b) == b
    ensures Lower(a + b) == a + b
  {
    forall i | 0 <= i < |a + b| ensures Lower(a + b)[i] == (a + b)[i] {
      if i < |a| { assert (a + b)[i] == a[i]; } else { assert (a + b)[i] == b[i - |a|]; }
    }
  }

  lemma NodeNameLower(prefix: string, k: nat, suffix: string)
    requires IsRunPrefix(prefix) && IsHexSuffix(suffix)
    ensures Lower(NodeName(prefix, k, suffix)) == NodeName(prefix, k, suffix)
  {
    RunPrefixLower(prefix);
    LowerConcat(prefix + "-", Decimal(k));
    LowerConcat(prefix + "-" + Decimal(k), "-");
    LowerConcat(prefix + "-" + Decimal(k) + "-", suffix);
  }

  lemma LeftoverTunnel(c0: Cloud, history: seq<Allocation>, prefix: string, suffix: nat -> string,
                       baseDomain: string, c: Cloud, t: string) returns (k: int)
    requires ReleaseRun(history, prefix, suffix, baseDomain) && Within(c0, history, c)
    requires RunTunnels(c0, prefix) == {} && t in RunTunnels(c, prefix)
    ensures 0 <= k < |history| && history[k].id == Some(t)
    ensures SeeTunnel(prefix, t, c.tunnels[t]) == Some(Seen(t, history[k].name.value, k + 1, t))
  {
    k := TunnelOrigin(c0, history, t);
    assert t !in RunTunnels(c0, prefix);
    NodeNameMatches(prefix, k + 1, suffix(k + 1));
  }

  lemma LeftoverRecord(c0: Cloud, history: seq<Allocation>, prefix: string, suffix: nat -> string,
                       baseDomain: string, c: Cloud, r: string) returns (k: int)
    requires ReleaseRun(history, prefix, suffix, baseDomain) && Within(c0, history, c)
    requires RunRecords(c0, prefix) == {} && r in RunRecords(c, prefix)
    ensures 0 <= k < |history| && history[k].dnsRecordId == Some(r) && history[k].id.Some?
    ensures SeeRecord(prefix, baseDomain, r, c.records[r])
            == Some(Seen(r, history[k].name.value, k + 1, history[k].id.value))
  {
    k := RecordOrigin(c0, history, r);
    assert r !in RunRecords(c0, prefix);
    assert MadeRecord(history, k, r, c.records[r]);
    var name, host := history[k].name.value, history[k].hostname.value;
    NodeNameMatches(prefix, k + 1, suffix(k + 1));
    NodeNameLower(prefix, k + 1, suffix(k + 1));
    LowerConcat(name, ".");
    LowerConcat(name + ".", baseDomain);
    RecordSeen(prefix, baseDomain, r, c.records[r], name, history[k].id.value);
  }

  lemma RecordSeen(prefix: string, baseDomain: string, r: string, rec: Record, name: string, id: string)
    requires NodeMatch(prefix, name) && Lower(rec.hostname) == name + "." + baseDomain
    requires rec.content == Content(id) && IsResourceId(id) && IsResourceId(r)
    ensures SeeRecord(prefix, baseDomain, r, rec) == Some(Seen(r, name, NodeIndex(prefix, name), id))
  {
    var host := name + "." + baseDomain;
    assert host[..|prefix| + 11] == name;
    assert host[|prefix| + 11..] == "." + baseDomain;
    assert rec.content[..|id|] == id && rec.content[|id|..] == CONTENT_SUFFIX;
  }

  /** The leftovers are seen one by one, each under its own index. */
  lemma LeftoverTunnelsFit(c0: Cloud, history: seq<Allocation>, prefix: string, suffix: nat -> string,
                           baseDomain: string, c: Cloud, t: string, u: string)
    requires ReleaseRun(history, prefix, suffix, baseDomain) && Within(c0, history, c)
    requires RunTunnels(c0, prefix) == {} && t in RunTunnels(c, prefix) && u in RunTunnels(c, prefix)
    ensures SeeTunnel(prefix, t, c.tunnels[t]).Some? && SeeTunnel(prefix, u, c.tunnels[u]).Some?
    ensures t != u ==>
      SeeTunnel(prefix, t, c.tunnels[t]).value.index != SeeTunnel(prefix, u, c.tunnels[u]).value.index
  {
    var j := LeftoverTunnel(c0, history, prefix, suffix, baseDomain, c, t);
    var k := LeftoverTunnel(c0, history, prefix, suffix, baseDomain, c, u);
  }

  lemma LeftoverRecordsFit(c0: Cloud, history: seq<Allocation>, prefix: string, suffix: nat -> string,
                           baseDomain: string, c: Cloud, r: string, q: string)
    requires ReleaseRun(history, prefix, suffix, baseDomain) && Within(c0, history, c)
    requires RunRecords(c0, prefix) == {} && r in RunRecords(c, prefix) && q in RunRecords(c, prefix)
    ensures SeeRecord(prefix, baseDomain, r, c.records[r]).Some? && SeeRecord(prefix, baseDomain, q, c.records[q]).Some?
    ensures r != q ==> SeeRecord(prefix, baseDomain, r, c.records[r]).value.index
                       != SeeRecord(prefix, baseDomain, q, c.records[q]).value.index
  {
    var j := LeftoverRecord(c0, history, prefix, suffix, baseDomain, c, r);
    var k := LeftoverRecord(c0, history, prefix, suffix, baseDomain, c, q);
  }

  lemma LeftoverPairFits(c0: Cloud, history: seq<Allocation>, prefix: string, suffix: nat -> string,
                         baseDomain: string, c: Cloud, t: string, r: string)
    requires ReleaseRun(history, prefix, suffix, baseDomain) && Within(c0, history, c)
    requires RunTunnels(c0, prefix) == {} && t in RunTunnels(c, prefix)
    requires RunRecords(c0, prefix) == {} && r in RunRecords(c, prefix)
    ensures SeeTunnel(prefix, t, c.tunnels[t]).Some? && SeeRecord(prefix, baseDomain, r, c.records[r]).Some?
    ensures PairFits(SeeTunnel(prefix, t, c.tunnels[t]).value, SeeRecord(prefix, baseDomain, r, c.records[r]).value)
  {
    var j := LeftoverTunnel(c0, history, prefix, suffix, baseDomain, c, t);
    var k := LeftoverRecord(c0, history, prefix, suffix, baseDomain, c, r);
    SeenPairFits(history[j], j, history[k], k, t, r);
  }

  lemma SeenPairFits(a: Allocation, j: nat, b: Allocation, k: nat, t: string, r: string)
    requires a.id == Some(t) && a.name.Some? && b.id.Some? && b.name.Some? && (j == k ==> a == b)
    ensures PairFits(Seen(t, a.name.value, j + 1, t), Seen(r, b.name.value, k + 1, b.id.value))
  {}

  /** Whatever allocate left and whatever cleanups removed, discovery succeeds. */
  lemma LeftoversFit(c0: Cloud, history: seq<Allocation>, prefix: string, suffix: nat -> string,
                     baseDomain: string, c: Cloud)
    requires ReleaseRun(history, prefix, suffix, baseDomain) && Within(c0, history, c)
    requires RunTunnels(c0, prefix) == {} && RunRecords(c0, prefix) == {}
    ensures RunFits(c, prefix, baseDomain)
  {
    forall t, u | t in RunTunnels(c, prefix) && u in RunTunnels(c, prefix)
      ensures SeeTunnel(prefix, t, c.tunnels[t]).Some? && SeeTunnel(prefix, u, c.tunnels[u]).Some?
      ensures t != u ==>
        SeeTunnel(prefix, t, c.tunnels[t]).value.index != SeeTunnel(prefix, u, c.tunnels[u]).value.index
    {
      LeftoverTunnelsFit(c0, history, prefix, suffix, baseDomain, c, t, u);
    }
    forall r, q | r in RunRecords(c, prefix) && q in RunRecords(c, prefix)
      ensures SeeRecord(prefix, baseDomain, r, c.records[r]).Some? && SeeRecord(prefix, baseDomain, q, c.records[q]).Some?
      ensures r != q ==> SeeRecord(prefix, baseDomain, r, c.records[r]).value.index
                         != SeeRecord(prefix, baseDomain, q, c.records[q]).value.index
    {
      LeftoverRecordsFit(c0, history, prefix, suffix, baseDomain, c, r, q);
    }
    forall t, r | t in RunTunnels(c, prefix) && r in RunRecords(c, prefix)
      ensures PairFits(SeeTunnel(prefix, t, c.tunnels[t]).value, SeeRecord(prefix, baseDomain, r, c.records[r]).value)
    {
      LeftoverPairFits(c0, history, prefix, suffix, baseDomain, c, t, r);
    }
  }

  /** Everything a release run made lies inside its namespace. */
  lemma MadeInNamespace(c0: Cloud, history: seq<Allocation>, prefix: string, suffix: nat -> string,
                        baseDomain: string, c: Cloud)
    requires ReleaseRun(history, prefix, suffix, baseDomain) && Within(c0, history, c)
    requires RunTunnels(c, prefix) == {} && RunRecords(c, prefix) == {}
    ensures Submap(c.tunnels, c0.tunnels) && Submap(c.records, c0.records)
  {
    forall t | t in c.tunnels ensures t in c0.tunnels && c0.tunnels[t] == c.tunnels[t] {
      var k := TunnelOrigin(c0, history, t);
      assert t !in RunTunnels(c, prefix);
      if MadeTunnel(history, k, t, c.tunnels[t]) {
        NodeNameMatches(prefix, k + 1, suffix(k + 1));
      }
    }
    forall r | r in c.records ensures r in c0.records && c0.records[r] == c.records[r] {
      var k := RecordOrigin(c0, history, r);
      assert r !in RunRecords(c, prefix);
      if MadeRecord(history, k, r, c.records[r]) {
        var name, host := history[k].name.value, history[k].hostname.value;
        NodeNameMatches(prefix, k + 1, suffix(k + 1));
        assert host[..|prefix| + 1] == name[..|prefix| + 1];
        RunPrefixLower(prefix);
        LowerStarts(host, prefix + "-");
      }
    }
  }

  /** Removals inside the namespace leave less of what the run made and all of the rest. */
  lemma RunRemovedKeeps(prefix: string, c0: Cloud, history: seq<Allocation>, c1: Cloud, c2: Cloud)
    requires NodesOk(history) && Within(c0, history, c1) && Intact(c0, c1) && OnlyRunRemoved(prefix, c1, c2)
    requires RunTunnels(c0, prefix) == {} && RunRecords(c0, prefix) == {}
    ensures Within(c0, history, c2) && Intact(c0, c2)
  {
    forall t | t in c0.tunnels ensures t in c2.tunnels && c2.tunnels[t] == c0.tunnels[t] {
      assert t !in RunTunnels(c0, prefix);
    }
    forall r | r in c0.records ensures r in c2.records && c2.records[r] == c0.records[r] {
      assert r !in RunRecords(c0, prefix);
    }
  }

  /** Any number of disturbed cleanups by prefix. */
  method DisturbedCleanups(w: World, ghost c0: Cloud, prefix: string, attempts: nat)
    requires NodesOk(w.history) && Within(c0, w.history, w.cloud) && Intact(c0, w.cloud)
    requires RunTunnels(c0, prefix) == {} && RunRecords(c0, prefix) == {}
    modifies w`cloud, w`reliable
    ensures Within(c0, w.history, w.cloud) && Intact(c0, w.cloud)
  {
    w.reliable := false;
    for i := 0 to attempts
      invariant Within(c0, w.history, w.cloud) && Intact(c0, w.cloud)
    {
      ghost var c1 := w.cloud;
      var v := CleanupRunPrefix(w, prefix, 4);
      RunRemovedKeeps(prefix, c0, w.history, c1, w.cloud);
    }
  }

  /** A release run, killed or not, any number of disturbed cleanups by prefix, then one
      undisturbed cleanup by prefix, all without the saved state: the account is back to what
      it was. */
  method AllocateThenRecoverByPrefix(w: World, count: int, prefix: string, suffix: nat -> string, attempts: nat)
    requires CloudOk(w.cloud) && w.disk.Absent? && w.history == [] && count <= 3
    requires IsRunPrefix(prefix) && Lower(w.baseDomain) == w.baseDomain
    requires forall k :: 1 <= k <= 3 ==> IsHexSuffix(suffix(k))
    requires RunTunnels(w.cloud, prefix) == {} && RunRecords(w.cloud, prefix) == {}
    modifies w
    ensures w.cloud.tunnels == old(w.cloud).tunnels && w.cloud.records == old(w.cloud).records
  {
    ghost var c0 := w.cloud;
    var outcome := w.Allocate(count, prefix, suffix);
    FreshByNamespace(c0, w.history, prefix, suffix, w.baseDomain);
    DisturbedCleanups(w, c0, prefix, attempts);
    w.reliable := true;
    LeftoversFit(c0, w.history, prefix, suffix, w.baseDomain, w.cloud);
    ghost var c1 := w.cloud;
    var v := CleanupRunPrefix(w, prefix, 4);
    RunRemovedKeeps(prefix, c0, w.history, c1, w.cloud);
    MadeInNamespace(c0, w.history, prefix, suffix, w.baseDomain, w.cloud);
  }

  lemma FreshByNamespace(c0: Cloud, history: seq<Allocation>, prefix: string, suffix: nat -> string, baseDomain: string)
    requires AllocatedAs(history, prefix, suffix, baseDomain) && RunTunnels(c0, prefix) == {}
    ensures NamesFresh(history, c0)
  {
    forall a, t | a in history && Truthy(a.name) && t in c0.tunnels ensures c0.tunnels[t].name != a.name.value {
      var k :| 0 <= k < |history| && history[k] == a;
      assert t !in RunTunnels(c0, prefix);
      assert NodeName(prefix, k + 1, suffix(k + 1))[..|prefix| + 1] == prefix + "-";
    }
  }
}
