/** Why the state on disk names every remote resource at every point of allocate.

    The history of a run is a list of allocation records holding the ids the service
    really issued, including ids whose replies were lost.  The account is what the history
    built on top of the starting account, and the lists in memory and on disk are views of
    the history that may lag behind it in the ways the order of the steps allows. */
module TunnelProtocol {
  import opened Common
  import opened TunnelModel
  import opened TunnelNames

  function AddTunnel(c: Cloud, t: string, name: string): Cloud {
    c.(tunnels := c.tunnels[t := Tunnel(name, Some("local"))], tunnelIds := c.tunnelIds + {t})
  }

  function AddRecord(c: Cloud, r: string, hostname: string, t: string): Cloud {
    c.(records := c.records[r := Record(hostname, Content(t))], recordIds := c.recordIds + {r})
  }

  predicate TokenOk(a: Allocation) {
    a.tokenFile.Some? ==> a.nodeIndex >= 0 && a.tokenFile.value == TokenName(a.nodeIndex)
  }

  /** A history element: ids are optional, and a DNS record exists only for a tunnel. */
  predicate NodeOk(a: Allocation) {
    && Truthy(a.name) && Truthy(a.hostname)
    && (a.id.Some? ==> IsResourceId(a.id.value))
    && (a.dnsRecordId.Some? ==> IsResourceId(a.dnsRecordId.value) && a.id.Some?)
    && TokenOk(a)
  }

  ghost predicate NodesOk(history: seq<Allocation>) {
    forall k :: 0 <= k < |history| ==> NodeOk(history[k])
  }

  function Build(c: Cloud, a: Allocation): Cloud
    requires NodeOk(a)
  {
    var c1 := if a.id.Some? then AddTunnel(c, a.id.value, a.name.value) else c;
    if a.dnsRecordId.Some? then AddRecord(c1, a.dnsRecordId.value, a.hostname.value, a.id.value) else c1
  }

  /** The account after the history has run on c0. */
  ghost function Built(c0: Cloud, history: seq<Allocation>): Cloud
    requires NodesOk(history)
  {
    if history == [] then c0
    else Build(Built(c0, history[..|history| - 1]), history[|history| - 1])
  }

  lemma BuiltAppend(c0: Cloud, history: seq<Allocation>, a: Allocation)
    requires NodesOk(history) && NodeOk(a)
    ensures NodesOk(history + [a]) && Built(c0, history + [a]) == Build(Built(c0, history), a)
  {
    assert (history + [a])[..|history|] == history;
  }

  lemma {:induction false} BuiltGrows(c0: Cloud, history: seq<Allocation>)
    requires NodesOk(history)
    ensures c0.tunnelIds <= Built(c0, history).tunnelIds && c0.recordIds <= Built(c0, history).recordIds
  {
    if history != [] {
      BuiltGrows(c0, history[..|history| - 1]);
    }
  }

  ghost predicate MadeTunnel(history: seq<Allocation>, k: int, t: string, tun: Tunnel)
    requires NodesOk(history)
  {
    0 <= k < |history| && history[k].id == Some(t) && tun == Tunnel(history[k].name.value, Some("local"))
  }

  ghost predicate MadeRecord(history: seq<Allocation>, k: int, r: string, rec: Record)
    requires NodesOk(history)
  {
    0 <= k < |history| && history[k].dnsRecordId == Some(r)
    && rec == Record(history[k].hostname.value, Content(history[k].id.value))
  }

  /** Every tunnel in the account is an old one or belongs to one node of the history. */
  lemma {:induction false} TunnelOrigin(c0: Cloud, history: seq<Allocation>, t: string) returns (k: int)
    requires NodesOk(history) && t in Built(c0, history).tunnels
    ensures MadeTunnel(history, k, t, Built(c0, history).tunnels[t])
            || (t in c0.tunnels && Built(c0, history).tunnels[t] == c0.tunnels[t])
  {
    k := |history| - 1;
    if history != [] && history[k].id != Some(t) {
      k := TunnelOrigin(c0, history[..k], t);
    }
  }

  lemma {:induction false} RecordOrigin(c0: Cloud, history: seq<Allocation>, r: string) returns (k: int)
    requires NodesOk(history) && r in Built(c0, history).records
    ensures MadeRecord(history, k, r, Built(c0, history).records[r])
            || (r in c0.records && Built(c0, history).records[r] == c0.records[r])
  {
    k := |history| - 1;
    if history != [] && history[k].dnsRecordId != Some(r) {
      k := RecordOrigin(c0, history[..k], r);
    }
  }

  lemma {:induction false} BuiltIntact(c0: Cloud, history: seq<Allocation>)
    requires NodesOk(history) && CloudOk(c0) && IdsIssuedAfter(history, c0)
    ensures Intact(c0, Built(c0, history))
  {
    if history != [] {
      var rest, a := history[..|history| - 1], history[|history| - 1];
      assert a in history && forall b :: b in rest ==> b in history;
      BuiltIntact(c0, rest);
    }
  }

  // ---------- views of the history ----------

  /** a may lack an id the history has: the tunnel id only while no record was made. */
  predicate ViewOf(a: Allocation, h: Allocation) {
    && a.name == h.name && a.hostname == h.hostname && a.nodeIndex == h.nodeIndex
    && (a.id == h.id || (a.id.None? && h.dnsRecordId.None?))
    && (a.dnsRecordId == h.dnsRecordId || a.dnsRecordId.None?)
    && TokenOk(a)
  }

  /** list may also lack nodes for which nothing was made. */
  ghost predicate View(list: seq<Allocation>, history: seq<Allocation>) {
    && |list| <= |history|
    && (forall k :: 0 <= k < |list| ==> ViewOf(list[k], history[k]))
    && (forall k :: |list| <= k < |history| ==> history[k].id.None? && history[k].dnsRecordId.None?)
  }

  /** A view names everything the history made. */
  lemma ViewTracks(c0: Cloud, history: seq<Allocation>, list: seq<Allocation>)
    requires NodesOk(history) && View(list, history)
    ensures Tracked(list, c0, Built(c0, history))
  {
    var c := Built(c0, history);
    forall t | t in c.tunnels
      ensures (t in c0.tunnels && c0.tunnels[t] == c.tunnels[t]) || TunnelNamed(list, t, c.tunnels[t])
    {
      var k := TunnelOrigin(c0, history, t);
      if MadeTunnel(history, k, t, c.tunnels[t]) {
        assert list[k] in list && NamesTunnel(list[k], t, c.tunnels[t]);
      }
    }
    forall r | r in c.records
      ensures (r in c0.records && c0.records[r] == c.records[r]) || RecordNamed(list, r, c.records[r])
    {
      var k := RecordOrigin(c0, history, r);
      if MadeRecord(history, k, r, c.records[r]) {
        assert list[k] in list && NamesRecord(list[k], r, c.records[r]);
      }
    }
  }

  lemma ViewIssued(history: seq<Allocation>, list: seq<Allocation>, c0: Cloud)
    requires View(list, history) && IdsIssuedAfter(history, c0)
    ensures IdsIssuedAfter(list, c0)
  {
    forall a | a in list
      ensures (Truthy(a.id) ==> a.id.value !in c0.tunnelIds)
              && (Truthy(a.dnsRecordId) ==> a.dnsRecordId.value !in c0.recordIds)
    {
      var k :| 0 <= k < |list| && list[k] == a;
      assert history[k] in history;
    }
  }

  // ---------- after removals ----------

  /** c holds at most what the history built on c0. */
  ghost predicate Within(c0: Cloud, history: seq<Allocation>, c: Cloud)
    requires NodesOk(history)
  {
    Submap(c.records, Built(c0, history).records) && Submap(c.tunnels, Built(c0, history).tunnels)
  }

  /** Whatever cleanups have removed, a view still names every leftover. */
  lemma LeftoversTracked(c0: Cloud, history: seq<Allocation>, list: seq<Allocation>, c: Cloud)
    requires NodesOk(history) && View(list, history) && Within(c0, history, c)
    ensures Tracked(list, c0, c)
  {
    ViewTracks(c0, history, list);
  }

  /** A cleanup by any view of the history removes nothing that was there before, except tunnels
      that carry one of the names. */
  lemma ViewSparesOthers(c0: Cloud, history: seq<Allocation>, list: seq<Allocation>, c1: Cloud, c2: Cloud)
    requires CloudOk(c0) && View(list, history) && IdsIssuedAfter(history, c0)
    requires IntactBut(history, c0, c1) && Shrinks(list, c1, c2)
    ensures IntactBut(history, c0, c2)
  {
    ViewIssued(history, list, c0);
    forall a | a in list && a.name.Some? ensures NameUsed(history, a.name.value) {
      var k :| 0 <= k < |list| && list[k] == a;
      assert history[k] in history && history[k].name == a.name;
    }
    ShrinkSparesForeign(list, history, c0, c1, c2);
  }
}
