/** Recovery from the state file: load_state and the cleanup command of
    scripts/cloudflare_ephemeral_tunnels.py. */
module TunnelRecovery {
  import opened Common
  import opened TunnelModel
  import opened TunnelNames
  import opened TunnelProtocol
  import opened TunnelWorld

  // ---------- load_state ----------

  predicate EndsWith(s: string, e: string) { |e| <= |s| && s[|s| - |e|..] == e }

  /** The checks load_state makes on one tunnel record. */
  predicate EntryOk(a: Allocation, baseDomain: string, expected: Option<string>) {
    && (a.id.Some? ==> IsResourceId(a.id.value))
    && (a.name.Some? ==> IsName(a.name.value))
    && (a.id.Some? || a.name.Some?)
    && 1 <= a.nodeIndex <= 10
    && a.hostname.Some? && EndsWith(a.hostname.value, "." + baseDomain)
    && (a.name.Some? ==> a.hostname.value == a.name.value + "." + baseDomain)
    && (expected.Some? ==>
          a.name.Some? && NodeMatch(expected.value, a.name.value)
          && NodeIndex(expected.value, a.name.value) == a.nodeIndex)
    && (a.dnsRecordId.Some? ==> IsResourceId(a.dnsRecordId.value))
    && (a.tokenFile.Some? ==> a.tokenFile.value == TokenName(a.nodeIndex))
  }

  /** load_state accepts the list. */
  predicate LoadOk(list: seq<Allocation>, baseDomain: string, expected: Option<string>) {
    && |list| <= 10
    && (expected.Some? ==> IsRunPrefix(expected.value))
    && (forall k :: 0 <= k < |list| ==> EntryOk(list[k], baseDomain, expected))
    && (forall j, k :: 0 <= j < k < |list| ==> list[j].nodeIndex != list[k].nodeIndex)
  }

  /** Every state file that allocate can leave behind is accepted again, and for a run prefix
      with at most three nodes it is also accepted under that prefix. */
  lemma ViewLoads(history: seq<Allocation>, list: seq<Allocation>, prefix: string, suffix: nat -> string,
                  baseDomain: string)
    requires NodesOk(history) && View(list, history) && |history| <= 10
    requires IsPrefix(prefix) && AllocatedAs(history, prefix, suffix, baseDomain)
    requires forall k :: 1 <= k <= |history| ==> AllNameChars(suffix(k))
    ensures LoadOk(list, baseDomain, None)
    ensures IsRunPrefix(prefix) && |history| <= 3 && (forall k :: 1 <= k <= |history| ==> IsHexSuffix(suffix(k))) ==>
              LoadOk(list, baseDomain, Some(prefix))
  {
    var hex := IsRunPrefix(prefix) && |history| <= 3 && forall k :: 1 <= k <= |history| ==> IsHexSuffix(suffix(k));
    forall k | 0 <= k < |list|
      ensures EntryOk(list[k], baseDomain, None) && (hex ==> EntryOk(list[k], baseDomain, Some(prefix)))
    {
      assert ViewOf(list[k], history[k]);
      NodeNameIsName(prefix, k + 1, suffix(k + 1));
      if hex {
        NodeNameMatches(prefix, k + 1, suffix(k + 1));
      }
    }
  }

  datatype Verdict = Cleaned(count: nat) | BadState | Incomplete | Killed

  /** cleanup_state_allocations without a run prefix, and the command around it: the token
      files and the state file go only after a cleanup without failures. */
  method CleanupCommand(w: World) returns (v: Verdict)
    modifies w`cloud, w`disk
    ensures w.disk.Absent? <==> old(w.disk).Absent?
    ensures v.BadState? ==> w.cloud == old(w.cloud) && w.disk == old(w.disk)
    ensures v.BadState? <==> !(old(w.disk).Dir? && old(w.disk).state.Some?
                              && LoadOk(old(w.disk).state.value, w.baseDomain, None))
    ensures !v.BadState? ==> Shrinks(old(w.disk).state.value, old(w.cloud), w.cloud)
    ensures w.disk.Dir? && w.disk.state != old(w.disk).state ==>
              w.disk.state.None? && Clean(old(w.disk).state.value, w.cloud)
    ensures v.Cleaned? ==> w.disk.state.None? && v.count == |old(w.disk).state.value|
    ensures w.reliable && !v.BadState? ==> v.Cleaned?
  {
    if !w.disk.Dir? || w.disk.state.None? || !LoadOk(w.disk.state.value, w.baseDomain, None) {
      return BadState;
    }
    var list := w.disk.state.value;
    var failures, crashed := w.CleanupAllocations(list, 4);
    if crashed { return Killed; }
    if failures != [] { return Incomplete; }
    w.disk := w.disk.(tokens := w.disk.tokens - set k | 0 <= k < |list| && Truthy(list[k].tokenFile) :: list[k].tokenFile.value);
    if !w.reliable {
      if * { return Killed; }
    }
    w.disk := w.disk.(state := None);
    return Cleaned(|list|);
  }

  /** Between two commands after an allocate on the account c0. */
  ghost predicate Resumable(w: World, c0: Cloud, prefix: string, suffix: nat -> string)
    reads w
  {
    && CloudOk(c0) && w.Recoverable(c0) && IntactBut(w.history, c0, w.cloud)
    && AllocatedAs(w.history, prefix, suffix, w.baseDomain) && |w.history| <= 10
    && (w.history == [] || IsPrefix(prefix))
  }

  /** c holds what c0 held, except that tunnels with a generated name may be gone. */
  ghost predicate BackTo(c0: Cloud, c: Cloud, prefix: string, suffix: nat -> string) {
    && c.records == c0.records && Submap(c.tunnels, c0.tunnels)
    && (forall t :: t in c0.tunnels && t !in c.tunnels ==> Generated(c0.tunnels[t].name, prefix, suffix))
    && ((forall t :: t in c0.tunnels ==> !Generated(c0.tunnels[t].name, prefix, suffix)) ==> c.tunnels == c0.tunnels)
  }

  /** One cleanup, after connectors may have come and gone. */
  method RecoverOnce(w: World, ghost c0: Cloud, prefix: string, suffix: nat -> string)
    requires Resumable(w, c0, prefix, suffix)
    requires forall k :: 1 <= k <= 10 ==> AllNameChars(suffix(k))
    modifies w`cloud, w`disk
    ensures Resumable(w, c0, prefix, suffix)
    ensures w.reliable ==> w.disk.Absent? || w.disk.state.None?
  {
    var connected: set<string> := *;
    w.cloud := w.cloud.(connectors := connected);
    ghost var c1, disk1 := w.cloud, w.disk;
    var v := CleanupCommand(w);
    if !v.BadState? {
      Recovered(c0, w.history, disk1.state.value, c1, w.cloud);
    } else if disk1.Dir? && disk1.state.Some? {
      if w.history == [] {
        assert LoadOk(disk1.state.value, w.baseDomain, None);
      } else {
        ViewLoads(w.history, disk1.state.value, prefix, suffix, w.baseDomain);
      }
    }
  }

  method AllocateResumably(w: World, count: int, prefix: string, suffix: nat -> string)
    requires CloudOk(w.cloud) && w.disk.Absent? && w.history == []
    modifies w`cloud, w`disk, w`history
    ensures Resumable(w, old(w.cloud), prefix, suffix)
  {
    var outcome := w.Allocate(count, prefix, suffix);
  }

  /** Any allocate, killed or not, then any number of cleanups that may fail or be killed,
      then one that is not disturbed: the account is back to what it was, except that an older
      tunnel that carries one of the generated names may be gone. */
  method AllocateThenRecover(w: World, count: int, prefix: string, suffix: nat -> string, attempts: nat)
    requires CloudOk(w.cloud) && w.disk.Absent? && w.history == []
    requires forall k :: 1 <= k <= 10 ==> AllNameChars(suffix(k))
    modifies w
    ensures BackTo(old(w.cloud), w.cloud, prefix, suffix)
    ensures w.disk.Absent? || w.disk.state.None?
  {
    ghost var c0 := w.cloud;
    AllocateResumably(w, count, prefix, suffix);
    w.reliable := false;
    for i := 0 to attempts
      invariant Resumable(w, c0, prefix, suffix)
    {
      RecoverOnce(w, c0, prefix, suffix);
    }
    w.reliable := true;
    RecoverOnce(w, c0, prefix, suffix);
    LostIsGenerated(c0, w.history, w.cloud, prefix, suffix, w.baseDomain);
  }

  lemma LostIsGenerated(c0: Cloud, history: seq<Allocation>, c: Cloud, prefix: string, suffix: nat -> string,
                        baseDomain: string)
    requires IntactBut(history, c0, c) && AllocatedAs(history, prefix, suffix, baseDomain) && |history| <= 10
    requires Submap(c.records, c0.records) && Submap(c.tunnels, c0.tunnels)
    ensures BackTo(c0, c, prefix, suffix)
  {
    forall t | t in c0.tunnels && t !in c.tunnels ensures Generated(c0.tunnels[t].name, prefix, suffix) {
      var a :| a in history && a.name == Some(c0.tunnels[t].name);
      var k :| 0 <= k < |history| && history[k] == a;
      assert a.name.value == NodeName(prefix, k + 1, suffix(k + 1));
    }
  }

  /** The name is one that allocate generates for some node. */
  ghost predicate Generated(name: string, prefix: string, suffix: nat -> string) {
    exists k :: 1 <= k <= 10 && name == NodeName(prefix, k, suffix(k))
  }

  lemma Recovered(c0: Cloud, history: seq<Allocation>, list: seq<Allocation>, c1: Cloud, c2: Cloud)
    requires CloudOk(c0) && NodesOk(history) && IdsIssuedAfter(history, c0)
    requires View(list, history) && CloudOk(c1) && Within(c0, history, c1) && IntactBut(history, c0, c1)
    requires Shrinks(list, c1, c2)
    ensures CloudOk(c2) && Within(c0, history, c2) && IntactBut(history, c0, c2)
    ensures Clean(list, c2) ==> Submap(c2.records, c0.records) && Submap(c2.tunnels, c0.tunnels)
  {
    ShrinksKeepsOk(list, c1, c2);
    ViewSparesOthers(c0, history, list, c1, c2);
    LeftoversTracked(c0, history, list, c2);
  }
}
