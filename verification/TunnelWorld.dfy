/** The process, its output directory and the remote service together, with a crash
    possible between any two effects.  Mirrors allocate, persist_state, retry_call and
    cleanup_allocations of scripts/cloudflare_ephemeral_tunnels.py. */
module TunnelWorld {
  import opened Common
  import opened TunnelModel
  import opened TunnelNames
  import opened TunnelProtocol

  datatype Disk = Absent | Dir(state: Option<seq<Allocation>>, tokens: set<string>)

  /** How the service answers one call: it may refuse, or act and lose the reply. */
  datatype Reply = Refused | Lost | Answered

  datatype Outcome =
    | Rejected                       // an argument or the directory was refused
    | Allocated(tunnels: seq<Allocation>)
    | Failed(failures: seq<Op>)      // exception; failures is what cleanup could not do
    | Crashed

  datatype Step = Continue | Raised | Died

  class World {
    const baseDomain: string
    var cloud: Cloud
    var disk: Disk
    var reliable: bool         // while true no call is refused, no reply is lost and nobody kills the process
    ghost var history: seq<Allocation>   // the ids really issued to this run

    constructor (baseDomain: string, cloud: Cloud)
      ensures this.baseDomain == baseDomain && this.cloud == cloud && disk == Absent
    {
      this.baseDomain := baseDomain;
      this.cloud := cloud;
      disk := Absent;
      reliable := false;
      history := [];
    }

    // ---------- one call to the service ----------

    method Listing(s: set<string>) returns (ids: seq<string>)
      ensures Lists(ids, s)
    {
      ids := [];
      var rest := s;
      while rest != {}
        invariant rest <= s
        invariant Lists(ids, s - rest)
        decreases rest
      {
        var x :| x in rest;
        ids, rest := ids + [x], rest - {x};
      }
    }

    method Call(op: Op) returns (ok: bool, ids: seq<string>)
      modifies this`cloud
      ensures Effect(op, ok, ids, old(cloud), cloud)
      ensures !ok ==> ids == []
      ensures reliable && !Blocked(op, old(cloud)) ==> ok
    {
      var reply: Reply := *;
      ok, ids := false, [];
      if Blocked(op, cloud) || (!reliable && reply.Refused?) {
        return;
      }
      var before := cloud;
      cloud := Done(op, cloud);
      if !reliable && reply.Lost? {
        return;
      }
      ok := true;
      if op.FindRecords? {
        ids := Listing(set r | r in before.records && IsResourceId(r)
                               && Lower(before.records[r].hostname) == Lower(op.hostname)
                               && before.records[r].content == Content(op.target));
      } else if op.FindTunnels? {
        ids := Listing(set t | t in before.tunnels && IsResourceId(t) && before.tunnels[t].name == op.name);
      }
    }

    /** retry_call: up to `retries` attempts, stopping at the first success. */
    method RetryCall(op: Op, retries: nat) returns (ok: bool, ids: seq<string>)
      modifies this`cloud
      ensures Effect(op, ok, ids, old(cloud), cloud)
      ensures !ok ==> ids == []
      ensures reliable && retries > 0 && !Blocked(op, old(cloud)) ==> ok
    {
      ok, ids := false, [];
      var attempt := 0;
      while attempt < retries && !ok
        invariant attempt <= retries
        invariant Effect(op, ok, ids, old(cloud), cloud)
        invariant !ok ==> ids == []
        invariant reliable && attempt > 0 && !Blocked(op, old(cloud)) ==> ok
      {
        ghost var before := cloud;
        ok, ids := Call(op);
        EffectRetry(op, old(cloud), before, ok, ids, cloud);
        attempt := attempt + 1;
      }
    }

    // ---------- cleanup_allocations ----------

    /** The DNS half of the loop body for one allocation. */
    method CleanRecords(a: Allocation, retries: nat) returns (failures: seq<Op>)
      modifies this`cloud
      ensures Shrinks([a], old(cloud), cloud) && cloud.tunnels == old(cloud.tunnels)
              && cloud.connectors == old(cloud.connectors)
      ensures failures == [] ==> forall r :: r in cloud.records ==> !NamesRecord(a, r, cloud.records[r])
      ensures reliable && retries > 0 ==> failures == []
    {
      failures := [];
      var ids := [];
      var ok, ignored;
      if Truthy(a.dnsRecordId) {
        ids := [a.dnsRecordId.value];
      } else if Truthy(a.hostname) && Truthy(a.id) {
        ok, ids := RetryCall(FindRecords(a.hostname.value, a.id.value), retries);
        if !ok {
          failures := failures + [FindRecords(a.hostname.value, a.id.value)];
        }
      }
      assert forall r :: r in ids && r in cloud.records ==> NamesRecord(a, r, cloud.records[r]);
      var i := 0;
      while i < |ids|
        invariant 0 <= i <= |ids|
        invariant cloud == old(cloud).(records := cloud.records) && Submap(cloud.records, old(cloud.records))
        invariant forall r :: r in old(cloud.records) && r !in cloud.records ==> r in ids
        invariant failures == [] ==>
          forall r :: r in cloud.records && NamesRecord(a, r, cloud.records[r]) ==> r in ids
        invariant failures == [] ==> forall j :: 0 <= j < i ==> ids[j] !in cloud.records
        invariant reliable && retries > 0 ==> failures == []
      {
        var op := DeleteRecord(ids[i]);
        ok, ignored := RetryCall(op, retries);
        if !ok {
          failures := failures + [op];
        }
        i := i + 1;
      }
      assert a in [a];
    }

    /** The tunnel half: connections first, then the tunnel itself. */
    method CleanTunnels(a: Allocation, retries: nat) returns (failures: seq<Op>)
      modifies this`cloud
      ensures Shrinks([a], old(cloud), cloud) && cloud.records == old(cloud.records)
      ensures failures == [] ==> forall t :: t in cloud.tunnels ==> !NamesTunnel(a, t, cloud.tunnels[t])
      ensures reliable && retries > 0 ==> failures == []
      // No tunnel goes while it has connectors.
      ensures forall t :: t in old(cloud.tunnels) && t !in cloud.tunnels ==> t !in cloud.connectors
    {
      failures := [];
      var ids := [];
      var ok, ignored;
      if Truthy(a.id) {
        ids := [a.id.value];
      } else if Truthy(a.name) {
        ok, ids := RetryCall(FindTunnels(a.name.value), retries);
        if !ok {
          failures := failures + [FindTunnels(a.name.value)];
        }
      }
      assert forall t :: t in ids && t in cloud.tunnels ==> NamesTunnel(a, t, cloud.tunnels[t]);
      var i := 0;
      while i < |ids|
        invariant 0 <= i <= |ids|
        invariant cloud == old(cloud).(tunnels := cloud.tunnels, connectors := cloud.connectors)
        invariant Submap(cloud.tunnels, old(cloud.tunnels)) && cloud.connectors <= old(cloud.connectors)
        invariant forall t :: t in old(cloud.tunnels) && t !in cloud.tunnels ==> t in ids
        invariant forall t :: t in old(cloud.connectors) && t !in cloud.connectors ==> t in ids
        invariant forall t :: t in old(cloud.tunnels) && t !in cloud.tunnels ==> t !in cloud.connectors
        invariant failures == [] ==>
          forall t :: t in cloud.tunnels && NamesTunnel(a, t, cloud.tunnels[t]) ==> t in ids
        invariant failures == [] ==> forall j :: 0 <= j < i ==> ids[j] !in cloud.tunnels
        invariant reliable && retries > 0 ==> failures == []
      {
        var op := DeleteConnections(ids[i]);
        ok, ignored := RetryCall(op, retries);
        if ok {
          op := DeleteTunnel(ids[i]);
          ok, ignored := RetryCall(op, retries);
        }
        if !ok {
          failures := failures + [op];
        }
        i := i + 1;
      }
      assert a in [a];
    }

    /** cleanup_allocations: all DNS records in reverse order, then all tunnels in reverse
        order, carrying on past failures.  A crash may end it after any allocation. */
    method CleanupAllocations(allocs: seq<Allocation>, retries: nat) returns (failures: seq<Op>, crashed: bool)
      modifies this`cloud
      ensures Shrinks(allocs, old(cloud), cloud)
      ensures !crashed && failures == [] ==> Clean(allocs, cloud)
      ensures reliable ==> !crashed
      ensures reliable && retries > 0 ==> failures == []
    {
      failures, crashed := [], false;
      var i := |allocs|;
      while i > 0
        invariant 0 <= i <= |allocs|
        invariant Shrinks(allocs, old(cloud), cloud)
        invariant failures == [] ==> CleanRecordsFrom(allocs, i, cloud)
        invariant !crashed && (reliable && retries > 0 ==> failures == [])
      {
        i := i - 1;
        ghost var before := cloud;
        var more := CleanRecords(allocs[i], retries);
        ShrinksByOne(allocs, i, before, cloud);
        ShrinksTransitive(allocs, old(cloud), before, cloud);
        failures := failures + more;
        crashed := *;
        crashed := crashed && !reliable;
        if crashed {
          return;
        }
      }
      ghost var clearedRecords := cloud.records;
      i := |allocs|;
      while i > 0
        invariant 0 <= i <= |allocs|
        invariant Shrinks(allocs, old(cloud), cloud)
        invariant cloud.records == clearedRecords
        invariant failures == [] ==> CleanRecordsFrom(allocs, 0, cloud) && CleanTunnelsFrom(allocs, i, cloud)
        invariant !crashed && (reliable && retries > 0 ==> failures == [])
      {
        i := i - 1;
        ghost var before := cloud;
        var more := CleanTunnels(allocs[i], retries);
        ShrinksByOne(allocs, i, before, cloud);
        ShrinksTransitive(allocs, old(cloud), before, cloud);
        failures := failures + more;
        crashed := *;
        crashed := crashed && !reliable;
        if crashed {
          return;
        }
      }
    }

    // ---------- allocate ----------

    /** persist_state replaces the file atomically; when it raises, the old or the new
        content is on disk. */
    method PersistState(state: seq<Allocation>) returns (ok: bool)
      requires disk.Dir?
      modifies this`disk
      ensures disk.Dir? && disk.tokens == old(disk.tokens)
      ensures disk.state == Some(state) || (!ok && disk.state == old(disk.state))
    {
      ok := *;
      var replaced: bool := *;
      if ok || replaced {
        disk := disk.(state := Some(state));
      }
    }

    /** create_tunnel: an error leaves open whether the tunnel exists; actual tells. */
    method CreateTunnel(name: string) returns (id: Option<string>, ghost actual: Option<string>)
      requires CloudOk(cloud)
      modifies this`cloud
      ensures CloudOk(cloud) && (id.Some? ==> actual == id)
      ensures match actual
        case Some(t) => t !in old(cloud.tunnelIds) && IsResourceId(t) && cloud == AddTunnel(old(cloud), t, name)
        case None => cloud == old(cloud)
    {
      var reply: Reply := *;
      var t: string := *;
      if reply.Refused? || t in cloud.tunnelIds || !IsResourceId(t) {
        return None, None;
      }
      cloud := AddTunnel(cloud, t, name);
      return if reply.Lost? then None else Some(t), Some(t);
    }

    method CreateDns(hostname: string, target: string) returns (id: Option<string>, ghost actual: Option<string>)
      requires CloudOk(cloud) && target in cloud.tunnelIds
      modifies this`cloud
      ensures CloudOk(cloud) && (id.Some? ==> actual == id)
      ensures match actual
        case Some(r) => r !in old(cloud.recordIds) && IsResourceId(r)
                        && cloud == AddRecord(old(cloud), r, hostname, target)
        case None => cloud == old(cloud)
    {
      var reply: Reply := *;
      var r: string := *;
      if reply.Refused? || r in cloud.recordIds || !IsResourceId(r) {
        return None, None;
      }
      cloud := AddRecord(cloud, r, hostname, target);
      forall t | Content(t) == Content(target) ensures t == target {
        ContentInjective(t, target);
      }
      return if reply.Lost? then None else Some(r), Some(r);
    }

    /** While allocate runs: the account is what the history built, and the file on disk
        and the list in memory are views of the history. */
    ghost predicate Sound(c0: Cloud, memory: seq<Allocation>)
      reads this
    {
      && NodesOk(history) && IdsIssuedAfter(history, c0)
      && CloudOk(cloud) && cloud == Built(c0, history)
      && disk.Dir? && disk.state.Some? && View(disk.state.value, history)
      && View(memory, history) && |memory| == |history|
    }

    /** One turn of allocate's loop: intent, tunnel, id, record, record id, token, each
        followed by a write of the state file; a crash may strike after any of them. */
    method AllocateOne(ghost c0: Cloud, allocs: seq<Allocation>, index: nat, name: string)
      returns (now: seq<Allocation>, step: Step)
      requires Sound(c0, allocs) && history == allocs && disk.state == Some(allocs)
      requires name != ""
      modifies this`cloud, this`disk, this`history
      ensures Sound(c0, now)
      ensures |now| == |allocs| + 1 && now[..|allocs|] == allocs && history[..|allocs|] == allocs
      ensures HasNode(history[|allocs|], index, name, baseDomain)
      ensures step.Continue? ==> history == now && disk.state == Some(now) && IsComplete(now[|allocs|])
    {
      var a := Allocation(Some(name), Some(name + "." + baseDomain), index, None, None, None);
      now, step := allocs + [a], Died;
      history := now;
      Extend(c0, allocs, a, a, a);
      var ok := PersistState(now);
      if * { return; }
      if !ok { return now, Raised; }

      ghost var actual;
      ghost var h := a;
      var id;
      id, actual := CreateTunnel(name);
      h := a.(id := actual);
      history := allocs + [h];
      Extend(c0, allocs, a, a, h);
      if * { return; }
      if id.None? { return now, Raised; }
      a := a.(id := id);
      now := allocs + [a];
      Extend(c0, allocs, a, a.(id := None), h);
      ok := PersistState(now);
      if * { return; }
      if !ok { return now, Raised; }

      var record;
      record, actual := CreateDns(a.hostname.value, id.value);
      h := a.(dnsRecordId := actual);
      history := allocs + [h];
      Extend(c0, allocs, a, a, h);
      if * { return; }
      if record.None? { return now, Raised; }
      a := a.(dnsRecordId := record);
      now := allocs + [a];
      Extend(c0, allocs, a, a.(dnsRecordId := None), h);
      ok := PersistState(now);
      if * { return; }
      if !ok { return now, Raised; }

      var token := TokenName(index);
      var written: bool := *;
      if written {
        disk := disk.(tokens := disk.tokens + {token});
      }
      if * { return; }
      if !written { return now, Raised; }
      a := a.(tokenFile := Some(token));
      now := allocs + [a];
      history := now;
      Extend(c0, allocs, a, a.(tokenFile := None), a);
      ok := PersistState(now);
      if * { return; }
      step := if ok then Continue else Raised;
    }

    /** allocate's loop over the node indexes. */
    method AllocateAll(ghost c0: Cloud, count: nat, prefix: string, suffix: nat -> string)
      returns (allocs: seq<Allocation>, step: Step)
      requires Sound(c0, []) && history == [] && disk.state == Some([])
      modifies this`cloud, this`disk, this`history
      ensures Sound(c0, allocs)
      ensures AllocatedAs(history, prefix, suffix, baseDomain) && |allocs| <= count
      ensures step.Continue? ==>
        && |allocs| == count && history == allocs && disk.state == Some(allocs)
        && AllComplete(allocs)
    {
      allocs, step := [], Continue;
      var index := 1;
      while index <= count && step.Continue?
        invariant 1 <= index <= count + 1 && |allocs| == index - 1
        invariant Sound(c0, allocs)
        invariant AllocatedAs(history, prefix, suffix, baseDomain)
        invariant step.Continue? ==>
          && history == allocs && disk.state == Some(allocs)
          && AllComplete(allocs)
        decreases count + 1 - index
      {
        var name := NodeName(prefix, index, suffix(index));
        if |name| > 63 {
          return allocs, Raised;
        }
        ghost var done := allocs;
        allocs, step := AllocateOne(c0, allocs, index, name);
        ExtendNodes(done, history, prefix, suffix, baseDomain);
        ExtendComplete(done, allocs);
        index := index + 1;
      }
    }

    /** Between commands: nothing beyond the history was made, and the state on disk is a
        view of the history; without a state there is nothing left. */
    ghost predicate Recoverable(c0: Cloud)
      reads this
    {
      && NodesOk(history) && IdsIssuedAfter(history, c0)
      && CloudOk(cloud) && Within(c0, history, cloud)
      && (if disk.Dir? && disk.state.Some? then View(disk.state.value, history)
          else Submap(cloud.records, c0.records) && Submap(cloud.tunnels, c0.tunnels))
    }

    /** allocate's exception handler. */
    method Abandon(ghost c0: Cloud, allocs: seq<Allocation>) returns (outcome: Outcome)
      requires CloudOk(c0) && Sound(c0, allocs)
      modifies this`cloud, this`disk
      ensures disk.Dir? && Recoverable(c0)
      ensures IntactBut(history, c0, cloud)
      ensures outcome.Failed? || outcome.Crashed?
      ensures outcome.Failed? ==>
                disk.tokens == {} && disk.state == if outcome.failures == [] then None else old(disk).state
    {
      ghost var c1 := cloud;
      BuiltIntact(c0, history);
      var failures, crashed := CleanupAllocations(allocs, 4);
      ShrinksKeepsOk(allocs, c1, cloud);
      LeftoversTracked(c0, history, allocs, cloud);
      ViewSparesOthers(c0, history, allocs, c1, cloud);
      if crashed { return Crashed; }
      disk := disk.(tokens := {});
      if * { return Crashed; }
      if failures == [] {
        TrackedCleanIsGone(allocs, c0, cloud);
        disk := disk.(state := None);
      }
      return Failed(failures);
    }

    /** allocate.  count and prefix are checked first; a run that raises cleans up what the
        list in memory names and drops the state file only when that left no failure. */
    method Allocate(count: int, prefix: string, suffix: nat -> string) returns (outcome: Outcome)
      requires CloudOk(cloud) && history == []
      modifies this`cloud, this`disk, this`history
      ensures AllocatedAs(history, prefix, suffix, baseDomain) && (IsPrefix(prefix) || history == [])
      // At every crash point and at every return, what is on disk names what was created.
      ensures old(disk).Absent? ==> Recoverable(old(cloud))
      ensures old(disk).Dir? ==> outcome.Rejected? && disk == old(disk)
      ensures outcome.Rejected? ==> cloud == old(cloud)
      ensures outcome.Allocated? ==>
                && disk.Dir? && disk.state == Some(outcome.tunnels)
                && |outcome.tunnels| == count && history == outcome.tunnels && NodesOk(history)
                && AllComplete(outcome.tunnels)
                && cloud == Built(old(cloud), outcome.tunnels)
      ensures outcome.Failed? && outcome.failures == [] ==> disk.Dir? && disk.state.None? && disk.tokens == {}
      ensures |history| <= 10 && |history| <= (if count > 0 then count else 0)
      // Resources that were there before are spared, except tunnels with a name of this run.
      ensures IntactBut(history, old(cloud), cloud)
    {
      ghost var c0 := cloud;
      if count < 1 || count > 10 || !IsPrefix(prefix) || disk.Dir? {
        return Rejected;
      }
      disk := Dir(None, {});
      if * { return Crashed; }
      var ok := PersistState([]);
      if * { return Crashed; }
      if !ok { return Rejected; }
      var allocs, step := AllocateAll(cloud, count, prefix, suffix);
      BuiltIntact(c0, history);
      match step
      case Died => outcome := Crashed;
      case Continue => outcome := Allocated(allocs);
      case Raised => outcome := Abandon(c0, allocs);
    }
  }

  /** Element k carries the name, hostname and index of node k + 1. */
  ghost predicate AllocatedAs(allocs: seq<Allocation>, prefix: string, suffix: nat -> string, baseDomain: string) {
    forall k :: 0 <= k < |allocs| ==>
      && HasNode(allocs[k], k + 1, NodeName(prefix, k + 1, suffix(k + 1)), baseDomain)
      && |allocs[k].name.value| <= 63
  }

  ghost predicate AllComplete(allocs: seq<Allocation>) {
    forall k :: 0 <= k < |allocs| ==> IsComplete(allocs[k])
  }

  lemma ExtendComplete(done: seq<Allocation>, now: seq<Allocation>)
    requires AllComplete(done) && |now| == |done| + 1 && now[..|done|] == done
    ensures IsComplete(now[|done|]) ==> AllComplete(now)
  {
    assert forall k :: 0 <= k < |done| ==> now[k] == done[k];
  }

  lemma ExtendNodes(done: seq<Allocation>, now: seq<Allocation>, prefix: string, suffix: nat -> string,
                    baseDomain: string)
    requires AllocatedAs(done, prefix, suffix, baseDomain)
    requires |now| == |done| + 1 && now[..|done|] == done
    requires HasNode(now[|done|], |done| + 1, NodeName(prefix, |done| + 1, suffix(|done| + 1)), baseDomain)
    requires |now[|done|].name.value| <= 63
    ensures AllocatedAs(now, prefix, suffix, baseDomain)
  {
    forall k | 0 <= k < |now|
      ensures HasNode(now[k], k + 1, NodeName(prefix, k + 1, suffix(k + 1)), baseDomain)
              && |now[k].name.value| <= 63
    {
      if k < |done| { assert now[k] == done[k]; }
    }
  }

  ghost predicate HasNode(a: Allocation, index: int, name: string, baseDomain: string) {
    a.nodeIndex == index && a.name == Some(name) && a.hostname == Some(name + "." + baseDomain)
  }

  predicate IsComplete(a: Allocation) { a.id.Some? && a.dnsRecordId.Some? && a.tokenFile.Some? }

  /** allocs + [a] and allocs + [b] and allocs are all views of allocs + [h]. */
  lemma Extend(c0: Cloud, allocs: seq<Allocation>, a: Allocation, b: Allocation, h: Allocation)
    requires NodesOk(allocs) && NodeOk(h) && ViewOf(a, h) && ViewOf(b, h)
    ensures NodesOk(allocs + [h]) && Built(c0, allocs + [h]) == Build(Built(c0, allocs), h)
    ensures View(allocs + [a], allocs + [h]) && View(allocs + [b], allocs + [h])
    ensures h.id.None? && h.dnsRecordId.None? ==> View(allocs, allocs + [h])
    ensures IdsIssuedAfter(allocs, c0) && (h.id.Some? ==> h.id.value !in c0.tunnelIds)
            && (h.dnsRecordId.Some? ==> h.dnsRecordId.value !in c0.recordIds) ==>
              IdsIssuedAfter(allocs + [h], c0)
    ensures c0.tunnelIds <= Built(c0, allocs).tunnelIds && c0.recordIds <= Built(c0, allocs).recordIds
  {
    BuiltAppend(c0, allocs, h);
    BuiltGrows(c0, allocs);
  }

  ghost predicate CleanRecordsFrom(allocs: seq<Allocation>, i: nat, c: Cloud) {
    forall j, r :: i <= j < |allocs| && r in c.records ==> !NamesRecord(allocs[j], r, c.records[r])
  }

  ghost predicate CleanTunnelsFrom(allocs: seq<Allocation>, i: nat, c: Cloud) {
    forall j, t :: i <= j < |allocs| && t in c.tunnels ==> !NamesTunnel(allocs[j], t, c.tunnels[t])
  }

  lemma ShrinksByOne(allocs: seq<Allocation>, i: nat, c0: Cloud, c: Cloud)
    requires i < |allocs| && Shrinks([allocs[i]], c0, c)
    ensures Shrinks(allocs, c0, c)
  {
    assert allocs[i] in allocs;
  }
}
