/** runDecommissionNodeImpl of engine/pkg/cli/node.go: a driver that talks to the cluster
    through RPCs.  A run is recorded as the list of calls it made; replies, printing errors
    and the moment the context is cancelled are arbitrary. */
module Decommission {
  import opened Common

  datatype Membership = Active | Decommissioning | Decommissioned

  datatype Replica = Replica(replica: int, range: int)

  datatype NodeStatus = NodeStatus(
    node: int, isLive: bool, replicaCount: int, membership: Membership, draining: bool, reported: seq<Replica>)

  type Response = seq<NodeStatus>

  datatype Readiness = Ready | AlreadyDecommissioned | AllocationErrors | Unknown

  datatype Checks = Skip | Enabled | Strict

  datatype Config = Config(waitNone: bool, checks: Checks, dryRun: bool, nodeIDs: seq<int>, localNodeID: int)

  datatype Event =
    | PreCheck(verdict: Option<seq<Readiness>>)
    | StatusQuery(answered: bool)
    | MarkDecommissioning(numReplicaReport: int, answer: Option<Response>)
    | Drain(target: int, answered: bool)
    | MarkDecommissioned(answered: bool)
    | Reset

  datatype Outcome = Done | Error

  const MAX_INT64: int := 0x7FFF_FFFF_FFFF_FFFF
  const TWO_64: int := 0x1_0000_0000_0000_0000

  /** Two's complement wrap-around of an int64 sum. */
  function Wrap(x: int): (r: int)
    ensures -MAX_INT64 - 1 <= r <= MAX_INT64
    ensures -MAX_INT64 - 1 <= x <= MAX_INT64 ==> r == x
  {
    (x + MAX_INT64 + 1) % TWO_64 - MAX_INT64 - 1
  }

  /** decommissionPreCheckReady */
  predicate PreCheckReady(resp: Option<seq<Readiness>>) {
    resp.None? || forall i :: 0 <= i < |resp.value| ==> resp.value[i] in {Ready, AlreadyDecommissioned}
  }

  function Sum(resp: Response): int {
    if resp == [] then 0 else Sum(resp[..|resp| - 1]) + resp[|resp| - 1].replicaCount
  }

  predicate AnyActive(resp: Response) { exists i :: 0 <= i < |resp| && resp[i].membership == Active }

  /** The condition for draining: no target is active and the counts add up to zero. */
  predicate Quiet(resp: Response) { !AnyActive(resp) && Wrap(Sum(resp)) == 0 }

  /** The loop over the statuses. */
  method Tally(resp: Response) returns (anyActive: bool, replicaCount: int)
    ensures anyActive == AnyActive(resp) && replicaCount == Wrap(Sum(resp))
  {
    anyActive, replicaCount := false, 0;
    for i := 0 to |resp|
      invariant anyActive == AnyActive(resp[..i]) && replicaCount == Wrap(Sum(resp[..i]))
    {
      assert resp[..i + 1][..i] == resp[..i];
      assert AnyActive(resp[..i + 1]) <==> AnyActive(resp[..i]) || resp[i].membership == Active by {
        assert resp[..i + 1] == resp[..i] + [resp[i]];
        assert resp[..i + 1][i] == resp[i];
        if AnyActive(resp[..i]) {
          var j :| 0 <= j < i && resp[..i][j].membership == Active;
          assert resp[..i + 1][j].membership == Active;
        }
      }
      anyActive := anyActive || resp[i].membership == Active;
      replicaCount := Wrap(replicaCount + resp[i].replicaCount);
    }
    assert resp[..|resp|] == resp;
  }

  /** No target has a replica and none is active. */
  predicate Empty(resp: Response) {
    forall i :: 0 <= i < |resp| ==> resp[i].replicaCount == 0 && resp[i].membership != Active
  }

  lemma {:induction false} SumBounds(resp: Response)
    requires forall i :: 0 <= i < |resp| ==> resp[i].replicaCount >= 0
    ensures Sum(resp) >= 0 && forall i :: 0 <= i < |resp| ==> resp[i].replicaCount <= Sum(resp)
    ensures Sum(resp) == 0 <==> forall i :: 0 <= i < |resp| ==> resp[i].replicaCount == 0
  {
    if resp != [] {
      SumBounds(resp[..|resp| - 1]);
    }
  }

  lemma WrapsToZero(x: int)
    ensures Wrap(x) == 0 <==> x % TWO_64 == 0
  {
    var q, r := x / TWO_64, x % TWO_64;
    assert x == q * TWO_64 + r && 0 <= r < TWO_64;
    if r <= MAX_INT64 {
      assert (x + MAX_INT64 + 1) % TWO_64 == r + MAX_INT64 + 1;
    } else {
      assert x + MAX_INT64 + 1 == (q + 1) * TWO_64 + (r - MAX_INT64 - 1);
      assert (x + MAX_INT64 + 1) % TWO_64 == r - MAX_INT64 - 1;
    }
  }

  /** With nonnegative counts a quiet answer means that no target has a replica, unless the true
      total is a positive multiple of 2^64: then, and only then, the wrapped total deceives. */
  lemma QuietIsEmpty(resp: Response)
    requires forall i :: 0 <= i < |resp| ==> resp[i].replicaCount >= 0
    ensures (Quiet(resp) ==> Empty(resp))
      <==> AnyActive(resp) || Sum(resp) == 0 || Sum(resp) % TWO_64 != 0
    ensures Empty(resp) ==> Quiet(resp)
    ensures Sum(resp) < TWO_64 ==> (Quiet(resp) <==> Empty(resp))
  {
    SumBounds(resp);
    WrapsToZero(Sum(resp));
    assert AnyActive(resp) ==> !Empty(resp);
  }

  /** Such a total: two counts of 2^63 - 1 and one of 2. */
  lemma QuietCanOverflow()
    ensures var resp := [NodeStatus(1, true, MAX_INT64, Decommissioning, false, []),
                         NodeStatus(2, true, MAX_INT64, Decommissioning, false, []),
                         NodeStatus(3, true, 2, Decommissioning, false, [])];
            Quiet(resp) && !Empty(resp) && Sum(resp) == TWO_64
  {
    var resp := [NodeStatus(1, true, MAX_INT64, Decommissioning, false, []),
                 NodeStatus(2, true, MAX_INT64, Decommissioning, false, []),
                 NodeStatus(3, true, 2, Decommissioning, false, [])];
    assert resp[..2][..1][..0] == [] && resp[..2][..1] == [resp[0]] && resp[..2] == [resp[0], resp[1]];
    assert Sum(resp[..2][..1]) == MAX_INT64;
    assert Sum(resp[..2]) == 2 * MAX_INT64;
    assert Sum(resp) == TWO_64;
    assert resp[2].replicaCount != 0;
  }

  // ---------- properties of a run ----------

  function RoundAnswers(trace: seq<Event>): seq<Response> {
    if trace == [] then []
    else
      var e := trace[|trace| - 1];
      RoundAnswers(trace[..|trace| - 1])
      + if e.MarkDecommissioning? && e.answer.Some? then [e.answer.value] else []
  }

  function Resets(trace: seq<Event>): nat {
    if trace == [] then 0 else Resets(trace[..|trace| - 1]) + if trace[|trace| - 1].Reset? then 1 else 0
  }

  lemma Appended(trace: seq<Event>, e: Event)
    ensures Resets(trace + [e]) == Resets(trace) + if e.Reset? then 1 else 0
    ensures RoundAnswers(trace + [e])
            == RoundAnswers(trace) + if e.MarkDecommissioning? && e.answer.Some? then [e.answer.value] else []
  {
    assert (trace + [e])[..|trace|] == trace;
  }

  /** How many answers in a row have repeated the one before; the empty response comes first. */
  function Repeats(answers: seq<Response>): nat {
    if answers == [] then 0
    else
      var n := |answers| - 1;
      if answers[n] == LastAnswer(answers[..n]) then 1 + Repeats(answers[..n]) else 0
  }

  function LastAnswer(answers: seq<Response>): Response {
    if answers == [] then [] else answers[|answers| - 1]
  }

  /** The drain calls for the targets in order, without the node that serves the request. */
  function Drains(nodeIDs: seq<int>, localNodeID: int): seq<Event> {
    if nodeIDs == [] then []
    else
      var n := nodeIDs[|nodeIDs| - 1];
      Drains(nodeIDs[..|nodeIDs| - 1], localNodeID) + if n == localNodeID then [] else [Drain(n, true)]
  }

  predicate Mutates(e: Event) { e.MarkDecommissioning? || e.Drain? || e.MarkDecommissioned? }

  predicate IsFinal(e: Event) { e.Drain? || e.MarkDecommissioned? }

  /** Every request asks for a replica report exactly when the sixteen answers before it
      repeated the one before them. */
  ghost predicate ReportsJustified(trace: seq<Event>) {
    forall i :: 0 <= i < |trace| && trace[i].MarkDecommissioning? ==>
      trace[i].numReplicaReport == if Repeats(RoundAnswers(trace[..i])) >= 16 then 5 else 0
  }

  /** Draining starts only right behind a quiet answer, goes through the targets in order and
      stops at the first failure; nodes are marked decommissioned only after all of it. */
  ghost predicate FinishedProperly(cfg: Config, trace: seq<Event>) {
    forall i :: 0 <= i < |trace| && IsFinal(trace[i]) ==> exists j, from :: FinalAfter(cfg, trace, i, j, from)
  }

  /** The answer at j was quiet; a refresh of the pre-check may stand between it and from. */
  ghost predicate QuietBefore(trace: seq<Event>, j: int, from: int) {
    && 0 <= j < from <= |trace| && from <= j + 2
    && trace[j].MarkDecommissioning? && trace[j].answer.Some? && Quiet(trace[j].answer.value)
    && (from == j + 2 ==> trace[j + 1].PreCheck?)
  }

  ghost predicate FinalAfter(cfg: Config, trace: seq<Event>, i: int, j: int, from: int) {
    && QuietBefore(trace, j, from) && from <= i < |trace|
    && (trace[i].MarkDecommissioned? ==> trace[from..i] == Drains(cfg.nodeIDs, cfg.localNodeID))
    && (trace[i].Drain? ==>
          && trace[from..i] < Drains(cfg.nodeIDs, cfg.localNodeID)
          && Drains(cfg.nodeIDs, cfg.localNodeID)[i - from] == Drain(trace[i].target, true))
  }

  /** While every tally so far is non-negative, the backoff has been reset at most once more
      than the first tally says. */
  ghost predicate ResetsBounded(trace: seq<Event>) {
    var answers := RoundAnswers(trace);
    answers != [] && (forall k :: 0 <= k < |answers| ==> Wrap(Sum(answers[k])) >= 0) ==>
      Resets(trace) <= Wrap(Sum(answers[0])) + 1
  }

  // ---------- the driver ----------

  /** Steps 3 and 4: drain the targets one by one, then mark them decommissioned. */
  method Finish(cfg: Config, before: seq<Event>) returns (trace: seq<Event>, outcome: Outcome)
    requires EndsQuiet(before) && forall i :: 0 <= i < |before| ==> !IsFinal(before[i])
    ensures before <= trace && FinishedProperly(cfg, trace)
    ensures forall i :: |before| <= i < |trace| ==> IsFinal(trace[i])
    ensures outcome == Done ==>
      trace == before + Drains(cfg.nodeIDs, cfg.localNodeID) + [MarkDecommissioned(true)]
  {
    trace := before;
    for i := 0 to |cfg.nodeIDs|
      invariant trace == before + Drains(cfg.nodeIDs[..i], cfg.localNodeID)
      invariant FinishedProperly(cfg, trace)
      invariant forall k :: |before| <= k < |trace| ==> IsFinal(trace[k])
    {
      var target := cfg.nodeIDs[i];
      DrainsGrow(cfg, i);
      if target != cfg.localNodeID {
        var answered: bool := *;
        DrainProper(cfg, before, i, answered);
        trace := trace + [Drain(target, answered)];
        if !answered {
          return trace, Error;
        }
      }
    }
    assert cfg.nodeIDs[..|cfg.nodeIDs|] == cfg.nodeIDs;
    var answered: bool := *;
    MarkProper(cfg, before, answered);
    trace := trace + [MarkDecommissioned(answered)];
    outcome := if answered then Done else Error;
  }

  ghost predicate EndsQuiet(before: seq<Event>) { exists j :: QuietBefore(before, j, |before|) }

  lemma DrainProper(cfg: Config, before: seq<Event>, i: nat, answered: bool)
    requires EndsQuiet(before) && i < |cfg.nodeIDs| && cfg.nodeIDs[i] != cfg.localNodeID
    requires FinishedProperly(cfg, before + Drains(cfg.nodeIDs[..i], cfg.localNodeID))
    ensures FinishedProperly(cfg, before + Drains(cfg.nodeIDs[..i], cfg.localNodeID) + [Drain(cfg.nodeIDs[i], answered)])
  {
    var some := Drains(cfg.nodeIDs[..i], cfg.localNodeID);
    var sofar, e := before + some, Drain(cfg.nodeIDs[i], answered);
    var trace := sofar + [e];
    var j :| QuietBefore(before, j, |before|);
    DrainsGrow(cfg, i);
    assert trace[..|before|] == before && trace[|before|..|sofar|] == some;
    assert FinalAfter(cfg, trace, |sofar|, j, |before|);
    StaysProper(cfg, sofar, e);
  }

  lemma MarkProper(cfg: Config, before: seq<Event>, answered: bool)
    requires EndsQuiet(before)
    requires FinishedProperly(cfg, before + Drains(cfg.nodeIDs, cfg.localNodeID))
    ensures FinishedProperly(cfg, before + Drains(cfg.nodeIDs, cfg.localNodeID) + [MarkDecommissioned(answered)])
  {
    var all := Drains(cfg.nodeIDs, cfg.localNodeID);
    var sofar, e := before + all, MarkDecommissioned(answered);
    var trace := sofar + [e];
    var j :| QuietBefore(before, j, |before|);
    assert trace[..|before|] == before && trace[|before|..|sofar|] == all;
    assert FinalAfter(cfg, trace, |sofar|, j, |before|);
    StaysProper(cfg, sofar, e);
  }

  lemma DrainsGrow(cfg: Config, i: nat)
    requires i < |cfg.nodeIDs|
    ensures var all, upTo := Drains(cfg.nodeIDs, cfg.localNodeID), Drains(cfg.nodeIDs[..i], cfg.localNodeID);
            var next := Drains(cfg.nodeIDs[..i + 1], cfg.localNodeID);
            && next <= all
            && next == upTo + if cfg.nodeIDs[i] == cfg.localNodeID then [] else [Drain(cfg.nodeIDs[i], true)]
  {
    assert cfg.nodeIDs[..i + 1][..i] == cfg.nodeIDs[..i];
    DrainsPrefix(cfg.nodeIDs, cfg.localNodeID, i + 1);
  }

  lemma {:induction false} DrainsPrefix(nodeIDs: seq<int>, localNodeID: int, i: nat)
    requires i <= |nodeIDs|
    ensures Drains(nodeIDs[..i], localNodeID) <= Drains(nodeIDs, localNodeID)
  {
    if i == |nodeIDs| {
      assert nodeIDs[..i] == nodeIDs;
    } else {
      var n := |nodeIDs| - 1;
      DrainsPrefix(nodeIDs[..n], localNodeID, i);
      assert nodeIDs[..n][..i] == nodeIDs[..i];
    }
  }

  /** Appending a call that is proper itself keeps the earlier ones proper. */
  lemma StaysProper(cfg: Config, trace: seq<Event>, e: Event)
    requires FinishedProperly(cfg, trace)
    requires IsFinal(e) ==> exists j, from :: FinalAfter(cfg, trace + [e], |trace|, j, from)
    ensures FinishedProperly(cfg, trace + [e])
  {
    var more := trace + [e];
    forall i | 0 <= i < |more| && IsFinal(more[i]) ensures exists j, from :: FinalAfter(cfg, more, i, j, from) {
      if i < |trace| {
        var j, from :| FinalAfter(cfg, trace, i, j, from);
        assert more[from..i] == trace[from..i];
        assert FinalAfter(cfg, more, i, j, from);
      }
    }
  }

  /** sameStatusCount and numReplicaReport as functions of the repeats. */
  ghost predicate Stalled(repeats: nat, same: int, report: int) {
    && report == (if repeats >= 16 then 5 else 0)
    && same == (if repeats >= 16 then repeats - 1 else repeats)
  }

  /** Each reset lowered the minimum, which started at the first tally. */
  ghost predicate ResetsSoFar(answers: seq<Response>, resets: nat, min: int) {
    && (resets == 0 ==> min == MAX_INT64)
    && (resets > 0 ==> answers != [] && resets <= Wrap(Sum(answers[0])) - min + 1)
    && (resets == 0 && answers != [] ==> Wrap(Sum(answers[0])) == MAX_INT64)
    && ((forall k :: 0 <= k < |answers| ==> Wrap(Sum(answers[k])) >= 0) ==> min >= 0)
  }

  ghost predicate NoFinal(trace: seq<Event>) { forall i :: 0 <= i < |trace| ==> !IsFinal(trace[i]) }

  /** Appending a justified request or a pre-check. */
  lemma CallAppended(trace: seq<Event>, e: Event)
    requires NoFinal(trace) && ReportsJustified(trace) && !IsFinal(e)
    requires e.MarkDecommissioning? ==>
               e.numReplicaReport == if Repeats(RoundAnswers(trace)) >= 16 then 5 else 0
    ensures NoFinal(trace + [e]) && ReportsJustified(trace + [e])
  {
    var more := trace + [e];
    forall i | 0 <= i < |more| && more[i].MarkDecommissioning?
      ensures more[i].numReplicaReport == if Repeats(RoundAnswers(more[..i])) >= 16 then 5 else 0
    {
      assert more[..i] == trace[..i];
      assert i == |trace| ==> trace[..i] == trace;
    }
  }

  lemma QuietAfterCall(before: seq<Event>, report: int, resp: Response, check: seq<Event>)
    requires Quiet(resp) && (check == [] || (|check| == 1 && check[0].PreCheck?))
    ensures EndsQuiet(before + [MarkDecommissioning(report, Some(resp))] + check)
  {
    var trace := before + [MarkDecommissioning(report, Some(resp))] + check;
    assert QuietBefore(trace, |before|, |trace|);
  }

  /** The bookkeeping behind an answer. A changed answer is printed first, which can fail. */
  method Note(ghost answers: seq<Response>, prev: Response, r: Response, same: int, report: int)
    returns (shown: bool, refresh: bool, same': int, report': int)
    requires prev == LastAnswer(answers) && Stalled(Repeats(answers), same, report)
    ensures shown ==> Stalled(Repeats(answers + [r]), same', report')
  {
    RepeatsStep(answers, r);
    shown, refresh, same', report' := true, false, same, report;
    if prev != r {
      shown := *;
      same', report' := 0, 0;
    } else if same >= 15 && report == 0 {
      refresh, report' := true, 5;
    } else {
      same' := same + 1;
    }
  }

  /** The request itself. */
  method Ask(before: seq<Event>, report: int) returns (trace: seq<Event>, answer: Option<Response>)
    requires NoFinal(before) && ReportsJustified(before)
    requires report == if Repeats(RoundAnswers(before)) >= 16 then 5 else 0
    ensures trace == before + [MarkDecommissioning(report, answer)] && NoFinal(trace) && ReportsJustified(trace)
    ensures Resets(trace) == Resets(before)
    ensures RoundAnswers(trace) == RoundAnswers(before) + if answer.Some? then [answer.value] else []
  {
    answer := *;
    var call := MarkDecommissioning(report, answer);
    Appended(before, call);
    CallAppended(before, call);
    trace := before + [call];
  }

  /** The pre-check that is repeated when the answers stall. */
  method Refresh(cfg: Config, before: seq<Event>, due: bool) returns (trace: seq<Event>, ok: bool, ghost check: seq<Event>)
    requires NoFinal(before) && ReportsJustified(before)
    ensures trace == before + check && NoFinal(trace) && ReportsJustified(trace)
    ensures RoundAnswers(trace) == RoundAnswers(before) && Resets(trace) == Resets(before)
    ensures check == [] || (|check| == 1 && check[0].PreCheck?)
  {
    trace, ok, check := before, true, [];
    if due && cfg.checks != Skip {
      var verdict: Option<seq<Readiness>> := *;
      check := [PreCheck(verdict)];
      Appended(before, PreCheck(verdict));
      CallAppended(before, PreCheck(verdict));
      trace, ok := before + [PreCheck(verdict)], verdict.Some?;
    }
  }

  /** One call and the bookkeeping behind it. */
  method Round(cfg: Config, before: seq<Event>, prev: Response, same: int, report: int)
    returns (trace: seq<Event>, resp: Option<Response>, prev': Response, same': int, report': int)
    requires NoFinal(before) && ReportsJustified(before) && prev == LastAnswer(RoundAnswers(before))
    requires Stalled(Repeats(RoundAnswers(before)), same, report)
    ensures before < trace && NoFinal(trace) && ReportsJustified(trace) && Resets(trace) == Resets(before)
    ensures RoundAnswers(before) <= RoundAnswers(trace)
    ensures |RoundAnswers(trace)| <= |RoundAnswers(before)| + 1
    ensures resp.Some? ==>
      && RoundAnswers(trace) == RoundAnswers(before) + [resp.value]
      && prev' == resp.value && Stalled(Repeats(RoundAnswers(trace)), same', report')
      && (Quiet(resp.value) ==> EndsQuiet(trace))
  {
    prev', same', report', resp := prev, same, report, None;
    var answer;
    trace, answer := Ask(before, report);
    if answer.None? {
      return;
    }
    var r, shown, refresh, ok := answer.value, false, false, false;
    shown, refresh, same', report' := Note(RoundAnswers(before), prev, r, same, report);
    if !shown {
      return;
    }
    ghost var check;
    trace, ok, check := Refresh(cfg, trace, refresh);
    if !ok {
      return;
    }
    resp, prev' := answer, r;
    if Quiet(r) {
      QuietAfterCall(before, report, r, check);
    }
  }

  lemma RepeatsStep(answers: seq<Response>, a: Response)
    ensures Repeats(answers + [a]) == if a == LastAnswer(answers) then 1 + Repeats(answers) else 0
    ensures LastAnswer(answers + [a]) == a
  {
    assert (answers + [a])[..|answers|] == answers;
  }

  /** Drain calls and the final mark are not rounds and reset nothing. */
  lemma {:induction false} FinalsHarmless(before: seq<Event>, trace: seq<Event>)
    requires before <= trace && (forall i :: |before| <= i < |trace| ==> IsFinal(trace[i]))
    ensures RoundAnswers(trace) == RoundAnswers(before) && Resets(trace) == Resets(before)
    ensures ReportsJustified(before) ==> ReportsJustified(trace)
    decreases |trace|
  {
    if |trace| > |before| {
      FinalsHarmless(before, trace[..|trace| - 1]);
      assert forall i :: 0 <= i < |before| ==> trace[..i] == before[..i];
    } else {
      assert trace == before;
    }
  }

  /** The bound on the resets, before and after one more answer. */
  lemma ResetsAreBounded(trace: seq<Event>, answers: seq<Response>, min: int)
    requires answers <= RoundAnswers(trace) && ResetsSoFar(answers, Resets(trace), min)
    ensures ResetsBounded(trace)
  {
    assert forall k :: 0 <= k < |answers| ==> answers[k] == RoundAnswers(trace)[k];
  }

  lemma ResetStep(answers: seq<Response>, resets: nat, min: int, r: Response)
    requires ResetsSoFar(answers, resets, min)
    ensures var count := Wrap(Sum(r));
            if count < min then ResetsSoFar(answers + [r], resets + 1, count)
            else ResetsSoFar(answers + [r], resets, min)
  {
    var more := answers + [r];
    assert more[|answers|] == r && forall k :: 0 <= k < |answers| ==> more[k] == answers[k];
  }

  /** Marks done: the run ends with a full set of successful drains and the final mark. */
  ghost predicate EndsMarked(cfg: Config, trace: seq<Event>) {
    exists before :: trace == before + Drains(cfg.nodeIDs, cfg.localNodeID) + [MarkDecommissioned(true)]
  }

  /** The closing steps, seen from the loop. */
  method Conclude(cfg: Config, before: seq<Event>) returns (trace: seq<Event>, outcome: Outcome)
    requires EndsQuiet(before) && NoFinal(before) && ReportsJustified(before) && ResetsBounded(before)
    ensures before <= trace && RoundAnswers(trace) == RoundAnswers(before)
    ensures FinishedProperly(cfg, trace) && ReportsJustified(trace) && ResetsBounded(trace)
    ensures outcome == Done ==> EndsMarked(cfg, trace)
  {
    trace, outcome := Finish(cfg, before);
    FinalsHarmless(before, trace);
  }

  /** One turn of the retry loop behind an answer that is not quiet. */
  method Rate(trace: seq<Event>, ghost answers: seq<Response>, r: Response, min: int)
    returns (now: seq<Event>, min': int)
    requires NoFinal(trace) && ReportsJustified(trace) && RoundAnswers(trace) == answers + [r]
    requires ResetsSoFar(answers, Resets(trace), min)
    ensures trace <= now && NoFinal(now) && ReportsJustified(now) && RoundAnswers(now) == RoundAnswers(trace)
    ensures ResetsSoFar(RoundAnswers(now), Resets(now), min')
  {
    var anyActive, replicaCount := Tally(r);
    ResetStep(answers, Resets(trace), min, r);
    now, min' := trace, min;
    if replicaCount < min {
      Appended(trace, Reset);
      CallAppended(trace, Reset);
      now, min' := trace + [Reset], replicaCount;
    }
  }

  /** The retry loop.  patience is how often it comes around before the context is cancelled. */
  method Drive(cfg: Config, start: seq<Event>, patience: nat) returns (trace: seq<Event>, outcome: Outcome)
    requires NoFinal(start) && ReportsJustified(start) && RoundAnswers(start) == [] && Resets(start) == 0
    ensures start <= trace
    ensures FinishedProperly(cfg, trace) && ReportsJustified(trace) && ResetsBounded(trace)
    ensures outcome == Done && !cfg.waitNone ==> EndsMarked(cfg, trace)
    ensures cfg.waitNone ==> |RoundAnswers(trace)| <= 1
  {
    trace, outcome := start, Error;
    var prev: Response := [];
    var same, report, min := 0, 0, MAX_INT64;
    for i := 0 to patience
      invariant start <= trace && NoFinal(trace) && ReportsJustified(trace)
      invariant prev == LastAnswer(RoundAnswers(trace)) && Stalled(Repeats(RoundAnswers(trace)), same, report)
      invariant ResetsSoFar(RoundAnswers(trace), Resets(trace), min)
      invariant cfg.waitNone ==> RoundAnswers(trace) == []
    {
      ghost var answers := RoundAnswers(trace);
      var resp;
      trace, resp, prev, same, report := Round(cfg, trace, prev, same, report);
      ResetsAreBounded(trace, answers, min);
      if resp.None? {
        return;
      }
      var anyActive, replicaCount := Tally(resp.value);
      if !anyActive && replicaCount == 0 {
        trace, outcome := Conclude(cfg, trace);
        return;
      }
      if cfg.waitNone {
        outcome := Done;
        return;
      }
      trace, min := Rate(trace, answers, resp.value, min);
    }
    ResetsAreBounded(trace, RoundAnswers(trace), min);
  }

  /** The start of a trace: the pre-check, if there is one, and at most a status query. */
  ghost predicate OnlyReads(trace: seq<Event>) {
    && NoFinal(trace) && ReportsJustified(trace) && RoundAnswers(trace) == [] && Resets(trace) == 0
    && forall i :: 0 <= i < |trace| ==> !Mutates(trace[i])
  }

  lemma ReadAppended(trace: seq<Event>, e: Event)
    requires OnlyReads(trace) && (e.PreCheck? || e.StatusQuery?)
    ensures OnlyReads(trace + [e])
  {
    Appended(trace, e);
  }

  lemma ReadsAreProper(cfg: Config, trace: seq<Event>)
    requires OnlyReads(trace)
    ensures FinishedProperly(cfg, trace) && ResetsBounded(trace)
  {}

  /** The pre-check and the dry run, up to the loop. */
  method Begin(cfg: Config) returns (trace: seq<Event>, outcome: Outcome, go: bool)
    ensures OnlyReads(trace) && (cfg.checks != Skip ==> trace != [] && trace[0].PreCheck?)
    ensures cfg.dryRun ==> !go
    ensures cfg.checks != Skip && (trace[0].verdict.None? || !PreCheckReady(trace[0].verdict)) ==> !go && outcome == Error
    ensures !go && outcome == Done ==> cfg.dryRun
  {
    trace, outcome, go := [], Error, false;
    var preCheckResp: Option<seq<Readiness>> := None;
    if cfg.checks != Skip {
      preCheckResp := *;
      ReadAppended([], PreCheck(preCheckResp));
      trace := [] + [PreCheck(preCheckResp)];
      if preCheckResp.None? {
        return;
      }
    }
    if cfg.dryRun || !PreCheckReady(preCheckResp) {
      var answered: bool := *;
      var printed: bool := *;
      ReadAppended(trace, StatusQuery(answered));
      trace := trace + [StatusQuery(answered)];
      if answered && printed && PreCheckReady(preCheckResp) {
        outcome := Done;
      }
      return;
    }
    go := true;
  }

  /** runDecommissionNodeImpl. */
  method Decommission(cfg: Config, patience: nat) returns (trace: seq<Event>, outcome: Outcome)
    ensures cfg.checks != Skip ==> trace != [] && trace[0].PreCheck?
    // A dry run or a failed pre-check changes nothing.
    ensures cfg.dryRun ==> forall i :: 0 <= i < |trace| ==> !Mutates(trace[i])
    ensures cfg.checks != Skip && (trace[0].verdict.None? || !PreCheckReady(trace[0].verdict)) ==>
              outcome == Error && forall i :: 0 <= i < |trace| ==> !Mutates(trace[i])
    ensures FinishedProperly(cfg, trace) && ReportsJustified(trace) && ResetsBounded(trace)
    ensures outcome == Done && !cfg.dryRun && !cfg.waitNone ==> EndsMarked(cfg, trace)
    ensures cfg.waitNone ==> |RoundAnswers(trace)| <= 1
  {
    var go;
    trace, outcome, go := Begin(cfg);
    ReadsAreProper(cfg, trace);
    if go {
      trace, outcome := Drive(cfg, trace, patience);
    }
  }
}
