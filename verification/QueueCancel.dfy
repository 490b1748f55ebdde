/** When a cancel sticks, and what the excluded moves can do
    (framework/queue/service.go, Cancel, BulkCancel, UpdateQueueItemStatus). */
module QueueCancel {
  import opened Options
  import opened QueueTypes
  import opened Backoff
  import opened QueueProtocol
  import opened QueueSafety

  predicate LeavesAlone(step: Step, id: Id) {
    step.ForceStatus? ==> step.id != id
  }

  ghost predicate RunLeavesAlone(steps: seq<Step>, id: Id) {
    forall i :: 0 <= i < |steps| ==> LeavesAlone(steps[i], id)
  }

  /** Stored with a status no claim takes, and in no call's hands. */
  ghost predicate Locked(s: State, id: Id) {
    id in s.store && !Claimable(s.store[id].status) && !IsHeld(s, id)
  }

  lemma StepKeepsLocked(cfgs: Configs, s: State, step: Step, id: Id)
    requires Locked(s, id) && Enabled(s, step) && LeavesAlone(step, id)
    ensures var r := Next(cfgs, s, step);
      && Locked(r, id) && CountClaims(r.log, id) == CountClaims(s.log, id)
      && r.store[id].status in {s.store[id].status, Canceled}
  {
    hide RetryBackoff, Decide, CountClaims;
    var r := Next(cfgs, s, step);
    match step
    case ClaimOne(c) =>
      CountAppend(s.log, r.log[|s.log|]);
      forall d, i | Holds(r, d, i) ensures r.calls[d].items[i].id != id {
        assert Holds(s, d, i) ==> s.calls[d].items[i].id != id;
      }
    case ClaimError(c, applied) =>
      if r.log != s.log {
        CountAppend(s.log, r.log[|s.log|]);
      }
      forall d, i | Holds(r, d, i) ensures r.calls[d].items[i].id != id {
        assert Holds(s, d, i);
      }
    case Finish(c, _, _, _) =>
      assert Holds(s, c, 0);
      forall d, i | Holds(r, d, i) ensures r.calls[d].items[i].id != id {
        assert Holds(s, d, if d == c then i + 1 else i);
      }
    case _ =>
      forall d, i | Holds(r, d, i) ensures r.calls[d].items[i].id != id {
        assert Holds(s, d, i);
      }
  }

  lemma {:induction false} RunKeepsLocked(cfgs: Configs, s: State, steps: seq<Step>, id: Id)
    requires Locked(s, id) && IsRun(cfgs, s, steps) && RunLeavesAlone(steps, id)
    ensures var e := Exec(cfgs, s, steps);
      && Locked(e, id) && CountClaims(e.log, id) == CountClaims(s.log, id)
      && e.store[id].status in {s.store[id].status, Canceled}
    decreases |steps|
  {
    if steps != [] {
      StepKeepsLocked(cfgs, s, steps[0], id);
      RunKeepsLocked(cfgs, Next(cfgs, s, steps[0]), steps[1..], id);
    }
  }

  /** In every continuation that does not force this item's status, the item stays canceled
      and is never claimed. */
  ghost predicate StaysCanceled(cfgs: Configs, s: State, id: Id) {
    forall steps :: IsRun(cfgs, s, steps) && RunLeavesAlone(steps, id) ==>
      var e := Exec(cfgs, s, steps);
      id in e.store && e.store[id].status == Canceled && CountClaims(e.log, id) == CountClaims(s.log, id)
  }

  /** A holder can always get out of its claim phase, with what it held still in place. */
  lemma {:induction false} StopClaiming(cfgs: Configs, s: State, c: CallId, i: int) returns (steps: seq<Step>)
    requires Holds(s, c, i)
    ensures IsRun(cfgs, s, steps) && forall k :: 0 <= k < |steps| ==> !steps[k].ForceStatus?
    ensures var e := Exec(cfgs, s, steps);
      && Holds(e, c, i) && !e.calls[c].claiming && e.calls[c].items[i] == s.calls[c].items[i]
      && s.store.Keys <= e.store.Keys
    decreases s.calls[c].limit - |s.calls[c].items|
  {
    if !s.calls[c].claiming {
      steps := [];
    } else if Enabled(s, ClaimDone(c)) {
      steps := [ClaimDone(c)];
    } else {
      var rest := StopClaiming(cfgs, Next(cfgs, s, ClaimOne(c)), c, i);
      steps := [ClaimOne(c)] + rest;
      assert steps[1..] == rest;
    }
  }

  /** A call past its claim phase can finish its items up to the i-th with any status. */
  lemma {:induction false} FinishUpTo(cfgs: Configs, s: State, c: CallId, i: int, status: Status)
    returns (steps: seq<Step>)
    requires Holds(s, c, i) && !s.calls[c].claiming && s.calls[c].items[i].id in s.store && status != Retry
    ensures IsRun(cfgs, s, steps) && forall k :: 0 <= k < |steps| ==> !steps[k].ForceStatus?
    ensures var e, id := Exec(cfgs, s, steps), s.calls[c].items[i].id;
      id in e.store && e.store[id].status == status
    decreases i
  {
    var step := Finish(c, Acked(status), 0, true);
    if i == 0 {
      steps := [step];
    } else {
      var rest := FinishUpTo(cfgs, Next(cfgs, s, step), c, i - 1, status);
      steps := [step] + rest;
      assert steps[1..] == rest;
    }
  }

  /** A cancel is permanent exactly when no call holds the item at that moment: a holder's
      final update overwrites the canceled status. */
  lemma CancelSticksIffNotHeld(cfgs: Configs, s: State, ids: set<Id>, message: string, now: Time, id: Id)
    requires id in ids && id in s.store
    ensures StaysCanceled(cfgs, Next(cfgs, s, Cancel(ids, message, now)), id) <==> !IsHeld(s, id)
  {
    var t := Next(cfgs, s, Cancel(ids, message, now));
    assert forall c, i :: Holds(t, c, i) <==> Holds(s, c, i);
    if !IsHeld(s, id) {
      forall steps | IsRun(cfgs, t, steps) && RunLeavesAlone(steps, id)
        ensures var e := Exec(cfgs, t, steps);
          id in e.store && e.store[id].status == Canceled && CountClaims(e.log, id) == CountClaims(t.log, id)
      {
        RunKeepsLocked(cfgs, t, steps, id);
      }
    } else {
      var c, i :| Holds(s, c, i) && s.calls[c].items[i].id == id;
      var a := StopClaiming(cfgs, t, c, i);
      var u := Exec(cfgs, t, a);
      var b := FinishUpTo(cfgs, u, c, i, Completed);
      RunConcat(cfgs, t, a, b);
      assert RunLeavesAlone(a + b, id);
      assert Exec(cfgs, t, a + b).store[id].status == Completed;
    }
  }

  // ---------- when a forced status splits an item ----------

  /** Some tame continuation leaves an item with two holders. */
  ghost predicate CanSplit(cfgs: Configs, s: State) {
    exists steps :: IsRun(cfgs, s, steps) && TameRun(steps) && !Exclusive(Exec(cfgs, s, steps))
  }

  lemma {:induction false} FreshCall(used: set<CallId>) returns (c: CallId)
    ensures forall x :: x in used ==> x < c
    decreases used
  {
    if used == {} {
      c := 0;
    } else {
      var x :| x in used;
      var above := FreshCall(used - {x});
      c := Max(above, x + 1);
      assert forall y :: y in used ==> y == x || y in used - {x};
    }
  }

  /** From s to e item id was claimed by call c, and no other call changed. */
  ghost predicate Claims(s: State, e: State, c: CallId, id: Id) {
    && (exists k :: Holds(e, c, k) && e.calls[c].items[k].id == id)
    && CountClaims(e.log, id) > CountClaims(s.log, id)
    && forall d :: d in s.calls && d != c ==> d in e.calls && e.calls[d] == s.calls[d]
  }

  /** A call with room for everything ready reaches every ready item. */
  lemma {:induction false} ClaimUntil(cfgs: Configs, s: State, c: CallId, id: Id) returns (steps: seq<Step>)
    requires c in s.calls && s.calls[c].claiming && id in ReadySet(s.store, s.calls[c].tag, s.calls[c].at)
    requires |s.calls[c].items| + |ReadySet(s.store, s.calls[c].tag, s.calls[c].at)| <= s.calls[c].limit
    ensures IsRun(cfgs, s, steps) && forall k :: 0 <= k < |steps| ==> steps[k].ClaimOne?
    ensures Claims(s, Exec(cfgs, s, steps), c, id)
    decreases |ReadySet(s.store, s.calls[c].tag, s.calls[c].at)|
  {
    hide RetryBackoff, Decide, Ready;
    var call, step := s.calls[c], ClaimOne(c);
    var x := First(s.store, call.tag, call.at).value;
    var r := Next(cfgs, s, step);
    ReadyAfterClaim(s.store, call.tag, call.at, x);
    CountAppend(s.log, r.log[|s.log|]);
    if x == id {
      assert Holds(r, c, |call.items|) && r.calls[c].items[|call.items|].id == id;
      RunOne(cfgs, s, step);
      steps := [step];
    } else {
      var rest := ClaimUntil(cfgs, r, c, id);
      steps := [step] + rest;
      assert steps[1..] == rest;
    }
  }

  /** A new call with room for everything and late enough for an item finds it ready. */
  lemma BeginFor(cfgs: Configs, s: State, id: Id, c: CallId) returns (begin: Step)
    requires id in s.store && Claimable(s.store[id].status) && c !in s.calls
    ensures begin.Begin? && Enabled(s, begin)
    ensures var u := Next(cfgs, s, begin);
      && u.store == s.store && u.log == s.log
      && c in u.calls && u.calls == s.calls[c := u.calls[c]] && u.calls[c].claiming && u.calls[c].items == []
      && id in ReadySet(u.store, u.calls[c].tag, u.calls[c].at)
      && |ReadySet(u.store, u.calls[c].tag, u.calls[c].at)| <= u.calls[c].limit
  {
    var doc := s.store[id];
    var at := if doc.scheduledAt.Some? then doc.scheduledAt.value else 0;
    begin := Begin(c, doc.tag, at, |ReadySet(s.store, doc.tag, at)|);
  }

  /** A new call can claim any item whose status allows it. */
  lemma ClaimFresh(cfgs: Configs, s: State, id: Id) returns (steps: seq<Step>, c: CallId)
    requires id in s.store && Claimable(s.store[id].status)
    ensures IsRun(cfgs, s, steps) && TameRun(steps) && forall k :: 0 <= k < |steps| ==> !steps[k].ForceStatus?
    ensures c !in s.calls && Claims(s, Exec(cfgs, s, steps), c, id)
  {
    hide CountClaims, Next, Enabled, ReadySet;
    c := FreshCall(s.calls.Keys);
    var begin := BeginFor(cfgs, s, id, c);
    var u := Next(cfgs, s, begin);
    var rest := ClaimUntil(cfgs, u, c, id);
    steps := [begin] + rest;
    assert steps[1..] == rest;
    assert Exec(cfgs, s, steps) == Exec(cfgs, u, rest);
  }

  /** Forcing an item into a claimable status opens the way to a second holder exactly when
      some call holds the item at that moment. */
  lemma ForcedSplitIffHeld(cfgs: Configs, s: State, id: Id, status: Status, now: Time)
    requires InvLog(s) && InvHeld(s) && id in s.store && Claimable(status)
    ensures CanSplit(cfgs, Next(cfgs, s, ForceStatus(id, status, now))) <==> IsHeld(s, id)
  {
    hide RetryBackoff, Decide, WellNumbered, CountClaims;
    var step := ForceStatus(id, status, now);
    var t := Next(cfgs, s, step);
    if IsHeld(s, id) {
      var d, j :| Holds(s, d, j) && s.calls[d].items[j].id == id;
      var steps, c := ClaimFresh(cfgs, t, id);
      var e := Exec(cfgs, t, steps);
      assert Holds(e, d, j) && e.calls[d].items[j].id == id;
    } else {
      StepKeepsLog(cfgs, s, step);
      StepKeepsHeld(cfgs, s, step);
      forall steps | IsRun(cfgs, t, steps) && TameRun(steps) ensures Exclusive(Exec(cfgs, t, steps)) {
        TameIsPolite(cfgs, t, steps);
        RunKeepsHeld(cfgs, t, steps);
      }
    }
  }

  // ---------- what the excluded moves can do ----------

  const ITEM: Doc := NewDoc("t", "a", "", 2, None, 0)

  /** Item 0 stored and held by call 0, which has finished claiming. */
  ghost predicate OneHeld(s: State, attempts: int) {
    && s.store.Keys == {0} && s.store[0] == ITEM.(status := Dequeued, attempts := attempts)
    && s.calls == map[0 := Call("t", 0, 1, false, [Held(0, s.store[0])])]
    && CountClaims(s.log, 0) == attempts
  }

  lemma ClaimOnly(cfgs: Configs, s: State, c: CallId) returns (steps: seq<Step>)
    requires c !in s.calls && s.store.Keys == {0} && Ready(s.store[0], "t", 0)
    ensures IsRun(cfgs, s, steps)
    ensures steps == [Begin(c, "t", 0, 1), ClaimOne(c), ClaimDone(c)]
    ensures var d := ClaimedDoc(s.store[0], 0);
      Exec(cfgs, s, steps) == State(map[0 := d], s.calls[c := Call("t", 0, 1, false, [Held(0, d)])],
                                    s.log + [Claim(0, d.attempts, 0)])
  {
    hide RetryBackoff, Decide;
    var s1 := Next(cfgs, s, Begin(c, "t", 0, 1));
    assert 0 in ReadySet(s1.store, "t", 0);
    assert First(s1.store, "t", 0) == Some(0);
    var s2 := Next(cfgs, s1, ClaimOne(c));
    var s3 := Next(cfgs, s2, ClaimDone(c));
    RunOne(cfgs, s, Begin(c, "t", 0, 1));
    RunSnoc(cfgs, s, [Begin(c, "t", 0, 1)], ClaimOne(c));
    RunSnoc(cfgs, s, [Begin(c, "t", 0, 1)] + [ClaimOne(c)], ClaimDone(c));
    steps := [Begin(c, "t", 0, 1), ClaimOne(c), ClaimDone(c)];
    assert steps == [Begin(c, "t", 0, 1)] + [ClaimOne(c)] + [ClaimDone(c)];
    var d := ClaimedDoc(s.store[0], 0);
    assert s3.store == map[0 := d];
    assert [] + [Held(0, d)] == [Held(0, d)];
    assert s2.calls[c] == Call("t", 0, 1, true, [Held(0, d)]);
    assert s3.calls == s.calls[c := Call("t", 0, 1, false, [Held(0, d)])];
  }

  /** Forcing a held item back to pending lets a second call claim it: two holders. */
  lemma ForcedPendingSplitsHolder(cfgs: Configs) returns (steps: seq<Step>)
    ensures IsRun(cfgs, Initial(), steps) && !Exclusive(Exec(cfgs, Initial(), steps))
  {
    var enqueue := [Enqueue(0, ITEM)];
    var s1 := Next(cfgs, Initial(), enqueue[0]);
    assert Exec(cfgs, Initial(), enqueue) == s1;
    var first := ClaimOnly(cfgs, s1, 0);
    var s2 := Exec(cfgs, s1, first);
    var force := ForceStatus(0, Pending, 0);
    var s3 := Next(cfgs, s2, force);
    var second := ClaimOnly(cfgs, s3, 1);
    var s4 := Exec(cfgs, s3, second);
    RunConcat(cfgs, Initial(), enqueue, first);
    RunSnoc(cfgs, Initial(), enqueue + first, force);
    RunConcat(cfgs, Initial(), enqueue + first + [force], second);
    steps := enqueue + first + [force] + second;
    assert Holds(s4, 0, 0) && Holds(s4, 1, 0) && s4.calls[0].items[0].id == s4.calls[1].items[0].id;
  }

  /** Callbacks acknowledge only with these statuses, and nobody forces a claimable status. */
  ghost predicate AcksOnly(steps: seq<Step>, statuses: iset<Status>) {
    forall i :: 0 <= i < |steps| ==>
      && (steps[i].Finish? && steps[i].outcome.Acked? ==> steps[i].outcome.status in statuses)
      && !(steps[i].ForceStatus? && Claimable(steps[i].status))
  }

  /** From item 0 waiting as pending, one claim reaches the held state. */
  lemma HoldAgain(cfgs: Configs, s: State, n: nat) returns (steps: seq<Step>)
    requires s.store.Keys == {0} && s.store[0] == ITEM.(attempts := n) && s.calls == map[]
    requires CountClaims(s.log, 0) == n
    ensures IsRun(cfgs, s, steps) && OneHeld(Exec(cfgs, s, steps), n + 1)
    ensures AcksOnly(steps, iset{Pending})
  {
    steps := ClaimOnly(cfgs, s, 0);
    CountAppend(s.log, Claim(0, n + 1, 0));
  }

  /** A held item acknowledged with pending is back in the queue as if never claimed, but for
      its attempts. */
  lemma AckPending(cfgs: Configs, s: State, n: nat) returns (steps: seq<Step>)
    requires OneHeld(s, n)
    ensures IsRun(cfgs, s, steps) && AcksOnly(steps, iset{Pending})
    ensures var e := Exec(cfgs, s, steps);
      && e.store.Keys == {0} && e.store[0] == ITEM.(attempts := n) && e.calls == map[]
      && e.log == s.log
  {
    hide RetryBackoff;
    var finish := Finish(0, Acked(Pending), 0, true);
    steps := [finish, Return(0)];
    var s1 := Next(cfgs, s, finish);
    assert s.calls[0].items[1..] == [];
    assert s1.store[0] == ITEM.(attempts := n) && s1.calls == map[0 := Call("t", 0, 1, false, [])];
    var s2 := Next(cfgs, s1, Return(0));
    assert s2.calls == map[];
    RunOne(cfgs, s, finish);
    RunSnoc(cfgs, s, [finish], Return(0));
  }

  /** A callback that keeps acknowledging with pending gets its item back any number of times,
      whatever maxAttempts says. */
  lemma {:induction false} PendingAckUnbounded(cfgs: Configs, n: nat) returns (steps: seq<Step>)
    requires n >= 1
    ensures IsRun(cfgs, Initial(), steps) && OneHeld(Exec(cfgs, Initial(), steps), n)
    ensures AcksOnly(steps, iset{Pending})
  {
    var before: seq<Step>;
    if n == 1 {
      before := [Enqueue(0, ITEM)];
      assert Exec(cfgs, Initial(), before) == Next(cfgs, Initial(), before[0]);
    } else {
      var held := PendingAckUnbounded(cfgs, n - 1);
      var ack := AckPending(cfgs, Exec(cfgs, Initial(), held), n - 1);
      RunConcat(cfgs, Initial(), held, ack);
      before := held + ack;
    }
    var again := HoldAgain(cfgs, Exec(cfgs, Initial(), before), n - 1);
    RunConcat(cfgs, Initial(), before, again);
    steps := before + again;
  }

  /** No item is claimed more often than its tag's settings allow. */
  ghost predicate AttemptsHold(cfgs: Configs, statuses: iset<Status>) {
    forall steps, id ::
      IsRun(cfgs, Initial(), steps) && AcksOnly(steps, statuses) && id in Exec(cfgs, Initial(), steps).store ==>
      var e := Exec(cfgs, Initial(), steps);
      CountClaims(e.log, id) <= Max(1, cfgs(e.store[id].tag).maxAttempts)
  }

  /** The bound on attempts holds in all runs exactly when callbacks may not acknowledge with
      pending, whatever else they may acknowledge with. */
  lemma AttemptsHoldIff(cfgs: Configs, statuses: iset<Status>)
    ensures AttemptsHold(cfgs, statuses) <==> Pending !in statuses
  {
    hide RetryBackoff, Decide, CountClaims;
    if Pending in statuses {
      var n := Max(1, cfgs("t").maxAttempts) + 1;
      var steps := PendingAckUnbounded(cfgs, n);
      var e := Exec(cfgs, Initial(), steps);
      assert AcksOnly(steps, statuses) && 0 in e.store;
    } else {
      forall steps, id |
        IsRun(cfgs, Initial(), steps) && AcksOnly(steps, statuses) && id in Exec(cfgs, Initial(), steps).store
        ensures var e := Exec(cfgs, Initial(), steps);
          CountClaims(e.log, id) <= Max(1, cfgs(e.store[id].tag).maxAttempts)
      {
        AttemptsBounded(cfgs, steps, id);
      }
    }
  }
}
