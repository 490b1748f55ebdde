/** How far apart in time the claims of one item are, over whole runs
    (framework/queue/service.go, dequeue; framework/queue/repository.go, readyFilter). */
module QueueSpacing {
  import opened Options
  import opened QueueTypes
  import opened Backoff
  import opened QueueProtocol
  import opened QueueSafety

  /** `c` is the latest claim of its item in `log`. */
  ghost predicate IsLatest(log: seq<Claim>, i: int) {
    0 <= i < |log| && forall j :: i < j < |log| ==> log[j].id != log[i].id
  }

  ghost predicate LatestAt(log: seq<Claim>, id: Id, at: Time) {
    exists i :: IsLatest(log, i) && log[i].id == id && log[i].at == at
  }

  /** Consecutive claims of one item are at least the backoff of the earlier one apart. */
  ghost predicate Spaced(cfgs: Configs, store: Store, log: seq<Claim>) {
    forall i, j :: 0 <= i < |log| && 0 <= j < |log| && log[i].id == log[j].id && log[i].id in store
      && log[j].attempts == log[i].attempts + 1
      ==> log[j].at >= log[i].at + RetryBackoff(cfgs(store[log[i].id].tag), log[i].attempts)
  }

  /** A held item's call carries the `at` of the item's latest claim. */
  ghost predicate HeldTimed(s: State) {
    forall c, i :: Holds(s, c, i) ==> LatestAt(s.log, s.calls[c].items[i].id, s.calls[c].at)
  }

  /** Item `id` is scheduled one backoff after its latest claim, made at `t`. */
  ghost predicate DueAfter(cfgs: Configs, s: State, id: Id, t: Time)
    requires id in s.store
  {
    && LatestAt(s.log, id, t)
    && s.store[id].scheduledAt == Some(t + RetryBackoff(cfgs(s.store[id].tag), s.store[id].attempts))
  }

  ghost predicate RetryTimed(cfgs: Configs, s: State) {
    forall id :: id in s.store && s.store[id].status == Retry ==> exists t :: DueAfter(cfgs, s, id, t)
  }

  ghost predicate InvSpacing(cfgs: Configs, s: State) {
    Spaced(cfgs, s.store, s.log) && HeldTimed(s) && RetryTimed(cfgs, s)
  }

  ghost predicate Inv(cfgs: Configs, s: State) {
    InvLog(s) && InvHeld(s) && InvAttempts(cfgs, s) && InvSpacing(cfgs, s)
  }

  lemma {:induction false} CountPositive(log: seq<Claim>, i: nat)
    requires i < |log|
    ensures CountClaims(log, log[i].id) >= 1
    decreases |log|
  {
    if i < |log| - 1 {
      CountPositive(log[..|log| - 1], i);
    }
  }

  /** The latest claim of an item carries its claim count. */
  lemma {:induction false} LatestNumber(log: seq<Claim>, i: int, id: Id, n: nat)
    requires n <= |log| && IsLatest(log, i) && i < n && log[i].id == id
    ensures CountClaims(log[..n], id) == CountClaims(log[..i + 1], id)
    decreases n
  {
    if i + 1 < n {
      assert log[..n][..n - 1] == log[..n - 1];
      LatestNumber(log, i, id, n - 1);
    }
  }

  lemma LatestAppend(log: seq<Claim>, c: Claim)
    ensures LatestAt(log + [c], c.id, c.at)
    ensures forall id, t :: id != c.id && LatestAt(log, id, t) ==> LatestAt(log + [c], id, t)
  {
    var ext := log + [c];
    assert IsLatest(ext, |log|) && ext[|log|] == c;
    forall id, t | id != c.id && LatestAt(log, id, t) ensures LatestAt(ext, id, t) {
      var k :| IsLatest(log, k) && log[k].id == id && log[k].at == t;
      assert IsLatest(ext, k) && ext[k] == log[k];
    }
  }

  /** The heart of the spacing argument: an item that was claimed before can only be claimed
      again from `retry`, and then only once the schedule set after its latest claim has come. */
  lemma ReclaimIsLate(cfgs: Configs, s: State, id: Id, at: Time, i: nat)
    requires InvLog(s) && InvAttempts(cfgs, s) && RetryTimed(cfgs, s)
    requires id in s.store && Ready(s.store[id], s.store[id].tag, at)
    requires i < |s.log| && s.log[i].id == id && s.log[i].attempts == s.store[id].attempts
    ensures at >= s.log[i].at + RetryBackoff(cfgs(s.store[id].tag), s.log[i].attempts)
  {
    CountPositive(s.log, i);
    assert AttemptsOk(cfgs(s.store[id].tag), s.store[id]);
    var t :| DueAfter(cfgs, s, id, t);
    var k :| IsLatest(s.log, k) && s.log[k].id == id && s.log[k].at == t;
    LatestNumber(s.log, k, id, |s.log|);
    assert s.log[..|s.log|] == s.log;
    if i < k {
      NumbersIncrease(s.log, i, k);
    }
  }

  lemma GrabKeepsSpaced(cfgs: Configs, s: State, id: Id, at: Time)
    requires InvLog(s) && InvAttempts(cfgs, s) && InvSpacing(cfgs, s)
    requires id in s.store && Ready(s.store[id], s.store[id].tag, at)
    ensures Spaced(cfgs, Grab(s, id, at).store, Grab(s, id, at).log)
  {
    hide RetryBackoff, InvAttempts, RetryTimed, HeldTimed, WellNumbered, CountClaims;
    var g := Grab(s, id, at);
    var n := |s.log|;
    GrabKeepsLog(s, id, at);
    forall i, j | 0 <= i < |g.log| && 0 <= j < |g.log| && g.log[i].id == g.log[j].id && g.log[i].id in g.store
      && g.log[j].attempts == g.log[i].attempts + 1
      ensures g.log[j].at >= g.log[i].at + RetryBackoff(cfgs(g.store[g.log[i].id].tag), g.log[i].attempts)
    {
      if j < i {
        NumbersIncrease(g.log, j, i);
      } else if j == n {
        ReclaimIsLate(cfgs, s, id, at, i);
      } else {
        assert s.log[i] == g.log[i] && s.log[j] == g.log[j];
      }
    }
  }

  lemma GrabKeepsSpacing(cfgs: Configs, s: State, id: Id, at: Time)
    requires InvLog(s) && InvAttempts(cfgs, s) && InvSpacing(cfgs, s) && !IsHeld(s, id)
    requires id in s.store && Ready(s.store[id], s.store[id].tag, at)
    ensures var g := Grab(s, id, at); InvSpacing(cfgs, g) && LatestAt(g.log, id, at)
  {
    hide RetryBackoff, InvAttempts, InvLog, Spaced, LatestAt;
    var g := Grab(s, id, at);
    LatestAppend(s.log, g.log[|s.log|]);
    GrabKeepsSpaced(cfgs, s, id, at);
    forall x | x in g.store && g.store[x].status == Retry ensures exists t :: DueAfter(cfgs, g, x, t) {
      var t :| DueAfter(cfgs, s, x, t);
      assert DueAfter(cfgs, g, x, t);
    }
    forall c, i | Holds(g, c, i) ensures LatestAt(g.log, g.calls[c].items[i].id, g.calls[c].at) {
      assert Holds(s, c, i);
      assert s.calls[c].items[i].id != id;
    }
  }

  lemma ReceiveKeepsSpacing(cfgs: Configs, s: State, c: CallId, id: Id)
    requires InvSpacing(cfgs, s) && c in s.calls && id in s.store && LatestAt(s.log, id, s.calls[c].at)
    ensures InvSpacing(cfgs, Receive(s, c, id))
  {
    hide RetryBackoff, LatestAt;
    var r := Receive(s, c, id);
    forall d, i | Holds(r, d, i) ensures LatestAt(r.log, r.calls[d].items[i].id, r.calls[d].at) {
      if Holds(s, d, i) {
        assert r.calls[d].items[i] == s.calls[d].items[i];
      }
    }
    forall x | x in r.store && r.store[x].status == Retry ensures exists t :: DueAfter(cfgs, r, x, t) {
      var t :| DueAfter(cfgs, s, x, t);
      assert DueAfter(cfgs, r, x, t);
    }
  }

  lemma DropKeepsSpacing(cfgs: Configs, s: State, c: CallId)
    requires InvSpacing(cfgs, s)
    ensures InvSpacing(cfgs, Drop(s, c))
  {
    hide RetryBackoff, LatestAt;
    var r := Drop(s, c);
    forall d, i | Holds(r, d, i) ensures LatestAt(r.log, r.calls[d].items[i].id, r.calls[d].at) {
      assert Holds(s, d, i);
    }
    forall x | x in r.store && r.store[x].status == Retry ensures exists t :: DueAfter(cfgs, r, x, t) {
      var t :| DueAfter(cfgs, s, x, t);
      assert DueAfter(cfgs, r, x, t);
    }
  }

  /** An update leaves its document in `retry` either by rescheduling it one backoff after the
      call's `at`, or by forcing the status, which no decision does. */
  lemma DecidedRetry(cfg: Config, at: Time, item: Doc, o: Outcome, d: Doc, now: Time)
    requires Updated(d, Decide(cfg, at, item, o), now).status == Retry
    ensures Updated(d, Decide(cfg, at, item, o), now)
         == d.(status := Retry, scheduledAt := Some(at + RetryBackoff(cfg, item.attempts)), updatedAt := now)
  {
    hide RetryBackoff;
  }

  lemma FinishKeepsSpacing(cfgs: Configs, s: State, step: Step)
    requires InvSpacing(cfgs, s) && Enabled(s, step) && step.Finish? && Holds(s, step.c, 0) && HeldOk(s, step.c, 0)
    ensures InvSpacing(cfgs, Next(cfgs, s, step))
  {
    hide RetryBackoff, Decide, LatestAt;
    var r := Next(cfgs, s, step);
    var c, call := step.c, s.calls[step.c];
    var h := call.items[0];
    assert LatestAt(s.log, h.id, call.at);
    forall d, i | Holds(r, d, i) ensures LatestAt(r.log, r.calls[d].items[i].id, r.calls[d].at) {
      assert Holds(s, d, if d == c then i + 1 else i);
    }
    forall x | x in r.store && r.store[x].status == Retry ensures exists t :: DueAfter(cfgs, r, x, t) {
      if r.store[x] == s.store[x] {
        var t :| DueAfter(cfgs, s, x, t);
        assert DueAfter(cfgs, r, x, t);
      } else {
        assert x == h.id;
        DecidedRetry(cfgs(call.tag), call.at, h.doc, step.outcome, s.store[x], step.now);
        assert DueAfter(cfgs, r, x, call.at);
      }
    }
  }

  /** Steps that leave the log, tags and held items as they are and put nothing in `retry`. */
  lemma LogUntouched(cfgs: Configs, s: State, r: State)
    requires InvSpacing(cfgs, s) && r.log == s.log
    requires forall i :: 0 <= i < |s.log| ==> s.log[i].id in s.store
    requires forall id :: id in s.store ==> id in r.store && r.store[id].tag == s.store[id].tag
    requires forall id :: id in r.store && r.store[id].status == Retry ==> (
      && id in s.store && s.store[id].status == Retry && r.store[id].attempts == s.store[id].attempts
      && r.store[id].scheduledAt == s.store[id].scheduledAt)
    requires forall c, i :: Holds(r, c, i) ==> (
      Holds(s, c, i) && r.calls[c].items[i] == s.calls[c].items[i] && r.calls[c].at == s.calls[c].at)
    ensures InvSpacing(cfgs, r)
  {
    hide RetryBackoff, LatestAt;
    forall x | x in r.store && r.store[x].status == Retry ensures exists t :: DueAfter(cfgs, r, x, t) {
      var t :| DueAfter(cfgs, s, x, t);
      assert DueAfter(cfgs, r, x, t);
    }
    forall c, i | Holds(r, c, i) ensures LatestAt(r.log, r.calls[c].items[i].id, r.calls[c].at) {
      assert Holds(s, c, i);
    }
  }

  lemma LoggedIsStored(s: State)
    requires InvLog(s)
    ensures forall i :: 0 <= i < |s.log| ==> s.log[i].id in s.store
  {
    forall i | 0 <= i < |s.log| ensures s.log[i].id in s.store {
      CountPositive(s.log, i);
    }
  }

  lemma QuietKeepsSpacing(cfgs: Configs, s: State, step: Step)
    requires InvLog(s) && InvSpacing(cfgs, s) && Enabled(s, step) && Tame(step)
    requires !step.ClaimOne? && !step.ClaimError? && !step.Finish? && !step.Return? && !step.Crash?
    ensures InvSpacing(cfgs, Next(cfgs, s, step))
  {
    hide InvSpacing;
    LoggedIsStored(s);
    LogUntouched(cfgs, s, Next(cfgs, s, step));
  }

  lemma ClaimableNotHeld(s: State, id: Id)
    requires InvHeld(s) && id in s.store && Claimable(s.store[id].status)
    ensures !IsHeld(s, id)
  {
    forall c, i | Holds(s, c, i) ensures s.calls[c].items[i].id != id {
      assert HeldOk(s, c, i);
    }
  }

  lemma StepKeepsSpacing(cfgs: Configs, s: State, step: Step)
    requires Inv(cfgs, s) && Enabled(s, step) && Tame(step)
    ensures InvSpacing(cfgs, Next(cfgs, s, step))
  {
    hide RetryBackoff, LatestAt, Spaced, RetryTimed, HeldTimed, WellNumbered;
    var r := Next(cfgs, s, step);
    match step
    case ClaimOne(c) =>
      var id, at := First(s.store, s.calls[c].tag, s.calls[c].at).value, s.calls[c].at;
      ClaimableNotHeld(s, id);
      GrabKeepsSpacing(cfgs, s, id, at);
      ReceiveKeepsSpacing(cfgs, Grab(s, id, at), c, id);
    case ClaimError(c, applied) =>
      var first := First(s.store, s.calls[c].tag, s.calls[c].at);
      if applied && first.Some? {
        ClaimableNotHeld(s, first.value);
        GrabKeepsSpacing(cfgs, s, first.value, s.calls[c].at);
        DropKeepsSpacing(cfgs, Grab(s, first.value, s.calls[c].at), c);
      } else {
        DropKeepsSpacing(cfgs, s, c);
      }
    case Finish(c, _, _, _) =>
      assert Holds(s, c, 0);
      FinishKeepsSpacing(cfgs, s, step);
    case Return(c) => DropKeepsSpacing(cfgs, s, c);
    case Crash(c) => DropKeepsSpacing(cfgs, s, c);
    case _ => QuietKeepsSpacing(cfgs, s, step);
  }

  lemma {:induction false} RunKeepsSpacing(cfgs: Configs, s: State, steps: seq<Step>)
    requires Inv(cfgs, s) && IsRun(cfgs, s, steps) && TameRun(steps)
    ensures Inv(cfgs, Exec(cfgs, s, steps))
    decreases |steps|
  {
    if steps != [] {
      StepKeepsLog(cfgs, s, steps[0]);
      StepKeepsHeld(cfgs, s, steps[0]);
      StepKeepsAttempts(cfgs, s, steps[0]);
      StepKeepsSpacing(cfgs, s, steps[0]);
      RunKeepsSpacing(cfgs, Next(cfgs, s, steps[0]), steps[1..]);
    }
  }

  /** Attempt numbers have no gaps: below any claim there is one numbered one less. */
  lemma {:induction false} Predecessor(log: seq<Claim>, n: nat, id: Id, k: nat) returns (i: nat)
    requires WellNumbered(log) && n <= |log| && 1 <= k <= CountClaims(log[..n], id)
    ensures i < n && log[i].id == id && log[i].attempts == k
    decreases n
  {
    assert log[..n][..n - 1] == log[..n - 1];
    if CountClaims(log[..n - 1], id) >= k {
      i := Predecessor(log, n - 1, id, k);
    } else {
      i := n - 1;
    }
  }

  lemma {:induction false} SpacingSums(cfgs: Configs, s: State, i: nat, j: nat)
    requires InvLog(s) && InvSpacing(cfgs, s) && i < |s.log| && j < |s.log|
    requires s.log[i].id == s.log[j].id && s.log[i].id in s.store && s.log[i].attempts == 1
    ensures s.log[j].attempts >= 1
    ensures s.log[j].at >= s.log[i].at + SumBackoff(cfgs(s.store[s.log[i].id].tag), s.log[j].attempts)
    decreases s.log[j].attempts
  {
    var id, k := s.log[j].id, s.log[j].attempts;
    CountPositive(s.log[..j + 1], j);
    assert k >= 1;
    if k == 1 {
      if i < j { NumbersIncrease(s.log, i, j); } else if j < i { NumbersIncrease(s.log, j, i); }
    } else {
      var p := Predecessor(s.log, j + 1, id, k - 1);
      SpacingSums(cfgs, s, i, p);
    }
  }

  /** In every tame interleaving the k-th claim of an item happens, by its caller's own `at`,
      no earlier than the first claim's `at` plus all the backoffs in between. Nothing is
      assumed about clocks. */
  lemma ClaimsAreSpaced(cfgs: Configs, steps: seq<Step>, i: nat, j: nat)
    requires IsRun(cfgs, Initial(), steps) && TameRun(steps)
    requires var log := Exec(cfgs, Initial(), steps).log;
      i < |log| && j < |log| && log[i].id == log[j].id && log[i].attempts == 1
    ensures var e := Exec(cfgs, Initial(), steps);
      && e.log[i].id in e.store && e.log[j].attempts >= 1
      && e.log[j].at >= e.log[i].at + SumBackoff(cfgs(e.store[e.log[i].id].tag), e.log[j].attempts)
  {
    RunKeepsSpacing(cfgs, Initial(), steps);
    var e := Exec(cfgs, Initial(), steps);
    CountPositive(e.log, i);
    SpacingSums(cfgs, e, i, j);
  }

  /** With the cap out of reach the gap is at least base * (2^(k-1) - 1). */
  lemma ExponentialSpacing(cfgs: Configs, steps: seq<Step>, i: nat, j: nat)
    requires IsRun(cfgs, Initial(), steps) && TameRun(steps)
    requires var e := Exec(cfgs, Initial(), steps);
      && i < |e.log| && j < |e.log| && e.log[i].id == e.log[j].id && e.log[i].attempts == 1
      && e.log[i].id in e.store
      && (var cfg, k := cfgs(e.store[e.log[i].id].tag), e.log[j].attempts;
          && 0 < cfg.base <= TWO_53 && cfg.maxBackoff < TWO_63
          && (k >= 2 ==> Doubled(cfg.base, k - 2) <= cfg.maxBackoff))
    ensures var e := Exec(cfgs, Initial(), steps);
            var base := cfgs(e.store[e.log[i].id].tag).base;
      && e.log[j].attempts >= 1
      && e.log[j].at - e.log[i].at >= Doubled(base, e.log[j].attempts - 1) - base
  {
    ClaimsAreSpaced(cfgs, steps, i, j);
    var e := Exec(cfgs, Initial(), steps);
    SumBackoffClosed(cfgs(e.store[e.log[i].id].tag), e.log[j].attempts);
  }

  /** With or without the cap, as long as the exponentials fit a 64-bit duration, the gap is at
      least the sum of the capped exponentials. */
  lemma CappedSpacing(cfgs: Configs, steps: seq<Step>, i: nat, j: nat)
    requires IsRun(cfgs, Initial(), steps) && TameRun(steps)
    requires var e := Exec(cfgs, Initial(), steps);
      && i < |e.log| && j < |e.log| && e.log[i].id == e.log[j].id && e.log[i].attempts == 1
      && e.log[i].id in e.store
      && (var cfg, k := cfgs(e.store[e.log[i].id].tag), e.log[j].attempts;
          && 0 < cfg.base <= TWO_53 && cfg.maxBackoff < TWO_63
          && ((k >= 2 ==> Doubled(cfg.base, k - 2) < TWO_63) || cfg.overflow >= cfg.maxBackoff))
    ensures var e := Exec(cfgs, Initial(), steps);
      && e.log[j].attempts >= 1
      && e.log[j].at - e.log[i].at >= SumCapped(cfgs(e.store[e.log[i].id].tag), e.log[j].attempts)
  {
    ClaimsAreSpaced(cfgs, steps, i, j);
    var e := Exec(cfgs, Initial(), steps);
    SumBackoffCapped(cfgs(e.store[e.log[i].id].tag), e.log[j].attempts);
  }
}
