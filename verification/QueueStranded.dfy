/** Items no worker will ever get again, although nobody finished them
    (framework/queue/service.go, dequeue and IsEmpty; framework/queue/repository.go,
    ClaimReadyItems). */
module QueueStranded {
  import opened Options
  import opened QueueTypes
  import opened Backoff
  import opened QueueProtocol
  import opened QueueSafety
  import opened QueueCancel
  import opened QueueService

  /** In every continuation that does not force this item's status it is never claimed again. */
  ghost predicate NeverClaimedAgain(cfgs: Configs, s: State, id: Id) {
    forall steps :: IsRun(cfgs, s, steps) && RunLeavesAlone(steps, id) ==>
      CountClaims(Exec(cfgs, s, steps).log, id) == CountClaims(s.log, id)
  }

  lemma {:induction false} RunGrowsLog(cfgs: Configs, s: State, steps: seq<Step>, id: Id)
    requires IsRun(cfgs, s, steps)
    ensures CountClaims(s.log, id) <= CountClaims(Exec(cfgs, s, steps).log, id)
    decreases |steps|
  {
    hide RetryBackoff, Decide, CountClaims;
    if steps != [] {
      var r := Next(cfgs, s, steps[0]);
      assert s.log <= r.log;
      CountMono(r.log, |s.log|, id);
      assert r.log[..|s.log|] == s.log;
      RunGrowsLog(cfgs, r, steps[1..], id);
    }
  }

  /** A stored item is out of every worker's reach for good exactly when its status cannot be
      claimed and no call holds it. */
  lemma NeverClaimedIff(cfgs: Configs, s: State, id: Id)
    requires id in s.store
    ensures NeverClaimedAgain(cfgs, s, id) <==> !Claimable(s.store[id].status) && !IsHeld(s, id)
  {
    hide RetryBackoff, Decide, CountClaims;
    if Locked(s, id) {
      forall steps | IsRun(cfgs, s, steps) && RunLeavesAlone(steps, id)
        ensures CountClaims(Exec(cfgs, s, steps).log, id) == CountClaims(s.log, id)
      {
        RunKeepsLocked(cfgs, s, steps, id);
      }
    } else {
      var back := [];
      RunNone(cfgs, s);
      if !Claimable(s.store[id].status) {
        var c, i :| Holds(s, c, i) && s.calls[c].items[i].id == id;
        var a := StopClaiming(cfgs, s, c, i);
        var b := FinishUpTo(cfgs, Exec(cfgs, s, a), c, i, Pending);
        RunConcat(cfgs, s, a, b);
        back := a + b;
      }
      var u := Exec(cfgs, s, back);
      var again, c := ClaimFresh(cfgs, u, id);
      RunConcat(cfgs, s, back, again);
      RunGrowsLog(cfgs, s, back, id);
      assert RunLeavesAlone(back + again, id);
    }
  }

  /** Steps after which nobody has the item any more though nobody settled it: its holder
      crashes, its holder's update is lost, or the reply to its claim is. */
  ghost predicate Abandons(s: State, step: Step, id: Id)
    requires Enabled(s, step)
  {
    match step
    case Crash(c) => exists i :: Holds(s, c, i) && s.calls[c].items[i].id == id
    case Finish(c, _, _, applied) => !applied && s.calls[c].items[0].id == id
    case ClaimError(c, applied) => applied && First(s.store, s.calls[c].tag, s.calls[c].at) == Some(id)
    case _ => false
  }

  /** An abandoned item is never claimed again, and does not keep the queue from reading empty. */
  lemma AbandonedIsStranded(cfgs: Configs, s: State, step: Step, id: Id)
    requires InvLog(s) && InvHeld(s) && Enabled(s, step) && Abandons(s, step, id)
    ensures var r := Next(cfgs, s, step);
      && id in r.store && !Claimable(r.store[id].status)
      && NeverClaimedAgain(cfgs, r, id) && forall tag :: !Waiting(r.store, tag, id)
  {
    hide RetryBackoff, Decide, CountClaims, WellNumbered, NeverClaimedAgain;
    var r := Next(cfgs, s, step);
    StepKeepsHeld(cfgs, s, step);
    match step {
      case Crash(c) =>
        var i :| Holds(s, c, i) && s.calls[c].items[i].id == id;
        assert HeldOk(s, c, i);
        forall d, j | Holds(r, d, j) ensures r.calls[d].items[j].id != id {
          assert Holds(s, d, j);
        }
      case Finish(c, _, _, _) =>
        assert Holds(s, c, 0) && HeldOk(s, c, 0);
        forall d, j | Holds(r, d, j) ensures r.calls[d].items[j].id != id {
          assert Holds(s, d, if d == c then j + 1 else j);
        }
      case ClaimError(c, _) =>
        GrabKeepsHeld(s, id, s.calls[c].at);
        forall d, j | Holds(r, d, j) ensures r.calls[d].items[j].id != id {
          assert Holds(s, d, j);
        }
    }
    NeverClaimedIff(cfgs, r, id);
  }
}
