/** How many claims all workers together can still make when no new work arrives, whatever crashes,
    lost replies and cancels happen (framework/queue/service.go, dequeue;
    framework/queue/repository.go, ClaimReadyItems). */
module QueueBudget {
  import opened Options
  import opened QueueTypes
  import opened Backoff
  import opened QueueProtocol
  import opened QueueSafety
  import opened QueueService
  import opened QueueSums
  import opened QueueExecutor

  /** An item waiting or in a call's hands can still get the claims its settings leave it. */
  ghost function Left(cfgs: Configs, s: State, tag: string, id: Id): int
    requires id in s.store
  {
    if s.store[id].tag == tag && (Claimable(s.store[id].status) || IsHeld(s, id)) then
      Max(1, cfgs(tag).maxAttempts) - s.store[id].attempts
    else 0
  }

  ghost function AllLeft(cfgs: Configs, s: State, tag: string): map<Id, int> {
    map id | id in s.store :: Left(cfgs, s, tag, id)
  }

  ghost function Budget(cfgs: Configs, s: State, tag: string): int {
    Sum(AllLeft(cfgs, s, tag), s.store.Keys)
  }

  /** Claims of a tag's items. */
  ghost function TagClaims(s: State, tag: string): nat {
    CountIn(s.log, TagIds(s.store, tag))
  }

  function TagIds(store: Store, tag: string): set<Id> {
    set id | id in store && store[id].tag == tag
  }

  function CountIn(log: seq<Claim>, ids: set<Id>): nat {
    if log == [] then 0 else CountIn(log[..|log| - 1], ids) + (if log[|log| - 1].id in ids then 1 else 0)
  }

  ghost predicate Steady(cfgs: Configs, s: State) {
    InvLog(s) && InvHeld(s) && InvAttempts(cfgs, s)
  }

  /** The item a step claims, if any. */
  ghost function Claimed(s: State, step: Step): Option<Id>
    requires Enabled(s, step)
  {
    match step
    case ClaimOne(c) => First(s.store, s.calls[c].tag, s.calls[c].at)
    case ClaimError(c, applied) => if applied then First(s.store, s.calls[c].tag, s.calls[c].at) else None
    case _ => None
  }

  lemma StepLog(cfgs: Configs, s: State, step: Step)
    requires Enabled(s, step) && !step.Enqueue?
    ensures var r, x := Next(cfgs, s, step), Claimed(s, step);
      && r.store.Keys == s.store.Keys && (forall id :: id in s.store ==> r.store[id].tag == s.store[id].tag)
      && (x.None? ==> r.log == s.log)
      && (x.Some? ==>
            && x.value in s.store && |r.log| == |s.log| + 1
            && r.log[..|s.log|] == s.log && r.log[|s.log|].id == x.value)
  {
    hide RetryBackoff, Decide;
  }

  /** No step leaves an item more claims than it had, and a claim uses one up. */
  lemma StepLeft(cfgs: Configs, s: State, step: Step, tag: string, id: Id)
    requires Steady(cfgs, s) && Enabled(s, step) && Tame(step) && !step.Enqueue? && id in s.store
    ensures var r := Next(cfgs, s, step);
            var spent := if s.store[id].tag == tag && Claimed(s, step) == Some(id) then 1 else 0;
      id in r.store && Left(cfgs, r, tag, id) <= Left(cfgs, s, tag, id) - spent
  {
    hide RetryBackoff, WellNumbered, CountClaims, Exclusive;
    var r := Next(cfgs, s, step);
    StepLog(cfgs, s, step);
    StepKeepsAttempts(cfgs, s, step);
    assert AttemptsOk(cfgs(s.store[id].tag), s.store[id]) && AttemptsOk(cfgs(r.store[id].tag), r.store[id]);
    if IsHeld(r, id) && Claimed(s, step) != Some(id) {
      StillHeld(cfgs, s, step, id);
    }
    StepStatus(cfgs, s, step, id);
  }

  lemma StillHeld(cfgs: Configs, s: State, step: Step, id: Id)
    requires Enabled(s, step) && IsHeld(Next(cfgs, s, step), id) && Claimed(s, step) != Some(id)
    ensures IsHeld(s, id)
  {
    hide RetryBackoff, Decide;
    var r := Next(cfgs, s, step);
    var d, j :| Holds(r, d, j) && r.calls[d].items[j].id == id;
    var i := if step.Finish? && step.c == d then j + 1 else j;
    assert Holds(s, d, i) && s.calls[d].items[i].id == id;
  }

  /** Only a claim raises attempts, and an item becomes claimable only from a holder's hands. */
  lemma StepStatus(cfgs: Configs, s: State, step: Step, id: Id)
    requires InvHeld(s) && Enabled(s, step) && Tame(step) && !step.Enqueue? && id in s.store
    ensures var r := Next(cfgs, s, step);
      && id in r.store && r.store[id].tag == s.store[id].tag
      && r.store[id].attempts == s.store[id].attempts + (if Claimed(s, step) == Some(id) then 1 else 0)
      && (Claimed(s, step) == Some(id) ==> Claimable(s.store[id].status))
      && (Claimable(r.store[id].status) ==> Claimable(s.store[id].status) || IsHeld(s, id))
  {
    hide RetryBackoff, Decide, Exclusive;
    if step.Finish? {
      assert Holds(s, step.c, 0);
    }
  }

  /** Claims of two stretches of a run add up. */
  lemma {:induction false} CountInConcat(a: seq<Claim>, b: seq<Claim>, ids: set<Id>)
    ensures CountIn(a + b, ids) == CountIn(a, ids) + CountIn(b, ids)
    decreases |b|
  {
    if b == [] {
      assert a + b == a;
    } else {
      assert (a + b)[..|a + b| - 1] == a + b[..|b| - 1];
      CountInConcat(a, b[..|b| - 1], ids);
    }
  }

  lemma CountInSnoc(log: seq<Claim>, longer: seq<Claim>, ids: set<Id>)
    requires |longer| == |log| + 1 && longer[..|log|] == log
    ensures CountIn(longer, ids) == CountIn(log, ids) + (if longer[|log|].id in ids then 1 else 0)
  {
  }

  lemma StepBudget(cfgs: Configs, s: State, step: Step, tag: string)
    requires Steady(cfgs, s) && Enabled(s, step) && Tame(step) && !step.Enqueue?
    ensures var r := Next(cfgs, s, step);
      TagClaims(r, tag) + Budget(cfgs, r, tag) <= TagClaims(s, tag) + Budget(cfgs, s, tag)
  {
    hide RetryBackoff, Decide, Left, Steady, Claimed, CountIn, Next, Enabled, Tame;
    var r, x := Next(cfgs, s, step), Claimed(s, step);
    StepLog(cfgs, s, step);
    assert TagIds(r.store, tag) == TagIds(s.store, tag);
    var drop := if x.Some? && x.value in TagIds(s.store, tag) then {x.value} else {};
    forall id | id in s.store
      ensures id in r.store && Left(cfgs, r, tag, id) <= Left(cfgs, s, tag, id) - (if id in drop then 1 else 0)
    {
      StepLeft(cfgs, s, step, tag, id);
    }
    BudgetDrops(cfgs, s, r, tag, drop);
    if x.Some? {
      CountInSnoc(s.log, r.log, TagIds(s.store, tag));
    }
  }

  lemma BudgetDrops(cfgs: Configs, s: State, r: State, tag: string, drop: set<Id>)
    requires r.store.Keys == s.store.Keys && drop <= s.store.Keys
    requires forall id :: id in s.store ==>
      Left(cfgs, r, tag, id) <= Left(cfgs, s, tag, id) - (if id in drop then 1 else 0)
    ensures Budget(cfgs, r, tag) <= Budget(cfgs, s, tag) - |drop|
  {
    hide Left;
    SumDrops(AllLeft(cfgs, s, tag), AllLeft(cfgs, r, tag), s.store.Keys, drop);
    assert s.store.Keys * drop == drop;
  }

  lemma BudgetPositive(cfgs: Configs, s: State, tag: string)
    requires InvAttempts(cfgs, s)
    ensures Budget(cfgs, s, tag) >= 0
  {
    hide IsHeld;
    forall id | id in s.store ensures AllLeft(cfgs, s, tag)[id] >= 0 {
      assert AttemptsOk(cfgs(s.store[id].tag), s.store[id]);
    }
    SumPositive(AllLeft(cfgs, s, tag), s.store.Keys);
  }

  /** From any steady state, with no new work, all workers together make at most as many claims of a
      tag's items as those waiting or held have left, whatever happens. */
  lemma {:induction false} ClaimsWithinBudget(cfgs: Configs, s: State, steps: seq<Step>, tag: string)
    requires Steady(cfgs, s) && IsRun(cfgs, s, steps) && TameRun(steps)
    requires forall i :: 0 <= i < |steps| ==> !steps[i].Enqueue?
    ensures var e := Exec(cfgs, s, steps);
      && Steady(cfgs, e)
      && TagClaims(e, tag) + Budget(cfgs, e, tag) <= TagClaims(s, tag) + Budget(cfgs, s, tag)
      && TagClaims(e, tag) - TagClaims(s, tag) <= Budget(cfgs, s, tag)
    decreases |steps|
  {
    hide RetryBackoff, Decide, WellNumbered, CountClaims, TagClaims, Budget;
    if steps == [] {
      BudgetPositive(cfgs, s, tag);
    } else {
      var r := Next(cfgs, s, steps[0]);
      StepKeepsLog(cfgs, s, steps[0]);
      StepKeepsHeld(cfgs, s, steps[0]);
      StepKeepsAttempts(cfgs, s, steps[0]);
      StepBudget(cfgs, s, steps[0], tag);
      assert forall i :: 0 <= i < |steps[1..]| ==> steps[1..][i] == steps[i + 1];
      ClaimsWithinBudget(cfgs, r, steps[1..], tag);
      BudgetPositive(cfgs, Exec(cfgs, s, steps), tag);
    }
  }

  /** Every state a tame run reaches is steady, and with nothing of the tag in any call's hands the
      budget is what a drain counts. */
  lemma ReachableIsSteady(cfgs: Configs, steps: seq<Step>)
    requires IsRun(cfgs, Initial(), steps) && TameRun(steps)
    ensures Steady(cfgs, Exec(cfgs, Initial(), steps))
  {
    hide RetryBackoff, Decide;
    RunKeepsAttempts(cfgs, Initial(), steps);
  }

  lemma BudgetIsRemaining(cfgs: Configs, s: State, tag: string)
    requires forall id :: id in s.store && s.store[id].tag == tag ==> !IsHeld(s, id)
    ensures Budget(cfgs, s, tag) == Remaining(cfgs(tag), tag, s.store)
  {
    hide IsHeld;
    assert AllLeft(cfgs, s, tag) == Weights(cfgs(tag), tag, s.store);
  }
}
