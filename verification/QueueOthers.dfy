/** What other callers do between the operations of one dequeue call: any steps of theirs, before
    each find-and-update and before each final update (framework/queue/repository.go,
    ClaimReadyItems; framework/queue/service.go, dequeue). */
module QueueOthers {
  import opened Options
  import opened QueueTypes
  import opened Backoff
  import opened QueueProtocol

  /** How one store operation went: fine, or an error reply with or without effect. */
  datatype Fault = Fine | Lost(applied: bool)

  /** The operations of one dequeue call: its k-th find-and-update, its k-th final update. */
  datatype Point = AtClaim(k: nat) | AtFinish(k: nat)

  /** What others do before each operation, as steps, and the store the operation then meets. */
  datatype Others = Others(steps: Point -> seq<Step>, meets: Point -> Store)

  ghost predicate Quiet(others: Others) {
    forall x :: others.steps(x) == []
  }

  /** The others' steps before operation x can be taken in state s and leave the store it meets. */
  ghost predicate Possible(cfgs: Configs, s: State, c: CallId, others: Others, x: Point) {
    Meanwhile(cfgs, s, c, others.steps(x), others.meets(x))
  }

  ghost predicate IsClaiming(s: State, c: CallId) {
    c in s.calls && s.calls[c].claiming
  }

  /** The others' doings are possible all through the claim phase of call c. */
  ghost predicate ClaimsPossible(cfgs: Configs, s: State, c: CallId, others: Others, faults: nat -> Fault)
    requires IsClaiming(s, c)
    decreases s.calls[c].limit - |s.calls[c].items|
  {
    var call := s.calls[c];
    var k := |call.items|;
    k < call.limit ==>
      && Possible(cfgs, s, c, others, AtClaim(k))
      && var t := Exec(cfgs, s, others.steps(AtClaim(k)));
         ForeignKeepsCall(cfgs, s, c, others.steps(AtClaim(k)));
         (|| faults(k) != Fine || First(t.store, call.tag, call.at).None?
          || ClaimsPossible(cfgs, Next(cfgs, t, ClaimOne(c)), c, others, faults))
  }

  /** The state in which the claim phase ends. */
  ghost function ClaimEnd(cfgs: Configs, s: State, c: CallId, others: Others, faults: nat -> Fault): State
    requires IsClaiming(s, c) && ClaimsPossible(cfgs, s, c, others, faults)
    decreases s.calls[c].limit - |s.calls[c].items|
  {
    var call := s.calls[c];
    var k := |call.items|;
    if k >= call.limit then Next(cfgs, s, ClaimDone(c))
    else
      var t := Exec(cfgs, s, others.steps(AtClaim(k)));
      ForeignKeepsCall(cfgs, s, c, others.steps(AtClaim(k)));
      if faults(k) != Fine then Next(cfgs, t, ClaimError(c, faults(k).applied))
      else if First(t.store, call.tag, call.at).None? then Next(cfgs, t, ClaimDone(c))
      else ClaimEnd(cfgs, Next(cfgs, t, ClaimOne(c)), c, others, faults)
  }

  ghost predicate IsFinishing(s: State, c: CallId) {
    c in s.calls && !s.calls[c].claiming
  }

  function FinishStep(c: CallId, h: Held, process: Held -> Outcome, now: Time, fault: Fault): Step {
    Finish(c, process(h), now, fault != Lost(false))
  }

  /** The same for the finish phase, from its i-th update on. */
  ghost predicate FinishesPossible(cfgs: Configs, s: State, c: CallId, others: Others, process: Held -> Outcome,
                                   clock: nat -> Time, faults: nat -> Fault, i: nat)
    requires IsFinishing(s, c)
    decreases |s.calls[c].items|
  {
    var items := s.calls[c].items;
    items != [] ==>
      && Possible(cfgs, s, c, others, AtFinish(i))
      && var t := Exec(cfgs, s, others.steps(AtFinish(i)));
         ForeignKeepsCall(cfgs, s, c, others.steps(AtFinish(i)));
         FinishesPossible(cfgs, Next(cfgs, t, FinishStep(c, items[0], process, clock(i), faults(i))), c, others,
                          process, clock, faults, i + 1)
  }

  lemma QuietMeets(cfgs: Configs, s: State, c: CallId, others: Others, x: Point)
    requires Possible(cfgs, s, c, others, x) && Quiet(others)
    ensures Exec(cfgs, s, others.steps(x)) == s && others.meets(x) == s.store
  {
    hide Enabled;
  }

  /** What an operation finds: the call as it was, and a quiet store as it was. */
  lemma Arrive(cfgs: Configs, s: State, c: CallId, others: Others, x: Point)
    requires c in s.calls && Possible(cfgs, s, c, others, x)
    ensures IsRun(cfgs, s, others.steps(x))
    ensures var t := Exec(cfgs, s, others.steps(x));
      && t.store == others.meets(x) && c in t.calls && t.calls[c] == s.calls[c]
      && (Quiet(others) ==> t == s)
  {
    hide Enabled, Next;
    ForeignKeepsCall(cfgs, s, c, others.steps(x));
    if Quiet(others) {
      QuietMeets(cfgs, s, c, others, x);
    }
  }

  /** Others' steps and then one own step, appended to a run. */
  lemma RunOn(cfgs: Configs, s: State, steps: seq<Step>, c: CallId, others: Others, x: Point, own: Step)
    requires IsRun(cfgs, s, steps) && Possible(cfgs, Exec(cfgs, s, steps), c, others, x)
    requires Enabled(Exec(cfgs, Exec(cfgs, s, steps), others.steps(x)), own)
    ensures var t := Exec(cfgs, Exec(cfgs, s, steps), others.steps(x));
            var longer := steps + others.steps(x) + [own];
      IsRun(cfgs, s, longer) && Exec(cfgs, s, longer) == Next(cfgs, t, own)
  {
    hide Enabled, Next;
    RunConcat(cfgs, s, steps, others.steps(x));
    RunSnoc(cfgs, s, steps + others.steps(x), own);
  }

  /** One find-and-update of the claim phase: what it meets, and the three ways on. */
  lemma ClaimPoint(cfgs: Configs, s: State, c: CallId, others: Others, faults: nat -> Fault)
    requires IsClaiming(s, c) && |s.calls[c].items| < s.calls[c].limit && ClaimsPossible(cfgs, s, c, others, faults)
    ensures Possible(cfgs, s, c, others, AtClaim(|s.calls[c].items|))
    ensures IsRun(cfgs, s, others.steps(AtClaim(|s.calls[c].items|)))
    ensures var call, k := s.calls[c], |s.calls[c].items|;
            var t, end := Exec(cfgs, s, others.steps(AtClaim(k))), ClaimEnd(cfgs, s, c, others, faults);
            var first := First(t.store, call.tag, call.at);
      && t.store == others.meets(AtClaim(k)) && IsClaiming(t, c) && t.calls[c] == call && (Quiet(others) ==> t == s)
      && (faults(k) != Fine ==>
            && Enabled(t, ClaimError(c, faults(k).applied)) && end == Next(cfgs, t, ClaimError(c, faults(k).applied))
            && end.calls == t.calls - {c}
            && end.store == if faults(k).applied && first.Some? then Claimed(t.store, first.value, call.at)
                            else t.store)
      && (faults(k) == Fine && first.None? ==>
            && Enabled(t, ClaimDone(c)) && end == Next(cfgs, t, ClaimDone(c))
            && end.store == t.store && end.calls == t.calls[c := call.(claiming := false)])
      && (faults(k) == Fine && first.Some? ==>
            && Enabled(t, ClaimOne(c))
            && var r := Next(cfgs, t, ClaimOne(c));
               && r.store == Claimed(t.store, first.value, call.at)
               && r.calls == t.calls[c := call.(items := call.items + [Held(first.value, r.store[first.value])])]
               && ClaimsPossible(cfgs, r, c, others, faults) && end == ClaimEnd(cfgs, r, c, others, faults))
  {
    hide RetryBackoff, Decide, ClaimedDoc, Ready, IsRun, Exec, Quiet, Possible;
    Arrive(cfgs, s, c, others, AtClaim(|s.calls[c].items|));
  }

  lemma LimitReached(cfgs: Configs, s: State, c: CallId, others: Others, faults: nat -> Fault)
    requires IsClaiming(s, c) && |s.calls[c].items| >= s.calls[c].limit && ClaimsPossible(cfgs, s, c, others, faults)
    ensures Enabled(s, ClaimDone(c))
    ensures var end := ClaimEnd(cfgs, s, c, others, faults);
      && end == Next(cfgs, s, ClaimDone(c)) && end.store == s.store
      && end.calls == s.calls[c := s.calls[c].(claiming := false)]
  {
  }

  function Claimed(store: Store, id: Id, at: Time): Store
    requires id in store
  {
    store[id := ClaimedDoc(store[id], at)]
  }

  /** One final update of the finish phase. */
  lemma FinishPoint(cfgs: Configs, s: State, c: CallId, others: Others, process: Held -> Outcome, clock: nat -> Time,
                    faults: nat -> Fault, i: nat)
    requires IsFinishing(s, c) && s.calls[c].items != []
    requires FinishesPossible(cfgs, s, c, others, process, clock, faults, i)
    ensures Possible(cfgs, s, c, others, AtFinish(i)) && IsRun(cfgs, s, others.steps(AtFinish(i)))
    ensures var call := s.calls[c];
            var t := Exec(cfgs, s, others.steps(AtFinish(i)));
            var step := FinishStep(c, call.items[0], process, clock(i), faults(i));
      && t.store == others.meets(AtFinish(i)) && (Quiet(others) ==> t == s)
      && Enabled(t, step)
      && var r := Next(cfgs, t, step);
         && r.calls == t.calls[c := call.(items := call.items[1..])]
         && r.store == (if faults(i) == Lost(false) then t.store
                        else UpdateOne(t.store, call.items[0].id,
                                       Decide(cfgs(call.tag), call.at, call.items[0].doc, process(call.items[0])),
                                       clock(i)))
         && FinishesPossible(cfgs, r, c, others, process, clock, faults, i + 1)
  {
    hide RetryBackoff, Decide, Updated, IsRun, Exec, Quiet, Possible;
    Arrive(cfgs, s, c, others, AtFinish(i));
  }

  lemma ReturnDrops(cfgs: Configs, s: State, c: CallId)
    requires IsFinishing(s, c) && s.calls[c].items == []
    ensures Enabled(s, Return(c)) && Next(cfgs, s, Return(c)) == s.(calls := s.calls - {c})
  {
  }

  /** The others' doings are possible all through a dequeue call. */
  ghost predicate AllPossible(cfgs: Configs, s: State, c: CallId, tag: string, at: Time, limit: int,
                              process: Held -> Outcome,
                              clock: nat -> Time, claimFaults: nat -> Fault, updateFaults: nat -> Fault, others: Others)
    requires c !in s.calls
  {
    var begun := Next(cfgs, s, Begin(c, tag, at, limit));
    && ClaimsPossible(cfgs, begun, c, others, claimFaults)
    && var held := ClaimEnd(cfgs, begun, c, others, claimFaults);
       IsFinishing(held, c) ==> FinishesPossible(cfgs, held, c, others, process, clock, updateFaults, 0)
  }
}
