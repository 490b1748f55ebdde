/** What every interleaving of queue steps keeps: claims are numbered without repetition,
    an item has one holder, attempts stay bounded, and retry delays are the capped
    exponential. */
module QueueSafety {
  import opened Options
  import opened QueueTypes
  import opened Backoff
  import opened QueueProtocol

  // ---------- claims are numbered 1, 2, 3, ... per item ----------

  function CountClaims(log: seq<Claim>, id: Id): (n: nat) {
    if log == [] then 0
    else CountClaims(log[..|log| - 1], id) + (if log[|log| - 1].id == id then 1 else 0)
  }

  ghost predicate WellNumbered(log: seq<Claim>) {
    forall i :: 0 <= i < |log| ==> log[i].attempts == CountClaims(log[..i + 1], log[i].id)
  }

  ghost predicate InvLog(s: State) {
    && WellNumbered(s.log)
    && (forall id :: id in s.store ==> s.store[id].attempts == CountClaims(s.log, id))
    && (forall id :: id !in s.store ==> CountClaims(s.log, id) == 0)
  }

  lemma CountAppend(log: seq<Claim>, c: Claim)
    ensures forall id :: CountClaims(log + [c], id) == CountClaims(log, id) + (if c.id == id then 1 else 0)
  {
    assert (log + [c])[..|log|] == log;
  }

  lemma GrabKeepsLog(s: State, id: Id, at: Time)
    requires InvLog(s) && id in s.store
    ensures InvLog(Grab(s, id, at))
  {
    var g := Grab(s, id, at);
    var c := g.log[|s.log|];
    CountAppend(s.log, c);
    forall i | 0 <= i < |g.log| ensures g.log[i].attempts == CountClaims(g.log[..i + 1], g.log[i].id) {
      if i < |s.log| {
        assert g.log[..i + 1] == s.log[..i + 1];
      } else {
        assert g.log[..i + 1] == g.log;
      }
    }
  }

  lemma StepKeepsLog(cfgs: Configs, s: State, step: Step)
    requires InvLog(s) && Enabled(s, step)
    ensures InvLog(Next(cfgs, s, step))
  {
    hide RetryBackoff, WellNumbered;
    match step
    case ClaimOne(c) =>
      GrabKeepsLog(s, First(s.store, s.calls[c].tag, s.calls[c].at).value, s.calls[c].at);
    case ClaimError(c, applied) =>
      var first := First(s.store, s.calls[c].tag, s.calls[c].at);
      if applied && first.Some? {
        GrabKeepsLog(s, first.value, s.calls[c].at);
      }
    case _ =>
  }

  lemma {:induction false} RunKeepsLog(cfgs: Configs, s: State, steps: seq<Step>)
    requires InvLog(s) && IsRun(cfgs, s, steps)
    ensures InvLog(Exec(cfgs, s, steps))
    decreases |steps|
  {
    if steps != [] {
      StepKeepsLog(cfgs, s, steps[0]);
      RunKeepsLog(cfgs, Next(cfgs, s, steps[0]), steps[1..]);
    }
  }

  lemma {:induction false} CountMono(log: seq<Claim>, i: nat, id: Id)
    requires i <= |log|
    ensures CountClaims(log[..i], id) <= CountClaims(log, id)
    decreases |log|
  {
    if i < |log| {
      var front := log[..|log| - 1];
      assert front[..i] == log[..i];
      CountMono(front, i, id);
    } else {
      assert log[..i] == log;
    }
  }

  /** No two claims of one item carry the same attempt number. */
  lemma NumbersIncrease(log: seq<Claim>, i: nat, j: nat)
    requires WellNumbered(log) && i < j < |log| && log[i].id == log[j].id
    ensures log[i].attempts < log[j].attempts
  {
    var upto := log[..j + 1];
    assert upto[..j] == log[..j];
    assert log[..j][..i + 1] == log[..i + 1];
    CountMono(log[..j], i + 1, log[i].id);
  }

  /** Every run, whatever callbacks return and whatever statuses are forced from outside. */
  lemma ClaimsNeverRepeat(cfgs: Configs, steps: seq<Step>)
    requires IsRun(cfgs, Initial(), steps)
    ensures var e := Exec(cfgs, Initial(), steps);
      && (forall i, j :: 0 <= i < j < |e.log| && e.log[i].id == e.log[j].id ==> e.log[i].attempts < e.log[j].attempts)
      && (forall id :: id in e.store ==> e.store[id].attempts == CountClaims(e.log, id))
      && (forall i :: 0 <= i < |e.log| ==> e.log[i].id in e.store)
  {
    RunKeepsLog(cfgs, Initial(), steps);
    var e := Exec(cfgs, Initial(), steps);
    forall i, j | 0 <= i < j < |e.log| && e.log[i].id == e.log[j].id
      ensures e.log[i].attempts < e.log[j].attempts
    {
      NumbersIncrease(e.log, i, j);
    }
    forall i | 0 <= i < |e.log| ensures e.log[i].id in e.store {
      var upto := e.log[..i + 1];
      assert upto[..i] == e.log[..i];
      CountMono(e.log, i + 1, e.log[i].id);
    }
  }

  // ---------- one holder ----------

  ghost predicate Holds(s: State, c: CallId, i: int) {
    c in s.calls && 0 <= i < |s.calls[c].items|
  }

  ghost predicate IsHeld(s: State, id: Id) {
    exists c, i :: Holds(s, c, i) && s.calls[c].items[i].id == id
  }

  ghost predicate HeldOk(s: State, c: CallId, i: int)
    requires Holds(s, c, i)
  {
    var h := s.calls[c].items[i];
    && h.id in s.store
    && !Claimable(s.store[h.id].status)
    && h.doc.attempts == s.store[h.id].attempts >= 1
    && h.doc.tag == s.store[h.id].tag == s.calls[c].tag
  }

  ghost predicate Exclusive(s: State) {
    forall c, i, d, j :: Holds(s, c, i) && Holds(s, d, j) && s.calls[c].items[i].id == s.calls[d].items[j].id
      ==> c == d && i == j
  }

  ghost predicate InvHeld(s: State) {
    && (forall c, i :: Holds(s, c, i) ==> HeldOk(s, c, i))
    && Exclusive(s)
  }

  /** The one outside interference excluded: making an item claimable while a call holds it. */
  ghost predicate Polite(s: State, step: Step) {
    step.ForceStatus? && Claimable(step.status) ==> !IsHeld(s, step.id)
  }

  ghost predicate PoliteRun(cfgs: Configs, s: State, steps: seq<Step>)
    requires IsRun(cfgs, s, steps)
    decreases |steps|
  {
    steps == [] || (Polite(s, steps[0]) && PoliteRun(cfgs, Next(cfgs, s, steps[0]), steps[1..]))
  }

  lemma GrabKeepsHeld(s: State, id: Id, at: Time)
    requires InvHeld(s) && id in s.store && Claimable(s.store[id].status)
    ensures InvHeld(Grab(s, id, at)) && !IsHeld(s, id) && !IsHeld(Grab(s, id, at), id)
  {
    var g := Grab(s, id, at);
    forall c, i | Holds(s, c, i) ensures s.calls[c].items[i].id != id && HeldOk(g, c, i) {
      assert HeldOk(s, c, i);
    }
  }

  lemma ReceiveKeepsHeld(s: State, c: CallId, id: Id)
    requires InvHeld(s) && c in s.calls && id in s.store && !IsHeld(s, id)
    requires s.store[id].status == Dequeued && s.store[id].attempts >= 1 && s.store[id].tag == s.calls[c].tag
    ensures InvHeld(Receive(s, c, id))
  {
    var r := Receive(s, c, id);
    forall d, i | Holds(r, d, i) ensures HeldOk(r, d, i) {
      if Holds(s, d, i) {
        assert HeldOk(s, d, i);
      }
    }
    forall d, i, e, j | Holds(r, d, i) && Holds(r, e, j) && r.calls[d].items[i].id == r.calls[e].items[j].id
      ensures d == e && i == j
    {
      assert Holds(s, d, i) ==> s.calls[d].items[i].id != id;
      assert Holds(s, e, j) ==> s.calls[e].items[j].id != id;
    }
  }

  lemma DropKeepsHeld(s: State, c: CallId)
    requires InvHeld(s)
    ensures InvHeld(Drop(s, c))
  {
    var r := Drop(s, c);
    forall d, i | Holds(r, d, i) ensures HeldOk(r, d, i) {
      assert HeldOk(s, d, i);
    }
    forall d, i, e, j | Holds(r, d, i) && Holds(r, e, j) && r.calls[d].items[i].id == r.calls[e].items[j].id
      ensures d == e && i == j
    {
      assert Holds(s, d, i) && Holds(s, e, j);
    }
  }

  lemma FinishKeepsHeld(cfgs: Configs, s: State, step: Step)
    requires InvHeld(s) && Enabled(s, step) && step.Finish?
    ensures InvHeld(Next(cfgs, s, step))
  {
    var c := step.c;
    var r := Next(cfgs, s, step);
    var h := s.calls[c].items[0];
    assert Holds(s, c, 0);
    forall d, i | Holds(r, d, i)
      ensures HeldOk(r, d, i) && Holds(s, d, if d == c then i + 1 else i)
      ensures r.calls[d].items[i] == s.calls[d].items[if d == c then i + 1 else i]
    {
      var k := if d == c then i + 1 else i;
      assert HeldOk(s, d, k);
      assert s.calls[d].items[k].id != h.id;
    }
    forall d, i, e, j | Holds(r, d, i) && Holds(r, e, j) && r.calls[d].items[i].id == r.calls[e].items[j].id
      ensures d == e && i == j
    {
      var k, l := if d == c then i + 1 else i, if e == c then j + 1 else j;
      assert Holds(s, d, k) && Holds(s, e, l);
    }
  }

  /** Steps that touch neither `calls` (but for the claiming flag) nor attempts, and make no
      held item claimable. */
  lemma QuietKeepsHeld(s: State, r: State)
    requires InvHeld(s) && r.calls.Keys == s.calls.Keys
    requires forall c :: c in s.calls ==> r.calls[c].items == s.calls[c].items && r.calls[c].tag == s.calls[c].tag
    requires forall id :: id in s.store ==> (
      && id in r.store
      && r.store[id].attempts == s.store[id].attempts && r.store[id].tag == s.store[id].tag
      && (Claimable(r.store[id].status) && !Claimable(s.store[id].status) ==> !IsHeld(s, id)))
    ensures InvHeld(r)
  {
    forall c, i | Holds(r, c, i) ensures HeldOk(r, c, i) {
      assert Holds(s, c, i) && HeldOk(s, c, i);
      assert IsHeld(s, s.calls[c].items[i].id);
    }
    forall d, i, e, j | Holds(r, d, i) && Holds(r, e, j) && r.calls[d].items[i].id == r.calls[e].items[j].id
      ensures d == e && i == j
    {
      assert Holds(s, d, i) && Holds(s, e, j);
    }
  }

  lemma StepKeepsHeld(cfgs: Configs, s: State, step: Step)
    requires InvLog(s) && InvHeld(s) && Enabled(s, step) && Polite(s, step)
    ensures InvHeld(Next(cfgs, s, step))
  {
    hide RetryBackoff, WellNumbered, Decide;
    var r := Next(cfgs, s, step);
    match step
    case Begin(c, tag, at, limit) =>
      forall d, i | Holds(r, d, i) ensures Holds(s, d, i) && HeldOk(r, d, i) {
        assert HeldOk(s, d, i);
      }
    case ClaimOne(c) =>
      var id := First(s.store, s.calls[c].tag, s.calls[c].at).value;
      GrabKeepsHeld(s, id, s.calls[c].at);
      ReceiveKeepsHeld(Grab(s, id, s.calls[c].at), c, id);
    case ClaimError(c, applied) =>
      var first := First(s.store, s.calls[c].tag, s.calls[c].at);
      if applied && first.Some? {
        GrabKeepsHeld(s, first.value, s.calls[c].at);
        DropKeepsHeld(Grab(s, first.value, s.calls[c].at), c);
      } else {
        DropKeepsHeld(s, c);
      }
    case Finish(c, _, _, _) => FinishKeepsHeld(cfgs, s, step);
    case Return(c) => DropKeepsHeld(s, c);
    case Crash(c) => DropKeepsHeld(s, c);
    case _ => QuietKeepsHeld(s, r);
  }

  lemma {:induction false} RunKeepsHeld(cfgs: Configs, s: State, steps: seq<Step>)
    requires InvLog(s) && InvHeld(s) && IsRun(cfgs, s, steps) && PoliteRun(cfgs, s, steps)
    ensures InvLog(Exec(cfgs, s, steps)) && InvHeld(Exec(cfgs, s, steps))
    decreases |steps|
  {
    if steps != [] {
      StepKeepsLog(cfgs, s, steps[0]);
      StepKeepsHeld(cfgs, s, steps[0]);
      RunKeepsHeld(cfgs, Next(cfgs, s, steps[0]), steps[1..]);
    }
  }

  /** In every polite interleaving no item is held twice, by one call or by two, and what a
      call holds agrees with the store on tag and attempts and cannot be claimed. */
  lemma AtMostOneHolder(cfgs: Configs, steps: seq<Step>)
    requires IsRun(cfgs, Initial(), steps) && PoliteRun(cfgs, Initial(), steps)
    ensures InvHeld(Exec(cfgs, Initial(), steps))
  {
    RunKeepsHeld(cfgs, Initial(), steps);
  }

  // ---------- bounded attempts ----------

  predicate AttemptsOk(cfg: Config, d: Doc) {
    && (d.status == Pending ==> d.attempts == 0)
    && (d.status == Retry ==> 1 <= d.attempts < cfg.maxAttempts)
    && 0 <= d.attempts <= Max(1, cfg.maxAttempts)
  }

  ghost predicate InvAttempts(cfgs: Configs, s: State) {
    forall id :: id in s.store ==> AttemptsOk(cfgs(s.store[id].tag), s.store[id])
  }

  /** No callback acknowledges with `pending`, and nobody forces a claimable status. */
  predicate Tame(step: Step) {
    && !(step.Finish? && step.outcome == Acked(Pending))
    && !(step.ForceStatus? && Claimable(step.status))
  }

  ghost predicate TameRun(steps: seq<Step>) {
    forall i :: 0 <= i < |steps| ==> Tame(steps[i])
  }

  lemma {:induction false} TameIsPolite(cfgs: Configs, s: State, steps: seq<Step>)
    requires IsRun(cfgs, s, steps) && TameRun(steps)
    ensures PoliteRun(cfgs, s, steps)
    decreases |steps|
  {
    if steps != [] {
      TameIsPolite(cfgs, Next(cfgs, s, steps[0]), steps[1..]);
    }
  }

  lemma StepKeepsAttempts(cfgs: Configs, s: State, step: Step)
    requires InvHeld(s) && InvAttempts(cfgs, s) && Enabled(s, step) && Tame(step)
    ensures InvAttempts(cfgs, Next(cfgs, s, step))
  {
    hide RetryBackoff, WellNumbered, Exclusive;
    if step.Finish? {
      assert Holds(s, step.c, 0) && HeldOk(s, step.c, 0);
    }
  }

  lemma {:induction false} RunKeepsAttempts(cfgs: Configs, s: State, steps: seq<Step>)
    requires InvLog(s) && InvHeld(s) && InvAttempts(cfgs, s) && IsRun(cfgs, s, steps) && TameRun(steps)
    ensures var e := Exec(cfgs, s, steps); InvLog(e) && InvHeld(e) && InvAttempts(cfgs, e)
    decreases |steps|
  {
    if steps != [] {
      StepKeepsLog(cfgs, s, steps[0]);
      StepKeepsHeld(cfgs, s, steps[0]);
      StepKeepsAttempts(cfgs, s, steps[0]);
      RunKeepsAttempts(cfgs, Next(cfgs, s, steps[0]), steps[1..]);
    }
  }

  /** In every tame interleaving: pending means never claimed, retry means claimed but with
      attempts to spare, and no item is claimed more than max(1, maxAttempts) times. */
  lemma AttemptsBounded(cfgs: Configs, steps: seq<Step>, id: Id)
    requires IsRun(cfgs, Initial(), steps) && TameRun(steps)
    requires id in Exec(cfgs, Initial(), steps).store
    ensures var e := Exec(cfgs, Initial(), steps);
            var d := e.store[id];
      && CountClaims(e.log, id) <= Max(1, cfgs(d.tag).maxAttempts)
      && (d.status == Pending ==> CountClaims(e.log, id) == 0)
      && (d.status == Retry ==> 1 <= CountClaims(e.log, id) < cfgs(d.tag).maxAttempts)
  {
    RunKeepsAttempts(cfgs, Initial(), steps);
  }

  /** Every retry delay computed in a tame run is the capped exponential, as long as the last
      one that can be computed fits a 64-bit duration. */
  lemma ReachableDelayExact(cfgs: Configs, steps: seq<Step>, c: CallId, now: Time, applied: bool)
    requires IsRun(cfgs, Initial(), steps) && TameRun(steps)
    requires Enabled(Exec(cfgs, Initial(), steps), Finish(c, Acked(Retry), now, applied))
    requires var cfg := cfgs(Exec(cfgs, Initial(), steps).calls[c].tag);
      && 0 < cfg.base <= TWO_53 && cfg.maxBackoff < TWO_63
      && (cfg.maxAttempts >= 2 ==> Doubled(cfg.base, cfg.maxAttempts - 2) < TWO_63)
    ensures var e := Exec(cfgs, Initial(), steps);
            var cfg, item := cfgs(e.calls[c].tag), e.calls[c].items[0].doc;
      item.attempts >= 1 && Decide(cfg, e.calls[c].at, item, Acked(Retry)) ==
        if item.attempts >= cfg.maxAttempts then SetStatus(Failed, "max retry attempts reached")
        else Reschedule(e.calls[c].at + Min(cfg.maxBackoff, Doubled(cfg.base, item.attempts - 1)), "")
  {
    RunKeepsAttempts(cfgs, Initial(), steps);
    var e := Exec(cfgs, Initial(), steps);
    assert HeldOk(e, c, 0);
    var cfg, item := cfgs(e.calls[c].tag), e.calls[c].items[0].doc;
    if item.attempts < cfg.maxAttempts {
      DoubledMono(cfg.base, item.attempts - 1, cfg.maxAttempts - 2);
      BackoffExactIff(cfg, item.attempts);
    }
  }
}
