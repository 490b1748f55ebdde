/** The executor's outcome table, and why a queue that gets no new work drains
    (framework/queue/executor.go; framework/queue/service.go, dequeue and IsEmpty). */
module QueueExecutor {
  import opened Options
  import opened QueueTypes
  import opened Backoff
  import opened QueueProtocol
  import opened QueueOthers
  import opened QueueService
  import opened QueueSafety
  import opened QueueSums

  /** What the transformer turns a stored document into. */
  datatype Item = Item(action: string, data: string)
  datatype Transformed = Ok(item: Item) | Err(error: string)

  /** A handler succeeds (None) or fails with an error text. */
  type Handler = Item -> Option<string>
  type Transform = Doc -> Transformed

  function Quoted(s: string): string { "\"" + s + "\"" }

  const CALLBACK_PREFIX := "user queue callback failed: "

  class Executor {
    const service: Service
    const retryable: string -> bool
    var handlers: map<string, Handler>

    constructor (service: Service, retryable: string -> bool)
      ensures this.service == service && this.retryable == retryable && handlers == map[]
    {
      this.service := service;
      this.retryable := retryable;
      handlers := map[];
    }

    method Register(action: string, handler: Handler)
      modifies this`handlers
      ensures handlers == old(handlers)[action := handler]
    {
      handlers := handlers[action := handler];
    }

    /** One poll with the service's defaults. */
    method Tick(transform: Transform, now: Time, clock: nat -> Time, claimFaults: nat -> Fault,
                updateFaults: nat -> Fault,
                others: Others, ghost cfgs: Configs, ghost s: State, ghost c: CallId)
      returns (ok: bool, ghost steps: seq<Step>, ghost items: seq<Held>)
      requires s.store == service.repository.docs && c !in s.calls && cfgs(service.tag) == service.cfg
      requires AllPossible(cfgs, s, c, service.tag, now, service.dequeueLimit, Work(transform, handlers, retryable),
                           clock, claimFaults, updateFaults, others)
      modifies service.repository
      ensures IsRun(cfgs, s, steps)
      ensures Exec(cfgs, s, steps).store == service.repository.docs && c !in Exec(cfgs, s, steps).calls
      ensures (forall i :: claimFaults(i) == Fine) ==> ok
      ensures Quiet(others) ==> Exec(cfgs, s, steps).calls == s.calls
      ensures Quiet(others) && ok && (forall i :: updateFaults(i) == Fine) ==>
        Settled(old(service.repository.docs), service.tag, now, service.dequeueLimit, service.cfg,
                Work(transform, handlers, retryable), clock, items, service.repository.docs)
    {
      hide Settled, AllPossible;
      ok, steps, items := service.Dequeue(now, None, None, Work(transform, handlers, retryable), clock,
                                          claimFaults, updateFaults, others, cfgs, s, c);
    }
  }

  /** The handler's outcome as the dequeue loop sees it: an error text, or a status. */
  function Process(handlers: map<string, Handler>, retryable: string -> bool, item: Item): Outcome {
    if item.action !in handlers then
      CallbackFailed(CALLBACK_PREFIX + "no handler registered for action type " + Quoted(item.action))
    else
      match handlers[item.action](item)
      case None => Acked(Completed)
      case Some(error) =>
        if retryable(error) then Acked(Retry)
        else CallbackFailed(CALLBACK_PREFIX + "queue handler failed terminally: " + error)
  }

  function Work(transform: Transform, handlers: map<string, Handler>, retryable: string -> bool): Held -> Outcome {
    (h: Held) =>
      match transform(h.doc)
      case Err(error) => TransformFailed(error)
      case Ok(item) => Process(handlers, retryable, item)
  }

  predicate Succeeds(transform: Transform, handlers: map<string, Handler>, d: Doc) {
    && transform(d).Ok?
    && transform(d).item.action in handlers
    && handlers[transform(d).item.action](transform(d).item) == None
  }

  predicate FailsRetryably(transform: Transform, handlers: map<string, Handler>, retryable: string -> bool, d: Doc) {
    && transform(d).Ok?
    && transform(d).item.action in handlers
    && var result := handlers[transform(d).item.action](transform(d).item);
       result.Some? && retryable(result.value)
  }

  lemma OneOutcome(cfg: Config, at: Time, transform: Transform, handlers: map<string, Handler>,
                   retryable: string -> bool, h: Held, now: Time)
    ensures var d, e := h.doc, Settle(cfg, at, h, Work(transform, handlers, retryable), now);
      && e.attempts == d.attempts && e.tag == d.tag
      && (e.status == Completed <==> Succeeds(transform, handlers, d))
      && (e.status == Retry <==> FailsRetryably(transform, handlers, retryable, d) && d.attempts < cfg.maxAttempts)
      && e.status in {Completed, Retry, Failed}
      && (e.status == Retry ==> e.scheduledAt == Some(at + RetryBackoff(cfg, d.attempts)))
  {
    hide RetryBackoff;
  }

  /** One undisturbed executor poll, item by item: a claimed item ends completed exactly when
      it transforms and its handler succeeds, in retry exactly when its handler fails
      retryably with attempts to spare, and failed otherwise. Nothing else changes. */
  lemma PollOutcomes(store: Store, tag: string, at: Time, limit: int, cfg: Config, transform: Transform,
                     handlers: map<string, Handler>, retryable: string -> bool, clock: nat -> Time,
                     items: seq<Held>, after: Store, id: Id)
    requires Settled(store, tag, at, limit, cfg, Work(transform, handlers, retryable), clock, items, after)
    requires id in store
    ensures id in after
    ensures !Among(items, id) ==> after[id] == store[id]
    ensures Among(items, id) ==>
      var d, e := ClaimedDoc(store[id], at), after[id];
      && Ready(store[id], tag, at) && e.attempts == store[id].attempts + 1 && e.tag == tag
      && (e.status == Completed <==> Succeeds(transform, handlers, d))
      && (e.status == Retry <==> FailsRetryably(transform, handlers, retryable, d) && d.attempts < cfg.maxAttempts)
      && e.status in {Completed, Retry, Failed}
      && (e.status == Retry ==> e.scheduledAt == Some(at + RetryBackoff(cfg, d.attempts)))
    ensures store[id].tag != tag ==> after[id] == store[id]
  {
    hide RetryBackoff, TopClaimed, Settle, Succeeds, FailsRetryably, Work;
    if Among(items, id) {
      var i :| 0 <= i < |items| && items[i].id == id;
      SettledItem(store, tag, at, limit, cfg, Work(transform, handlers, retryable), clock, items, after, i);
      OneOutcome(cfg, at, transform, handlers, retryable, items[i], clock(i));
    }
  }

  // ---------- draining ----------

  /** One undisturbed poll of a drain: its parameters and what it claimed. */
  datatype Poll = Poll(at: Time, limit: int, process: Held -> Outcome, clock: nat -> Time, items: seq<Held>)

  /** The poll is late enough for every waiting item of the tag, asks for at least one item, and its callback
      never acknowledges with pending (an executor's never does). */
  ghost predicate DrainingPoll(cfg: Config, tag: string, before: Store, p: Poll, after: Store) {
    && p.limit >= 1
    && (forall id :: Waiting(before, tag, id) && before[id].scheduledAt.Some? ==> before[id].scheduledAt.value <= p.at)
    && (forall h :: p.process(h) != Acked(Pending))
    && Settled(before, tag, p.at, p.limit, cfg, p.process, p.clock, p.items, after)
  }

  lemma ExecutorNeverAcksPending(transform: Transform, handlers: map<string, Handler>, retryable: string -> bool,
                                 h: Held)
    ensures Work(transform, handlers, retryable)(h) != Acked(Pending)
    ensures Work(transform, handlers, retryable)(h) != Acked(Dequeued)
  {
    match transform(h.doc)
    case Err(error) => assert Work(transform, handlers, retryable)(h) == TransformFailed(error);
    case Ok(item) => assert Work(transform, handlers, retryable)(h) == Process(handlers, retryable, item);
  }

  ghost predicate AllAttemptsOk(cfg: Config, tag: string, store: Store) {
    forall id :: id in store && store[id].tag == tag ==> AttemptsOk(cfg, store[id])
  }

  /** Claims an item can still get. */
  function Weight(cfg: Config, tag: string, d: Doc): int {
    if d.tag == tag && Claimable(d.status) then Max(1, cfg.maxAttempts) - d.attempts else 0
  }

  function Weights(cfg: Config, tag: string, store: Store): map<Id, int> {
    map id | id in store :: Weight(cfg, tag, store[id])
  }

  /** Claims the waiting items of the tag can still get in all. */
  ghost function Remaining(cfg: Config, tag: string, store: Store): int {
    Sum(Weights(cfg, tag, store), store.Keys)
  }

  lemma SettledProgress(cfg: Config, tag: string, at: Time, process: Held -> Outcome, id: Id, d: Doc, now: Time)
    requires Ready(d, tag, at) && AttemptsOk(cfg, d) && process(Held(id, ClaimedDoc(d, at))) != Acked(Pending)
    ensures var e := Settle(cfg, at, Held(id, ClaimedDoc(d, at)), process, now);
      e.tag == tag && AttemptsOk(cfg, e) && Weight(cfg, tag, e) <= Weight(cfg, tag, d) - 1
  {
    hide RetryBackoff;
  }

  /** What one poll does to a single item. */
  lemma PollItem(cfg: Config, tag: string, before: Store, p: Poll, after: Store, id: Id)
    requires DrainingPoll(cfg, tag, before, p, after) && AllAttemptsOk(cfg, tag, before) && id in before
    ensures id in after && (after[id].tag == tag ==> AttemptsOk(cfg, after[id]))
    ensures Weight(cfg, tag, after[id]) <= Weight(cfg, tag, before[id]) - (if Among(p.items, id) then 1 else 0)
  {
    hide RetryBackoff, TopClaimed, Settle, AttemptsOk, Weight, ClaimedDoc;
    if Among(p.items, id) {
      var i :| 0 <= i < |p.items| && p.items[i].id == id;
      SettledItem(before, tag, p.at, p.limit, cfg, p.process, p.clock, p.items, after, i);
      SettledProgress(cfg, tag, p.at, p.process, id, before[id], p.clock(i));
    }
  }

  /** A poll that finds anything waiting strictly lowers the number of claims still possible. */
  lemma PollProgress(cfg: Config, tag: string, before: Store, p: Poll, after: Store)
    requires DrainingPoll(cfg, tag, before, p, after) && AllAttemptsOk(cfg, tag, before)
    ensures AllAttemptsOk(cfg, tag, after)
    ensures Remaining(cfg, tag, after) <= Remaining(cfg, tag, before)
    ensures !NothingWaiting(before, tag) ==> Remaining(cfg, tag, after) < Remaining(cfg, tag, before)
  {
    var claimed := set id | id in before && Among(p.items, id);
    forall id | id in before
      ensures id in after && (after[id].tag == tag ==> AttemptsOk(cfg, after[id]))
      ensures Weight(cfg, tag, after[id]) <= Weight(cfg, tag, before[id]) - (if id in claimed then 1 else 0)
    {
      PollItem(cfg, tag, before, p, after, id);
    }
    hide DrainingPoll, AllAttemptsOk, Weight, Settled, Sum;
    SameKeys(cfg, tag, before, p, after);
    SumDrops(Weights(cfg, tag, before), Weights(cfg, tag, after), before.Keys, claimed);
    if !NothingWaiting(before, tag) {
      var id := SomethingClaimed(cfg, tag, before, p, after);
      assert id in before.Keys * claimed;
    }
  }

  lemma SameKeys(cfg: Config, tag: string, before: Store, p: Poll, after: Store)
    requires DrainingPoll(cfg, tag, before, p, after)
    ensures after.Keys == before.Keys
  {
  }

  lemma SomethingClaimed(cfg: Config, tag: string, before: Store, p: Poll, after: Store) returns (id: Id)
    requires DrainingPoll(cfg, tag, before, p, after) && !NothingWaiting(before, tag)
    ensures id in before && Among(p.items, id)
  {
    hide Settled;
    var waiting :| Waiting(before, tag, waiting);
    assert waiting in ReadySet(before, tag, p.at);
    SettledCount(before, tag, p.at, p.limit, cfg, p.process, p.clock, p.items, after);
    SettledItem(before, tag, p.at, p.limit, cfg, p.process, p.clock, p.items, after, 0);
    id := p.items[0].id;
  }

  lemma RemainingPositive(cfg: Config, tag: string, store: Store)
    requires AllAttemptsOk(cfg, tag, store)
    ensures Remaining(cfg, tag, store) >= 0
    ensures !NothingWaiting(store, tag) ==> Remaining(cfg, tag, store) >= 1
  {
    var w := Weights(cfg, tag, store);
    forall id | id in store ensures w[id] >= 0 && (Waiting(store, tag, id) ==> w[id] >= 1) {
      assert store[id].tag == tag ==> AttemptsOk(cfg, store[id]);
    }
    SumPositive(w, store.Keys);
    if id :| Waiting(store, tag, id) {
      assert id in store.Keys;
    }
  }

  ghost predicate DrainRun(cfg: Config, tag: string, stores: seq<Store>, polls: seq<Poll>) {
    && |stores| == |polls| + 1
    && forall i :: 0 <= i < |polls| ==> DrainingPoll(cfg, tag, stores[i], polls[i], stores[i + 1])
  }

  /** With no new work, the queue is empty after at most as many late-enough polls as its
      waiting items have claims left, whatever the handlers do. */
  lemma {:induction false} QueueDrains(cfg: Config, tag: string, stores: seq<Store>, polls: seq<Poll>)
    requires DrainRun(cfg, tag, stores, polls) && AllAttemptsOk(cfg, tag, stores[0])
    requires |polls| >= Remaining(cfg, tag, stores[0])
    ensures NothingWaiting(stores[|polls|], tag)
    decreases |polls|
  {
    hide DrainingPoll, Waiting, AttemptsOk, Remaining;
    RemainingPositive(cfg, tag, stores[0]);
    if NothingWaiting(stores[0], tag) {
      StaysEmpty(cfg, tag, stores, polls, |polls|);
    } else {
      PollProgress(cfg, tag, stores[0], polls[0], stores[1]);
      QueueDrains(cfg, tag, stores[1..], polls[1..]);
    }
  }

  lemma {:induction false} StaysEmpty(cfg: Config, tag: string, stores: seq<Store>, polls: seq<Poll>, n: nat)
    requires DrainRun(cfg, tag, stores, polls) && NothingWaiting(stores[0], tag) && n <= |polls|
    ensures NothingWaiting(stores[n], tag)
  {
    hide DrainingPoll, NothingWaiting;
    if n > 0 {
      StaysEmpty(cfg, tag, stores, polls, n - 1);
      NoClaims(cfg, tag, stores[n - 1], polls[n - 1], stores[n]);
    }
  }

  lemma NoClaims(cfg: Config, tag: string, before: Store, p: Poll, after: Store)
    requires DrainingPoll(cfg, tag, before, p, after) && NothingWaiting(before, tag)
    ensures NothingWaiting(after, tag)
  {
    hide TopClaimed, Settle;
    SettledCount(before, tag, p.at, p.limit, cfg, p.process, p.clock, p.items, after);
    forall id ensures id !in ReadySet(before, tag, p.at) {
      assert !Waiting(before, tag, id);
    }
    assert p.items == [];
    forall id ensures !Waiting(after, tag, id) {
      assert !Waiting(before, tag, id);
    }
  }

  /** Every state a tame run reaches meets the drain's starting condition. */
  lemma ReachableCanDrain(cfgs: Configs, steps: seq<Step>, tag: string)
    requires IsRun(cfgs, Initial(), steps) && TameRun(steps)
    ensures AllAttemptsOk(cfgs(tag), tag, Exec(cfgs, Initial(), steps).store)
  {
    hide RetryBackoff;
    RunKeepsAttempts(cfgs, Initial(), steps);
  }
}
