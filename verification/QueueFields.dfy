/** The queue's results spelled out on the fields of the documents: which documents a claim takes and
    in what order, and what each outcome leaves behind (framework/queue/repository.go,
    framework/queue/service.go, framework/queue/executor.go). */
module QueueFields {
  import opened Options
  import opened QueueTypes
  import opened Backoff
  import opened QueueProtocol
  import opened QueueService
  import opened QueueExecutor

  /** Higher priority first, then earlier creation, then smaller id. */
  lemma PrecedesIff(i: Id, d: Doc, j: Id, e: Doc)
    ensures Before(i, d, j, e) <==>
      if d.priority != e.priority then d.priority > e.priority
      else if d.createdAt != e.createdAt then d.createdAt < e.createdAt
      else i < j
  {
  }

  /** What an undisturbed, successful claim loop returns and leaves. Every claimed document was of
      the tag, pending or in retry, and due; it comes back and is stored as dequeued, one attempt
      up, stamped with the caller's time, otherwise unchanged. */
  lemma ClaimedWereDue(store: Store, tag: string, at: Time, limit: int, items: seq<Held>, after: Store, i: nat)
    requires TopClaimed(store, tag, at, limit, items, after) && i < |items|
    ensures var id := items[i].id;
      && id in store && id in after && store[id].tag == tag
      && (store[id].status == Pending || store[id].status == Retry)
      && (store[id].scheduledAt == None || store[id].scheduledAt.value <= at)
      && after[id] == items[i].doc
      && items[i].doc == store[id].(status := Dequeued, updatedAt := at, attempts := store[id].attempts + 1)
  {
    hide Before;
    assert items[i].id in ReadySet(store, tag, at);
  }

  /** The list has non-increasing priority; equal priorities are in order of creation, and equal
      creation times in order of id. */
  lemma ClaimsAreOrdered(store: Store, tag: string, at: Time, limit: int, items: seq<Held>, after: Store, i: nat,
                         j: nat)
    requires TopClaimed(store, tag, at, limit, items, after) && i < j < |items|
    ensures items[i].id in store && items[j].id in store
    ensures var d, e := store[items[i].id], store[items[j].id];
      && d.priority >= e.priority
      && (d.priority == e.priority ==> d.createdAt <= e.createdAt)
      && (d.priority == e.priority && d.createdAt == e.createdAt ==> items[i].id < items[j].id)
  {
    hide Ready;
  }

  /** A due document that was not claimed has no higher priority than any claimed one; of equal
      priority, it was not created earlier; of equal creation time, its id is not smaller. It is
      left as it was, and none is left unclaimed while the limit is not reached. */
  lemma UnclaimedComeLater(store: Store, tag: string, at: Time, limit: int, items: seq<Held>, after: Store, r: Id)
    requires TopClaimed(store, tag, at, limit, items, after)
    requires r in store && store[r].tag == tag && (store[r].status == Pending || store[r].status == Retry)
    requires store[r].scheduledAt == None || store[r].scheduledAt.value <= at
    requires forall i :: 0 <= i < |items| ==> items[i].id != r
    ensures r in after && after[r] == store[r] && |items| == Max(limit, 0)
    ensures forall i :: 0 <= i < |items| ==>
      && items[i].id in store
      && var d := store[items[i].id];
         && d.priority >= store[r].priority
         && (d.priority == store[r].priority ==> d.createdAt <= store[r].createdAt)
         && (d.priority == store[r].priority && d.createdAt == store[r].createdAt ==> items[i].id < r)
  {
    assert r in ReadySet(store, tag, at) && !Among(items, r);
    var ids := set i | 0 <= i < |items| :: items[i].id;
    DistinctIds(store, tag, at, items, after);
    assert ids <= ReadySet(store, tag, at) - {r};
    Smaller(ids, ReadySet(store, tag, at) - {r});
  }

  lemma Smaller(a: set<Id>, b: set<Id>)
    requires a <= b
    ensures |a| <= |b|
  {
    if a != {} {
      var x :| x in a;
      Smaller(a - {x}, b - {x});
    }
  }

  lemma {:induction false} DistinctIds(store: Store, tag: string, at: Time, items: seq<Held>, after: Store)
    requires Leading(store, tag, at, items, after)
    ensures |set i | 0 <= i < |items| :: items[i].id| == |items|
  {
    forall i, j | 0 <= i < j < |items| ensures items[i].id != items[j].id {
      assert Before(items[i].id, store[items[i].id], items[j].id, store[items[j].id]);
    }
    CountIds(items, |items|);
  }

  lemma {:induction false} CountIds(items: seq<Held>, n: nat)
    requires n <= |items| && forall i, j :: 0 <= i < j < |items| ==> items[i].id != items[j].id
    ensures |set i | 0 <= i < n :: items[i].id| == n
  {
    var ids := set i | 0 <= i < n :: items[i].id;
    if n > 0 {
      CountIds(items, n - 1);
      var fewer := set i | 0 <= i < n - 1 :: items[i].id;
      assert ids == fewer + {items[n - 1].id};
      assert items[n - 1].id !in fewer;
    } else {
      assert ids == {};
    }
  }

  /** Of a document of priority 1 and one of priority 5, a claim of one takes the latter. */
  lemma HigherPriorityFirst(tag: string, low: Doc, high: Doc, at: Time, items: seq<Held>, after: Store)
    requires low.tag == high.tag == tag && low.status == high.status == Pending
    requires low.scheduledAt == high.scheduledAt == None && low.priority == 1 && high.priority == 5
    requires TopClaimed(map[1 := low, 2 := high], tag, at, 1, items, after)
    ensures |items| == 1 && items[0].id == 2
  {
    var store := map[1 := low, 2 := high];
    var wanted: Id := 2;
    if forall i :: 0 <= i < |items| ==> items[i].id != wanted {
      UnclaimedComeLater(store, tag, at, 1, items, after, wanted);
    }
  }

  // ---------- the limit ----------

  /** A call that holds as many items as its limit makes no more find-and-updates. */
  lemma FullCallStops(s: State, c: CallId, applied: bool)
    requires c in s.calls && |s.calls[c].items| >= s.calls[c].limit
    ensures !Enabled(s, ClaimOne(c)) && !Enabled(s, ClaimError(c, applied))
  {
  }

  ghost predicate WithinLimits(s: State) {
    forall c :: c in s.calls ==> |s.calls[c].items| <= Max(s.calls[c].limit, 0)
  }

  lemma StepKeepsLimits(cfgs: Configs, s: State, step: Step)
    requires Enabled(s, step) && WithinLimits(s)
    ensures WithinLimits(Next(cfgs, s, step))
  {
    hide RetryBackoff, Decide, First, UpdateOne, UpdateMany, ClaimedDoc;
  }

  /** In every run whatever no call ever holds more items than its limit. */
  lemma {:induction false} CallsKeepTheirLimits(cfgs: Configs, s: State, steps: seq<Step>)
    requires IsRun(cfgs, s, steps) && WithinLimits(s)
    ensures WithinLimits(Exec(cfgs, s, steps)) && WithinLimits(Initial())
    decreases |steps|
  {
    hide Enabled, Next, WithinLimits;
    InitiallyWithin();
    if steps != [] {
      StepKeepsLimits(cfgs, s, steps[0]);
      CallsKeepTheirLimits(cfgs, Next(cfgs, s, steps[0]), steps[1..]);
    }
  }

  lemma InitiallyWithin()
    ensures WithinLimits(Initial())
  {
  }

  /** Other callers may do anything but act for the call itself. */
  lemma OthersAre(step: Step, c: CallId)
    ensures !Foreign(step, c) <==>
      || (step.Begin? && step.c == c) || (step.Crash? && step.c == c) || (step.Return? && step.c == c)
      || step in {ClaimOne(c), ClaimDone(c), ClaimError(c, true), ClaimError(c, false)}
      || (step.Finish? && step.c == c)
  {
  }

  // ---------- what an outcome leaves behind ----------

  /** A failure fails the document with the error's text, unless that is empty. */
  lemma FailureLeaves(cfg: Config, at: Time, h: Held, process: Held -> Outcome, now: Time, error: string)
    requires process(h) == TransformFailed(error) || process(h) == CallbackFailed(error)
    ensures Settle(cfg, at, h, process, now)
         == h.doc.(status := Failed, updatedAt := now, message := if error != "" then error else h.doc.message)
  {
    hide RetryBackoff;
  }

  /** An acknowledged status other than retry is stored as it is. */
  lemma AckLeaves(cfg: Config, at: Time, h: Held, process: Held -> Outcome, now: Time, status: Status)
    requires process(h) == Acked(status) && status != Retry
    ensures Settle(cfg, at, h, process, now) == h.doc.(status := status, updatedAt := now)
  {
    hide RetryBackoff;
  }

  /** Retry reschedules below the limit on attempts and fails from it on. */
  lemma RetryLeaves(cfg: Config, at: Time, h: Held, process: Held -> Outcome, now: Time)
    requires process(h) == Acked(Retry)
    ensures Settle(cfg, at, h, process, now) ==
      if h.doc.attempts < cfg.maxAttempts then
        h.doc.(status := Retry, updatedAt := now, scheduledAt := Some(at + RetryBackoff(cfg, h.doc.attempts)))
      else h.doc.(status := Failed, updatedAt := now, message := "max retry attempts reached")
  {
    hide RetryBackoff;
  }

  /** What the executor makes of an item: its transformer's error, a missing handler, and the
      handler's success or error, with the texts they are stored under. */
  lemma ExecutorOutcomes(transform: Transform, handlers: map<string, Handler>, retryable: string -> bool, h: Held,
                         item: Item)
    requires transform(h.doc) == Ok(item)
    ensures var o := Work(transform, handlers, retryable)(h);
      && (item.action !in handlers ==>
            o == CallbackFailed("user queue callback failed: " + "no handler registered for action type "
                                + ("\"" + item.action + "\"")))
      && (item.action in handlers && handlers[item.action](item) == None ==> o == Acked(Completed))
      && (item.action in handlers && handlers[item.action](item).Some? ==>
            var error := handlers[item.action](item).value;
            o == if retryable(error) then Acked(Retry)
                 else CallbackFailed("user queue callback failed: " + "queue handler failed terminally: " + error))
  {
    assert Work(transform, handlers, retryable)(h) == Process(handlers, retryable, item);
  }

  /** A transformer's error is stored as it is. */
  lemma TransformErrorIsOutcome(transform: Transform, handlers: map<string, Handler>, retryable: string -> bool,
                                h: Held, error: string)
    requires transform(h.doc) == Err(error)
    ensures Work(transform, handlers, retryable)(h) == TransformFailed(error)
  {
  }
}
