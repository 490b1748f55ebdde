/** The repository, service and executor as they run: objects that change the store in place,
    with the claim loop and the dequeue loop, shown to take only steps of QueueProtocol whatever
    other callers do between their operations and, undisturbed, to settle exactly the first
    `limit` ready items
    (framework/queue/repository.go, service.go, executor.go). */
module QueueService {
  import opened Options
  import opened QueueTypes
  import opened Backoff
  import opened QueueProtocol
  import opened QueueOthers

  /** How an update of many documents went; it is atomic for each of them only. */
  datatype ManyFault = AllFine | Partial(reached: set<Id>)

  function Reached(ids: set<Id>, fault: ManyFault): set<Id> {
    if fault.AllFine? then ids else ids * fault.reached
  }

  lemma FirstUnique(store: Store, ids: set<Id>, a: Id, b: Id)
    requires (forall j :: j in ids ==> j in store) && IsFirst(store, ids, a) && IsFirst(store, ids, b)
    ensures a == b
  {
  }

  // ---------- what the claim loop returns ----------

  ghost predicate Among(items: seq<Held>, id: Id) {
    exists i :: 0 <= i < |items| && items[i].id == id
  }

  /** `items` are the leading ready documents of `store` in claim order, each as its claim left
      it; every ready document not among them comes later; `after` is `store` with exactly
      those claims applied. */
  ghost predicate Leading(store: Store, tag: string, at: Time, items: seq<Held>, after: Store) {
    && (forall i :: 0 <= i < |items| ==>
          items[i].id in ReadySet(store, tag, at) && items[i].doc == ClaimedDoc(store[items[i].id], at))
    && (forall i, j :: 0 <= i < j < |items| ==>
          Before(items[i].id, store[items[i].id], items[j].id, store[items[j].id]))
    && (forall i, r :: 0 <= i < |items| && r in ReadySet(store, tag, at) && !Among(items, r) ==>
          Before(items[i].id, store[items[i].id], r, store[r]))
    && after.Keys == store.Keys
    && (forall id :: id in store && !Among(items, id) ==> after[id] == store[id])
    && (forall i :: 0 <= i < |items| ==> after[items[i].id] == items[i].doc)
  }

  ghost predicate TopClaimed(store: Store, tag: string, at: Time, limit: int, items: seq<Held>, after: Store) {
    && Leading(store, tag, at, items, after)
    && |items| == Min(Max(limit, 0), |ReadySet(store, tag, at)|)
  }

  /** The description above leaves no choice: there is one such list and one such store. */
  lemma TopClaimedUnique(store: Store, tag: string, at: Time, limit: int,
                         a: seq<Held>, x: Store, b: seq<Held>, y: Store)
    requires TopClaimed(store, tag, at, limit, a, x) && TopClaimed(store, tag, at, limit, b, y)
    ensures a == b && x == y
  {
    hide Before, Ready, ClaimedDoc;
    SamePrefix(store, tag, at, a, x, b, y, |a|);
    forall id | id in store ensures x[id] == y[id] {
      if Among(a, id) {
        var i :| 0 <= i < |a| && a[i].id == id;
      }
    }
  }

  lemma {:induction false} SamePrefix(store: Store, tag: string, at: Time,
                                      a: seq<Held>, x: Store, b: seq<Held>, y: Store, n: nat)
    requires Leading(store, tag, at, a, x) && Leading(store, tag, at, b, y)
    requires n <= |a| == |b|
    ensures forall i :: 0 <= i < n ==> a[i] == b[i]
  {
    hide Leading;
    if n > 0 {
      SamePrefix(store, tag, at, a, x, b, y, n - 1);
      NotLater(store, tag, at, a, x, b, y, n - 1);
      NotLater(store, tag, at, b, y, a, x, n - 1);
    }
  }

  lemma NotBoth(i: Id, d: Doc, j: Id, e: Doc)
    ensures !(Before(i, d, j, e) && Before(j, e, i, d))
  {
  }

  lemma NotLater(store: Store, tag: string, at: Time,
                 a: seq<Held>, x: Store, b: seq<Held>, y: Store, k: nat)
    requires Leading(store, tag, at, a, x) && Leading(store, tag, at, b, y)
    requires k < |a| == |b| && forall i :: 0 <= i < k ==> a[i] == b[i]
    ensures a[k].id in store && b[k].id in store
    ensures a[k] == b[k] || Before(a[k].id, store[a[k].id], b[k].id, store[b[k].id])
  {
    hide Before, Ready, ClaimedDoc;
    var r := b[k].id;
    if Among(a, r) {
      var i :| 0 <= i < |a| && a[i].id == r;
      if i < k {
        assert b[i].id == r;
        NotBoth(r, store[r], r, store[r]);
      }
    }
  }

  lemma LeadingStart(store: Store, tag: string, at: Time)
    ensures Leading(store, tag, at, [], store)
  {
  }

  lemma LeadingCount(store: Store, tag: string, at: Time, limit: int, items: seq<Held>, cur: Store)
    requires Leading(store, tag, at, items, cur) && |items| <= Max(limit, 0)
    requires |items| + |ReadySet(cur, tag, at)| == |ReadySet(store, tag, at)|
    requires |items| >= limit || ReadySet(cur, tag, at) == {}
    ensures TopClaimed(store, tag, at, limit, items, cur)
  {
    hide Leading;
  }

  lemma LeadingExtend(store: Store, tag: string, at: Time, items: seq<Held>, cur: Store, id: Id)
    requires Leading(store, tag, at, items, cur)
    requires |items| + |ReadySet(cur, tag, at)| == |ReadySet(store, tag, at)|
    requires IsFirst(cur, ReadySet(cur, tag, at), id)
    ensures id in cur
    ensures var h := Held(id, ClaimedDoc(cur[id], at));
            var next := cur[id := h.doc];
      && Leading(store, tag, at, items + [h], next)
      && |items| + 1 + |ReadySet(next, tag, at)| == |ReadySet(store, tag, at)|
  {
    hide Ready, ClaimedDoc;
    var h := Held(id, ClaimedDoc(cur[id], at));
    var next, longer := cur[id := h.doc], items + [h];
    ReadyIsRest(store, tag, at, items, cur);
    ReadyAfterClaim(cur, tag, at, id);
    AmongSnoc(items, h);
    FirstBeforeRest(store, cur, tag, at, items, id);
  }

  /** What is ready now is what was ready and is not yet among the items, so the first of it
      follows every item and precedes everything else still ready. */
  lemma FirstBeforeRest(store: Store, cur: Store, tag: string, at: Time, items: seq<Held>, id: Id)
    requires Leading(store, tag, at, items, cur)
    requires forall r :: r in ReadySet(cur, tag, at) <==> r in ReadySet(store, tag, at) && !Among(items, r)
    requires IsFirst(cur, ReadySet(cur, tag, at), id)
    ensures cur[id] == store[id]
    ensures forall i :: 0 <= i < |items| ==> Before(items[i].id, store[items[i].id], id, store[id])
    ensures forall r :: r in ReadySet(store, tag, at) && !Among(items, r) && r != id ==>
      Before(id, store[id], r, store[r])
  {
    hide Before, Ready, ClaimedDoc;
  }

  lemma AmongSnoc(items: seq<Held>, h: Held)
    ensures forall r :: Among(items + [h], r) <==> Among(items, r) || r == h.id
  {
    var longer := items + [h];
    assert longer[|items|] == h;
    forall r | Among(items, r) ensures Among(longer, r) {
      var i :| 0 <= i < |items| && items[i].id == r;
      assert longer[i].id == r;
    }
  }

  lemma ReadyIsRest(store: Store, tag: string, at: Time, items: seq<Held>, cur: Store)
    requires Leading(store, tag, at, items, cur)
    ensures forall r :: r in ReadySet(cur, tag, at) <==> r in ReadySet(store, tag, at) && !Among(items, r)
  {
    forall r | r in cur && Among(items, r) ensures !Ready(cur[r], tag, at) {
      var i :| 0 <= i < |items| && items[i].id == r;
    }
  }

  // ---------- what a call claims ----------

  /** Claims a call makes, the ones whose reply is lost included. */
  function OwnClaims(steps: seq<Step>, c: CallId): nat {
    if steps == [] then 0
    else
      var last := steps[|steps| - 1];
      OwnClaims(steps[..|steps| - 1], c) + (if last in {ClaimOne(c), ClaimError(c, true)} then 1 else 0)
  }

  lemma {:induction false} ClaimsAppend(a: seq<Step>, b: seq<Step>, c: CallId)
    ensures OwnClaims(a + b, c) == OwnClaims(a, c) + OwnClaims(b, c)
    decreases |b|
  {
    if b == [] {
      assert a + b == a;
    } else {
      assert (a + b)[..|a + b| - 1] == a + b[..|b| - 1];
      ClaimsAppend(a, b[..|b| - 1], c);
    }
  }

  lemma {:induction false} ForeignClaimsNothing(steps: seq<Step>, c: CallId)
    requires forall i :: 0 <= i < |steps| ==> Foreign(steps[i], c)
    ensures OwnClaims(steps, c) == 0
  {
    if steps != [] {
      assert Foreign(steps[|steps| - 1], c);
      ForeignClaimsNothing(steps[..|steps| - 1], c);
    }
  }

  lemma ClaimsOn(cfgs: Configs, s: State, steps: seq<Step>, c: CallId, others: Others, x: Point, own: Step)
    requires Possible(cfgs, s, c, others, x)
    ensures OwnClaims(steps + others.steps(x) + [own], c)
         == OwnClaims(steps, c) + (if own in {ClaimOne(c), ClaimError(c, true)} then 1 else 0)
  {
    ForeignClaimsNothing(others.steps(x), c);
    ClaimsAppend(steps, others.steps(x), c);
    ClaimsAppend(steps + others.steps(x), [own], c);
    OneOwn(own, c);
  }

  lemma NoneOwn(c: CallId)
    ensures OwnClaims([], c) == 0
  {
  }

  lemma OneOwn(own: Step, c: CallId)
    ensures OwnClaims([own], c) == if own in {ClaimOne(c), ClaimError(c, true)} then 1 else 0
  {
    assert [own][..0] == [];
  }

  /** The documents a claim at time `at` may take, by their fields. */
  function Due(store: Store, tag: string, at: Time): set<Id> {
    set id | id in store && store[id].tag == tag && store[id].status in {Pending, Retry}
             && (store[id].scheduledAt == None || store[id].scheduledAt.value <= at)
  }

  lemma DueIsReady(store: Store, tag: string, at: Time)
    ensures Due(store, tag, at) == ReadySet(store, tag, at)
  {
  }

  /** What a claim hands out, by the fields of the document. */
  predicate FreshClaim(d: Doc, tag: string, at: Time) {
    && d.tag == tag && d.status == Dequeued && d.updatedAt == at
    && (d.scheduledAt == None || d.scheduledAt.value <= at)
  }

  lemma ClaimIsFresh(store: Store, tag: string, at: Time)
    ensures var first := First(store, tag, at);
      first.Some? ==> first.value in store && FreshClaim(ClaimedDoc(store[first.value], at), tag, at)
  {
  }

  lemma FreshItems(items: seq<Held>, tag: string, at: Time)
    requires forall i :: 0 <= i < |items| ==> FreshClaim(items[i].doc, tag, at)
    ensures forall i :: 0 <= i < |items| ==>
      && items[i].doc.tag == tag && items[i].doc.status == Dequeued && items[i].doc.updatedAt == at
      && (items[i].doc.scheduledAt == None || items[i].doc.scheduledAt.value <= at)
  {
  }

  // ---------- the repository ----------

  /** The documents a status filter selects. */
  function WithStatus(store: Store, tag: string, statuses: set<Status>): (ids: set<Id>)
    ensures forall id :: id in ids <==> id in store && store[id].tag == tag && store[id].status in statuses
  {
    set id | id in store && store[id].tag == tag && store[id].status in statuses
  }

  class Repository {
    var docs: Store

    constructor ()
      ensures docs == map[]
    {
      docs := map[];
    }

    /** Ids are generated fresh by the caller. None is the error return. */
    method InsertItem(id: Id, item: Doc, fault: Fault) returns (result: Option<Id>)
      requires id !in docs
      modifies this
      ensures result == if fault.Fine? then Some(id) else None
      ensures docs == if fault == Lost(false) then old(docs) else old(docs)[id := item]
    {
      if fault != Lost(false) {
        docs := docs[id := item];
      }
      result := if fault.Fine? then Some(id) else None;
    }

    method FindOneAndUpdate(tag: string, at: Time) returns (r: Option<Held>)
      modifies this
      ensures var first := First(old(docs), tag, at);
        if first.None? then r == None && docs == old(docs)
        else (docs == old(docs)[first.value := ClaimedDoc(old(docs)[first.value], at)]
              && r == Some(Held(first.value, docs[first.value])))
    {
      var ids := ReadySet(docs, tag, at);
      if ids == {} {
        return None;
      }
      FirstExists(docs, ids);
      var id :| id in ids && IsFirst(docs, ids, id);
      FirstUnique(docs, ids, id, First(docs, tag, at).value);
      docs := docs[id := ClaimedDoc(docs[id], at)];
      r := Some(Held(id, docs[id]));
    }

    /** None is the error return. `faults(i)` is the fate of the i-th find-and-update, `others`
        what other callers do before each. The ghost state is any state of the system whose
        store this is and in which call `c` has just begun. */
    method ClaimReadyItems(tag: string, at: Time, limit: int, faults: nat -> Fault, others: Others,
                           ghost cfgs: Configs, ghost s: State, ghost c: CallId)
      returns (result: Option<seq<Held>>, ghost steps: seq<Step>)
      requires s.store == docs && c in s.calls && s.calls[c] == Call(tag, at, limit, true, [])
      requires ClaimsPossible(cfgs, s, c, others, faults)
      modifies this
      ensures IsRun(cfgs, s, steps) && Exec(cfgs, s, steps) == ClaimEnd(cfgs, s, c, others, faults)
      ensures ClaimEnd(cfgs, s, c, others, faults).store == docs
      ensures var e := ClaimEnd(cfgs, s, c, others, faults);
        if result.Some? then c in e.calls && e.calls[c] == Call(tag, at, limit, false, result.value) else c !in e.calls
      ensures (forall i :: faults(i) == Fine) ==> result.Some?
      ensures OwnClaims(steps, c) <= Max(limit, 0) && (result.Some? ==> |result.value| == OwnClaims(steps, c))
      ensures result.Some? ==> forall i :: 0 <= i < |result.value| ==> FreshClaim(result.value[i].doc, tag, at)
      ensures Quiet(others) && result.Some? ==>
        ClaimEnd(cfgs, s, c, others, faults).calls == s.calls[c := Call(tag, at, limit, false, result.value)]
      ensures Quiet(others) && result.None? ==> ClaimEnd(cfgs, s, c, others, faults).calls == s.calls - {c}
      ensures Quiet(others) && result.Some? ==> TopClaimed(old(docs), tag, at, limit, result.value, docs)
    {
      hide RetryBackoff, Decide, Leading, IsFirst, IsRun, Exec, Quiet, Possible, Next, Enabled, ClaimedDoc;
      hide ClaimsPossible, ClaimEnd, OwnClaims, FreshClaim;
      LeadingStart(docs, tag, at);
      RunNone(cfgs, s);
      NoneOwn(c);
      var items := [];
      steps := [];
      ghost var now := s;
      while |items| < limit
        invariant IsRun(cfgs, s, steps) && now == Exec(cfgs, s, steps) && now.store == docs
        invariant IsClaiming(now, c) && now.calls[c] == Call(tag, at, limit, true, items)
        invariant ClaimsPossible(cfgs, now, c, others, faults)
        invariant ClaimEnd(cfgs, s, c, others, faults) == ClaimEnd(cfgs, now, c, others, faults)
        invariant |items| <= Max(limit, 0) && OwnClaims(steps, c) == |items|
        invariant forall i :: 0 <= i < |items| ==> FreshClaim(items[i].doc, tag, at)
        invariant Quiet(others) ==> now.calls == s.calls[c := Call(tag, at, limit, true, items)]
        invariant Quiet(others) ==> Leading(old(docs), tag, at, items, docs)
        invariant Quiet(others) ==> |items| + |ReadySet(docs, tag, at)| == |ReadySet(old(docs), tag, at)|
        decreases limit - |items|
      {
        ghost var x := AtClaim(|items|);
        ClaimPoint(cfgs, now, c, others, faults);
        ghost var t := Exec(cfgs, now, others.steps(x));
        docs := others.meets(AtClaim(|items|));
        var fault := faults(|items|);
        if fault != Fine {
          if fault.applied {
            var _ := FindOneAndUpdate(tag, at);
          }
          RunOn(cfgs, s, steps, c, others, x, ClaimError(c, fault.applied));
          ClaimsOn(cfgs, now, steps, c, others, x, ClaimError(c, fault.applied));
          assert s.calls[c := Call(tag, at, limit, true, items)] - {c} == s.calls - {c};
          steps := steps + others.steps(x) + [ClaimError(c, fault.applied)];
          return None, steps;
        }
        ghost var before := docs;
        var item := FindOneAndUpdate(tag, at);
        if item.None? {
          RunOn(cfgs, s, steps, c, others, x, ClaimDone(c));
          ClaimsOn(cfgs, now, steps, c, others, x, ClaimDone(c));
          steps := steps + others.steps(x) + [ClaimDone(c)];
          if Quiet(others) {
            LeadingCount(old(docs), tag, at, limit, items, docs);
          }
          return Some(items), steps;
        }
        RunOn(cfgs, s, steps, c, others, x, ClaimOne(c));
        ClaimsOn(cfgs, now, steps, c, others, x, ClaimOne(c));
        ClaimIsFresh(before, tag, at);
        if Quiet(others) {
          LeadingExtend(old(docs), tag, at, items, before, item.value.id);
        }
        steps := steps + others.steps(x) + [ClaimOne(c)];
        items := items + [item.value];
        now := Next(cfgs, t, ClaimOne(c));
      }
      if Quiet(others) {
        LeadingCount(old(docs), tag, at, limit, items, docs);
      }
      LimitReached(cfgs, now, c, others, faults);
      RunSnoc(cfgs, s, steps, ClaimDone(c));
      ClaimsAppend(steps, [ClaimDone(c)], c);
      OneOwn(ClaimDone(c), c);
      steps := steps + [ClaimDone(c)];
      result := Some(items);
    }

    method UpdateStatus(id: Id, status: Status, message: string, now: Time, fault: Fault) returns (ok: bool)
      modifies this
      ensures ok == fault.Fine?
      ensures docs == if fault == Lost(false) then old(docs)
                      else UpdateOne(old(docs), id, SetStatus(status, message), now)
    {
      if fault != Lost(false) && id in docs {
        var d := docs[id].(status := status, updatedAt := now);
        if message != "" {
          d := d.(message := message);
        }
        docs := docs[id := d];
      }
      ok := fault.Fine?;
    }

    method RescheduleItem(id: Id, scheduledAt: Time, message: string, now: Time, fault: Fault) returns (ok: bool)
      modifies this
      ensures ok == fault.Fine?
      ensures docs == if fault == Lost(false) then old(docs)
                      else UpdateOne(old(docs), id, Reschedule(scheduledAt, message), now)
    {
      if fault != Lost(false) && id in docs {
        var d := docs[id].(status := Retry, scheduledAt := Some(scheduledAt), updatedAt := now);
        if message != "" {
          d := d.(message := message);
        }
        docs := docs[id := d];
      }
      ok := fault.Fine?;
    }

    /** On an error any part of the ids may have been updated: those in `reached`. */
    method UpdateManyStatus(ids: set<Id>, status: Status, message: string, now: Time, fault: ManyFault)
      returns (ok: bool)
      modifies this
      ensures ok == fault.AllFine?
      ensures docs == UpdateMany(old(docs), Reached(ids, fault), SetStatus(status, message), now)
      ensures docs.Keys == old(docs).Keys
      ensures forall id :: id in docs ==>
        docs[id] == if id in ids && (fault.AllFine? || id in fault.reached) then
                      old(docs)[id].(status := status, updatedAt := now,
                                     message := if message != "" then message else old(docs)[id].message)
                    else old(docs)[id]
    {
      var hit := Reached(ids, fault);
      docs := map id | id in docs ::
        if id in hit then Updated(docs[id], SetStatus(status, message), now) else docs[id];
      ok := fault.AllFine?;
    }

    method CountByStatuses(tag: string, statuses: set<Status>) returns (count: nat)
      ensures count == |WithStatus(docs, tag, statuses)|
    {
      count := |WithStatus(docs, tag, statuses)|;
    }
  }

  // ---------- the service ----------

  /** The store after an undisturbed dequeue call: pointwise, the claimed items are settled by
      their outcomes and nothing else changes. */
  ghost predicate Settled(store: Store, tag: string, at: Time, limit: int, cfg: Config,
                          process: Held -> Outcome, clock: nat -> Time, items: seq<Held>, after: Store) {
    && (exists mid :: TopClaimed(store, tag, at, limit, items, mid))
    && after.Keys == store.Keys
    && (forall id :: id in store && !Among(items, id) ==> after[id] == store[id])
    && (forall i :: 0 <= i < |items| ==>
          items[i].id in after && after[items[i].id] == Settle(cfg, at, items[i], process, clock(i)))
  }

  function Settle(cfg: Config, at: Time, h: Held, process: Held -> Outcome, now: Time): Doc {
    Updated(h.doc, Decide(cfg, at, h.doc, process(h)), now)
  }

  /** Part-way: the first n of the claimed items are settled. */
  ghost predicate SettledUpTo(mid: Store, at: Time, cfg: Config, process: Held -> Outcome, clock: nat -> Time,
                              items: seq<Held>, n: nat, cur: Store)
    requires n <= |items|
  {
    && cur.Keys == mid.Keys
    && (forall i :: 0 <= i < |items| ==> items[i].id in cur)
    && (forall id :: id in mid && !Among(items[..n], id) ==> cur[id] == mid[id])
    && (forall i :: 0 <= i < n ==> cur[items[i].id] == Settle(cfg, at, items[i], process, clock(i)))
  }

  /** Each item is in the store once, as its claim left it. */
  ghost predicate ClaimedIn(mid: Store, items: seq<Held>) {
    && (forall i :: 0 <= i < |items| ==> items[i].id in mid && mid[items[i].id] == items[i].doc)
    && (forall i, j :: 0 <= i < j < |items| ==> items[i].id != items[j].id)
  }

  lemma TopIsClaimedIn(store: Store, tag: string, at: Time, limit: int, items: seq<Held>, mid: Store)
    requires TopClaimed(store, tag, at, limit, items, mid)
    ensures ClaimedIn(mid, items)
  {
    hide Ready, ClaimedDoc;
    forall i, j | 0 <= i < j < |items| ensures items[i].id != items[j].id {
      assert Before(items[i].id, store[items[i].id], items[j].id, store[items[j].id]);
    }
  }

  lemma TopCount(store: Store, tag: string, at: Time, limit: int, items: seq<Held>, mid: Store)
    requires TopClaimed(store, tag, at, limit, items, mid)
    ensures |items| == Min(Max(limit, 0), |ReadySet(store, tag, at)|)
  {
    hide Leading;
  }

  lemma SettleNone(at: Time, cfg: Config, process: Held -> Outcome, clock: nat -> Time, items: seq<Held>, mid: Store)
    requires ClaimedIn(mid, items)
    ensures SettledUpTo(mid, at, cfg, process, clock, items, 0, mid)
  {
  }

  lemma SettleAll(store: Store, tag: string, at: Time, limit: int, cfg: Config, process: Held -> Outcome,
                  clock: nat -> Time, items: seq<Held>, mid: Store, after: Store)
    requires TopClaimed(store, tag, at, limit, items, mid)
    requires SettledUpTo(mid, at, cfg, process, clock, items, |items|, after)
    ensures Settled(store, tag, at, limit, cfg, process, clock, items, after)
  {
    hide Settle;
    assert items[..|items|] == items;
  }

  /** A settled item in terms of the store before the call alone. */
  lemma SettledItem(store: Store, tag: string, at: Time, limit: int, cfg: Config, process: Held -> Outcome,
                    clock: nat -> Time, items: seq<Held>, after: Store, i: nat)
    requires Settled(store, tag, at, limit, cfg, process, clock, items, after) && i < |items|
    ensures var id := items[i].id;
      && id in store && id in after && Ready(store[id], tag, at)
      && items[i] == Held(id, ClaimedDoc(store[id], at))
      && after[id] == Settle(cfg, at, items[i], process, clock(i))
  {
    hide Settle, Ready, ClaimedDoc, Before;
    var mid :| TopClaimed(store, tag, at, limit, items, mid);
    assert items[i].id in ReadySet(store, tag, at);
  }

  lemma SettledCount(store: Store, tag: string, at: Time, limit: int, cfg: Config, process: Held -> Outcome,
                     clock: nat -> Time, items: seq<Held>, after: Store)
    requires Settled(store, tag, at, limit, cfg, process, clock, items, after)
    ensures |items| == Min(Max(limit, 0), |ReadySet(store, tag, at)|)
  {
    hide Leading, Settle;
  }

  lemma SettleNext(at: Time, cfg: Config, process: Held -> Outcome, clock: nat -> Time,
                   items: seq<Held>, mid: Store, n: nat, cur: Store)
    requires ClaimedIn(mid, items) && n < |items|
    requires SettledUpTo(mid, at, cfg, process, clock, items, n, cur)
    ensures SettledUpTo(mid, at, cfg, process, clock, items, n + 1,
              UpdateOne(cur, items[n].id, Decide(cfg, at, items[n].doc, process(items[n])), clock(n)))
  {
    hide Decide, Updated, RetryBackoff;
    StillHeld(at, cfg, process, clock, items, mid, n, cur);
    SettleOne(at, cfg, process, clock, items, mid, n, cur, Settle(cfg, at, items[n], process, clock(n)));
  }

  /** The next item is still as its claim left it. */
  lemma StillHeld(at: Time, cfg: Config, process: Held -> Outcome, clock: nat -> Time,
                  items: seq<Held>, mid: Store, n: nat, cur: Store)
    requires ClaimedIn(mid, items) && n < |items|
    requires SettledUpTo(mid, at, cfg, process, clock, items, n, cur)
    ensures items[n].id in cur && cur[items[n].id] == items[n].doc
  {
    hide Settle;
    assert items[n].id in mid;
  }

  lemma SettleOne(at: Time, cfg: Config, process: Held -> Outcome, clock: nat -> Time,
                  items: seq<Held>, mid: Store, n: nat, cur: Store, d: Doc)
    requires ClaimedIn(mid, items) && n < |items| && d == Settle(cfg, at, items[n], process, clock(n))
    requires SettledUpTo(mid, at, cfg, process, clock, items, n, cur)
    ensures SettledUpTo(mid, at, cfg, process, clock, items, n + 1, cur[items[n].id := d])
  {
    hide Settle, Among;
    assert items[..n + 1] == items[..n] + [items[n]];
    AmongSnoc(items[..n], items[n]);
  }

  class Service {
    const repository: Repository
    const tag: string
    const dequeueLimit: int
    const cfg: Config

    constructor (repository: Repository, tag: string, dequeueLimit: int, cfg: Config)
      ensures this.repository == repository && this.tag == tag
      ensures this.dequeueLimit == dequeueLimit && this.cfg == cfg
    {
      this.repository := repository;
      this.tag := tag;
      this.dequeueLimit := dequeueLimit;
      this.cfg := cfg;
    }

    method Enqueue(id: Id, action: string, data: string, priority: int, scheduledAt: Option<Time>, now: Time,
                   fault: Fault,
                   ghost cfgs: Configs, ghost s: State)
      returns (result: Option<Id>)
      requires s.store == repository.docs && id !in s.store
      modifies repository
      ensures result == if fault.Fine? then Some(id) else None
      ensures fault == Lost(false) ==> repository.docs == s.store
      ensures fault != Lost(false) ==>
        var step := QueueProtocol.Enqueue(id, NewDoc(tag, action, data, priority, scheduledAt, now));
        Enabled(s, step) && repository.docs == Next(cfgs, s, step).store
      ensures fault != Lost(false) ==> (
        && id in repository.docs && repository.docs - {id} == s.store
        && var d := repository.docs[id];
           && d.tag == tag && d.action == action && d.data == data && d.message == "" && d.status == Pending
           && d.priority == priority && d.scheduledAt == scheduledAt && d.attempts == 0
           && d.createdAt == now && d.updatedAt == now)
    {
      var item := Doc(tag, action, data, "", Pending, priority, scheduledAt, 0, now, now);
      result := repository.InsertItem(id, item, fault);
    }

    /** One dequeue call. `atOption` and `limitOption` are the caller's options, `process` is the
        transformer followed by the callback, `clock(i)` the time of the i-th item's update,
        `others` what other callers do before each operation. Whatever they do and whatever
        faults occur, the call takes only protocol steps and leaves no trace among the running
        calls; undisturbed and without faults the store is settled pointwise. */
    method Dequeue(now: Time, atOption: Option<Time>, limitOption: Option<int>, process: Held -> Outcome,
                   clock: nat -> Time, claimFaults: nat -> Fault, updateFaults: nat -> Fault, others: Others,
                   ghost cfgs: Configs, ghost s: State, ghost c: CallId)
      returns (ok: bool, ghost steps: seq<Step>, ghost items: seq<Held>)
      requires s.store == repository.docs && c !in s.calls && cfgs(tag) == cfg
      requires AllPossible(cfgs, s, c, tag, if atOption.Some? then atOption.value else now,
                           if limitOption.Some? then limitOption.value else dequeueLimit, process, clock,
                           claimFaults, updateFaults, others)
      modifies repository
      ensures IsRun(cfgs, s, steps)
      ensures Exec(cfgs, s, steps).store == repository.docs && c !in Exec(cfgs, s, steps).calls
      ensures (forall i :: claimFaults(i) == Fine) ==> ok
      ensures Quiet(others) ==> Exec(cfgs, s, steps).calls == s.calls
      ensures Quiet(others) && ok && (forall i :: updateFaults(i) == Fine) ==>
        Settled(old(repository.docs), tag, if atOption.Some? then atOption.value else now,
                if limitOption.Some? then limitOption.value else dequeueLimit, cfg, process, clock, items,
                repository.docs)
      ensures limitOption.Some? ==> OwnClaims(steps, c) <= Max(limitOption.value, 0)
      ensures limitOption.None? ==> OwnClaims(steps, c) <= Max(dequeueLimit, 0)
      ensures ok ==> |items| == OwnClaims(steps, c)
      ensures Quiet(others) && ok ==>
        |items| == Min(Max(if limitOption.Some? then limitOption.value else dequeueLimit, 0),
                       |Due(old(repository.docs), tag, if atOption.Some? then atOption.value else now)|)
      ensures ok ==> forall i :: 0 <= i < |items| ==>
        var d, t := items[i].doc, if atOption.Some? then atOption.value else now;
        && d.tag == tag && d.status == Dequeued && d.updatedAt == t
        && (d.scheduledAt == None || d.scheduledAt.value <= t)
    {
      hide RetryBackoff, Decide, TopClaimed, SettledUpTo, IsRun, Exec, Settled, Quiet;
      hide ClaimsPossible, FinishesPossible, ClaimEnd, OwnClaims, FreshClaim;
      var at := now;
      var limit := dequeueLimit;
      if atOption.Some? {
        at := atOption.value;
      }
      if limitOption.Some? {
        limit := limitOption.value;
      }

      ghost var begin := Begin(c, tag, at, limit);
      ghost var begun := Next(cfgs, s, begin);
      RunOne(cfgs, s, begin);
      var claimed, claimSteps := repository.ClaimReadyItems(tag, at, limit, claimFaults, others, cfgs, begun, c);
      RunConcat(cfgs, s, [begin], claimSteps);
      ClaimsAppend([begin], claimSteps, c);
      OneOwn(begin, c);
      steps := [begin] + claimSteps;
      items := [];
      if claimed.None? {
        assert s.calls[c := Call(tag, at, limit, true, [])] - {c} == s.calls;
        return false, steps, items;
      }
      items := claimed.value;
      FreshItems(items, tag, at);
      ghost var mid := repository.docs;
      ghost var held := ClaimEnd(cfgs, begun, c, others, claimFaults);
      if Quiet(others) {
        TopCount(old(repository.docs), tag, at, limit, items, mid);
        DueIsReady(old(repository.docs), tag, at);
        TopIsClaimedIn(old(repository.docs), tag, at, limit, items, mid);
      }
      var finishSteps := FinishItems(at, limit, claimed.value, process, clock, updateFaults, others, cfgs, held, c);
      RunConcat(cfgs, s, steps, finishSteps);
      ClaimsAppend(steps, finishSteps, c);
      steps := steps + finishSteps;
      assert s.calls[c := Call(tag, at, limit, false, items)] - {c} == s.calls;
      if Quiet(others) && forall i :: updateFaults(i) == Fine {
        SettleAll(old(repository.docs), tag, at, limit, cfg, process, clock, items, mid, repository.docs);
      }
      ok := true;
    }

    /** The second half of a dequeue call: its loop over the claimed items. */
    method FinishItems(at: Time, limit: int, items: seq<Held>, process: Held -> Outcome, clock: nat -> Time,
                       faults: nat -> Fault, others: Others, ghost cfgs: Configs, ghost s: State, ghost c: CallId)
      returns (ghost steps: seq<Step>)
      requires s.store == repository.docs && cfgs(tag) == cfg
      requires c in s.calls && s.calls[c] == Call(tag, at, limit, false, items)
      requires FinishesPossible(cfgs, s, c, others, process, clock, faults, 0)
      modifies repository
      ensures IsRun(cfgs, s, steps)
      ensures Exec(cfgs, s, steps).store == repository.docs && c !in Exec(cfgs, s, steps).calls
      ensures OwnClaims(steps, c) == 0
      ensures Quiet(others) ==> Exec(cfgs, s, steps).calls == s.calls - {c}
      ensures Quiet(others) && ClaimedIn(old(repository.docs), items) && (forall i :: faults(i) == Fine) ==>
        SettledUpTo(old(repository.docs), at, cfg, process, clock, items, |items|, repository.docs)
    {
      hide RetryBackoff, Decide, IsRun, Exec, SettledUpTo, ClaimedIn, Quiet, Possible, Next, Enabled, FinishesPossible;
      hide OwnClaims;
      steps := [];
      RunNone(cfgs, s);
      NoneOwn(c);
      ghost var undisturbed := Quiet(others) && ClaimedIn(repository.docs, items);
      if undisturbed {
        SettleNone(at, cfg, process, clock, items, repository.docs);
      }
      assert items[0..] == items;
      ghost var now := s;
      for i := 0 to |items|
        invariant IsRun(cfgs, s, steps) && now == Exec(cfgs, s, steps) && now.store == repository.docs
        invariant c in now.calls && now.calls[c] == Call(tag, at, limit, false, items[i..])
        invariant FinishesPossible(cfgs, now, c, others, process, clock, faults, i) && OwnClaims(steps, c) == 0
        invariant Quiet(others) ==> now.calls == s.calls[c := Call(tag, at, limit, false, items[i..])]
        invariant
          Quiet(others) && ClaimedIn(old(repository.docs), items) && (forall j :: 0 <= j < i ==> faults(j) == Fine)
          ==> undisturbed
        invariant undisturbed ==> Quiet(others) && ClaimedIn(old(repository.docs), items)
        invariant undisturbed ==> SettledUpTo(old(repository.docs), at, cfg, process, clock, items, i, repository.docs)
      {
        assert items[i..][0] == items[i] && items[i..][1..] == items[i + 1..];
        ghost var x := AtFinish(i);
        FinishPoint(cfgs, now, c, others, process, clock, faults, i);
        ghost var t := Exec(cfgs, now, others.steps(x));
        repository.docs := others.meets(AtFinish(i));
        var outcome := process(items[i]);
        ghost var step := FinishStep(c, items[i], process, clock(i), faults(i));
        RunOn(cfgs, s, steps, c, others, x, step);
        ClaimsOn(cfgs, now, steps, c, others, x, step);
        undisturbed := undisturbed && faults(i) == Fine;
        if undisturbed {
          SettleNext(at, cfg, process, clock, items, old(repository.docs), i, repository.docs);
        }
        FinishItem(at, items[i], outcome, clock(i), faults(i));
        steps := steps + others.steps(x) + [step];
        now := Next(cfgs, t, step);
      }
      ReturnDrops(cfgs, now, c);
      RunSnoc(cfgs, s, steps, Return(c));
      ClaimsAppend(steps, [Return(c)], c);
      OneOwn(Return(c), c);
      steps := steps + [Return(c)];
    }

    /** The branches of the dequeue loop's body; the errors of its updates are ignored. */
    method FinishItem(at: Time, item: Held, outcome: Outcome, now: Time, fault: Fault)
      modifies repository
      ensures repository.docs == if fault == Lost(false) then old(repository.docs)
        else UpdateOne(old(repository.docs), item.id, Decide(cfg, at, item.doc, outcome), now)
    {
      if outcome.TransformFailed? || outcome.CallbackFailed? {
        var _ := repository.UpdateStatus(item.id, Failed, outcome.error, now, fault);
      } else if outcome.status == Retry {
        if item.doc.attempts >= cfg.maxAttempts {
          var _ := repository.UpdateStatus(item.id, Failed, "max retry attempts reached", now, fault);
        } else {
          var nextSchedule := at + RetryBackoff(cfg, item.doc.attempts);
          var _ := repository.RescheduleItem(item.id, nextSchedule, "", now, fault);
        }
      } else {
        var _ := repository.UpdateStatus(item.id, outcome.status, "", now, fault);
      }
    }

    method Cancel(id: Id, reason: string, now: Time, fault: Fault, ghost cfgs: Configs, ghost s: State)
      returns (ok: bool)
      requires s.store == repository.docs
      modifies repository
      ensures ok == fault.Fine?
      ensures repository.docs == if fault == Lost(false) then s.store
                                 else Next(cfgs, s, QueueProtocol.Cancel({id}, reason, now)).store
    {
      assert UpdateOne(s.store, id, SetStatus(Canceled, reason), now)
          == UpdateMany(s.store, {id}, SetStatus(Canceled, reason), now);
      ok := repository.UpdateStatus(id, Canceled, reason, now, fault);
    }

    method BulkCancel(ids: set<Id>, reason: string, now: Time, fault: ManyFault, ghost cfgs: Configs, ghost s: State)
      returns (ok: bool)
      requires s.store == repository.docs
      modifies repository
      ensures ok == fault.AllFine?
      ensures repository.docs == Next(cfgs, s, QueueProtocol.Cancel(Reached(ids, fault), reason, now)).store
      ensures ok ==> forall id :: id in ids && id in s.store ==>
        id in repository.docs && repository.docs[id].status == Canceled
    {
      ok := repository.UpdateManyStatus(ids, Canceled, reason, now, fault);
    }

    /** An error from the store reads as "empty". */
    method IsEmpty(fault: Fault) returns (empty: bool)
      ensures empty <==> fault != Fine || NothingWaiting(repository.docs, tag)
      ensures fault == Fine ==> (empty <==> forall id :: id in repository.docs && repository.docs[id].tag == tag ==>
        repository.docs[id].status != Pending && repository.docs[id].status != Retry)
    {
      if fault != Fine {
        return true;
      }
      var count := repository.CountByStatuses(tag, {Pending, Retry});
      assert forall id :: id in WithStatus(repository.docs, tag, {Pending, Retry}) <==>
                          Waiting(repository.docs, tag, id);
      empty := count == 0;
    }
  }

  ghost predicate Waiting(store: Store, tag: string, id: Id) {
    id in store && store[id].tag == tag && Claimable(store[id].status)
  }

  ghost predicate NothingWaiting(store: Store, tag: string) {
    forall id :: !Waiting(store, tag, id)
  }
}
