/** The queue's documents and the store operations every worker shares
    (framework/ports/enum.go, framework/ports/model.go, framework/queue/repository.go).

    Ids stand for ObjectIDs (compared as numbers, as their bytes are) and times are
    integer nanosecond ticks. */
module QueueTypes {
  import opened Options

  type Id = nat
  type Time = int

  /** Statuses are strings in the source; `Custom` is any string other than the seven constants. */
  datatype Status =
    | Unknown | Pending | Dequeued | Completed | Failed | Canceled | Retry
    | Custom(name: string)

  datatype Doc = Doc(
    tag: string,
    action: string,
    data: string,
    message: string,
    status: Status,
    priority: int,
    scheduledAt: Option<Time>,
    attempts: int,
    createdAt: Time,
    updatedAt: Time)

  type Store = map<Id, Doc>

  /** A document as a worker received it: its own copy, not the stored one. */
  datatype Held = Held(id: Id, doc: Doc)

  predicate Claimable(status: Status) {
    status == Pending || status == Retry
  }

  predicate Ready(d: Doc, tag: string, at: Time) {
    && d.tag == tag
    && Claimable(d.status)
    && (d.scheduledAt.None? || d.scheduledAt.value <= at)
  }

  function ReadySet(store: Store, tag: string, at: Time): (ids: set<Id>)
    ensures forall id :: id in ids <==> id in store && Ready(store[id], tag, at)
  {
    set id | id in store && Ready(store[id], tag, at)
  }

  /** The claim order: priority descending, creation time ascending, id ascending. */
  predicate Before(i: Id, d: Doc, j: Id, e: Doc) {
    || d.priority > e.priority
    || (d.priority == e.priority && d.createdAt < e.createdAt)
    || (d.priority == e.priority && d.createdAt == e.createdAt && i < j)
  }

  predicate IsFirst(store: Store, ids: set<Id>, id: Id)
    requires forall j :: j in ids ==> j in store
  {
    id in ids && forall j :: j in ids && j != id ==> Before(id, store[id], j, store[j])
  }

  lemma {:induction false} FirstExists(store: Store, ids: set<Id>)
    requires ids != {} && forall j :: j in ids ==> j in store
    ensures exists id :: IsFirst(store, ids, id)
    decreases ids
  {
    var x :| x in ids;
    var rest := ids - {x};
    if rest == {} {
      assert forall j :: j in ids ==> j in rest || j == x;
      assert IsFirst(store, ids, x);
    } else {
      FirstExists(store, rest);
      var f :| IsFirst(store, rest, f);
      assert IsFirst(store, ids, if Before(x, store[x], f, store[f]) then x else f);
    }
  }

  /** The document a sorted find-one picks, if any matches. */
  ghost function First(store: Store, tag: string, at: Time): (r: Option<Id>)
    ensures r.None? <==> ReadySet(store, tag, at) == {}
    ensures r.Some? ==> IsFirst(store, ReadySet(store, tag, at), r.value)
  {
    var ids := ReadySet(store, tag, at);
    if ids == {} then None
    else
      FirstExists(store, ids);
      var id :| IsFirst(store, ids, id);
      Some(id)
  }

  /** What one claim writes. */
  function ClaimedDoc(d: Doc, at: Time): Doc {
    d.(status := Dequeued, updatedAt := at, attempts := d.attempts + 1)
  }

  lemma ReadyAfterClaim(cur: Store, tag: string, at: Time, id: Id)
    requires id in ReadySet(cur, tag, at)
    ensures ReadySet(cur[id := ClaimedDoc(cur[id], at)], tag, at) == ReadySet(cur, tag, at) - {id}
  {
  }

  datatype Update =
    | SetStatus(status: Status, message: string)
    | Reschedule(scheduledAt: Time, message: string)

  /** The two single-document updates a worker finishes with; an empty message leaves
      the stored one alone. */
  function Updated(d: Doc, u: Update, now: Time): Doc {
    match u
    case SetStatus(status, message) =>
      d.(status := status, updatedAt := now, message := if message != "" then message else d.message)
    case Reschedule(scheduledAt, message) =>
      d.(status := Retry, scheduledAt := Some(scheduledAt), updatedAt := now,
         message := if message != "" then message else d.message)
  }

  function UpdateOne(store: Store, id: Id, u: Update, now: Time): Store {
    if id in store then store[id := Updated(store[id], u, now)] else store
  }

  function UpdateMany(store: Store, ids: set<Id>, u: Update, now: Time): Store {
    map id | id in store :: if id in ids then Updated(store[id], u, now) else store[id]
  }

  function NewDoc(tag: string, action: string, data: string, priority: int,
                  scheduledAt: Option<Time>, now: Time): Doc {
    Doc(tag, action, data, "", Pending, priority, scheduledAt, 0, now, now)
  }
}
