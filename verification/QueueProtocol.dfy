/** The work queue as a step system: any number of dequeue calls share one document store,
    and every find-and-update or update on the store is one atomic step. A call first claims
    documents one at a time, then finishes them in order
    (framework/queue/service.go, framework/queue/repository.go). */
module QueueProtocol {
  import opened Options
  import opened QueueTypes
  import opened Backoff

  type CallId = nat

  /** One running dequeue call. `items` are the claimed documents it has not finished yet. */
  datatype Call = Call(tag: string, at: Time, limit: int, claiming: bool, items: seq<Held>)

  /** A claim the store has carried out: the attempt number it wrote and the caller's `at`. */
  datatype Claim = Claim(id: Id, attempts: int, at: Time)

  /** `log` is a history variable; no step reads it. */
  datatype State = State(store: Store, calls: map<CallId, Call>, log: seq<Claim>)

  /** What transforming and processing one item yields: a transformer error, a callback error,
      or the status the callback acknowledged with. */
  datatype Outcome =
    | TransformFailed(error: string)
    | CallbackFailed(error: string)
    | Acked(status: Status)

  /** Retry settings of the service that owns a tag. */
  type Configs = string -> Config

  /** The update a dequeue call issues for one claimed item. */
  function Decide(cfg: Config, at: Time, item: Doc, o: Outcome): Update {
    match o
    case TransformFailed(error) => SetStatus(Failed, error)
    case CallbackFailed(error) => SetStatus(Failed, error)
    case Acked(status) =>
      if status != Retry then SetStatus(status, "")
      else if item.attempts >= cfg.maxAttempts then SetStatus(Failed, "max retry attempts reached")
      else Reschedule(at + RetryBackoff(cfg, item.attempts), "")
  }

  /** `applied` says whether the store carried out an operation whose reply was an error
      (ClaimError), or whether an update whose error the caller ignores took effect (Finish). */
  datatype Step =
    | Enqueue(id: Id, doc: Doc)
    | Begin(c: CallId, tag: string, at: Time, limit: int)
    | ClaimOne(c: CallId)
    | ClaimDone(c: CallId)
    | ClaimError(c: CallId, applied: bool)
    | Finish(c: CallId, outcome: Outcome, now: Time, applied: bool)
    | Return(c: CallId)
    | Crash(c: CallId)
    | Cancel(ids: set<Id>, message: string, now: Time)
    | UpdateData(id: Id, data: string, now: Time)
    | ForceStatus(id: Id, status: Status, now: Time)

  ghost predicate Enabled(s: State, step: Step) {
    match step
    case Enqueue(id, doc) =>
      id !in s.store && doc == NewDoc(doc.tag, doc.action, doc.data, doc.priority, doc.scheduledAt, doc.createdAt)
    case Begin(c, _, _, _) => c !in s.calls
    case ClaimOne(c) =>
      c in s.calls && s.calls[c].claiming && |s.calls[c].items| < s.calls[c].limit
      && First(s.store, s.calls[c].tag, s.calls[c].at).Some?
    case ClaimDone(c) =>
      c in s.calls && s.calls[c].claiming
      && (|s.calls[c].items| >= s.calls[c].limit || First(s.store, s.calls[c].tag, s.calls[c].at).None?)
    case ClaimError(c, _) =>
      c in s.calls && s.calls[c].claiming && |s.calls[c].items| < s.calls[c].limit
    case Finish(c, _, _, _) => c in s.calls && !s.calls[c].claiming && s.calls[c].items != []
    case Return(c) => c in s.calls && !s.calls[c].claiming && s.calls[c].items == []
    case Crash(c) => c in s.calls
    case Cancel(_, _, _) => true
    case UpdateData(_, _, _) => true
    case ForceStatus(_, _, _) => true
  }

  /** The store's side of one claim. */
  function Grab(s: State, id: Id, at: Time): State
    requires id in s.store
  {
    var d := ClaimedDoc(s.store[id], at);
    s.(store := s.store[id := d], log := s.log + [Claim(id, d.attempts, at)])
  }

  /** The caller's side: the updated document joins the call's items. */
  function Receive(s: State, c: CallId, id: Id): State
    requires c in s.calls && id in s.store
  {
    s.(calls := s.calls[c := s.calls[c].(items := s.calls[c].items + [Held(id, s.store[id])])])
  }

  function Drop(s: State, c: CallId): State {
    s.(calls := s.calls - {c})
  }

  ghost function Next(cfgs: Configs, s: State, step: Step): State
    requires Enabled(s, step)
  {
    match step
    case Enqueue(id, doc) => s.(store := s.store[id := doc])
    case Begin(c, tag, at, limit) => s.(calls := s.calls[c := Call(tag, at, limit, true, [])])
    case ClaimOne(c) =>
      var id := First(s.store, s.calls[c].tag, s.calls[c].at).value;
      Receive(Grab(s, id, s.calls[c].at), c, id)
    case ClaimDone(c) => s.(calls := s.calls[c := s.calls[c].(claiming := false)])
    case ClaimError(c, applied) =>
      var first := First(s.store, s.calls[c].tag, s.calls[c].at);
      Drop(if applied && first.Some? then Grab(s, first.value, s.calls[c].at) else s, c)
    case Finish(c, outcome, now, applied) =>
      var call := s.calls[c];
      var h := call.items[0];
      s.(calls := s.calls[c := call.(items := call.items[1..])],
         store := if applied then UpdateOne(s.store, h.id, Decide(cfgs(call.tag), call.at, h.doc, outcome), now)
                  else s.store)
    case Return(c) => Drop(s, c)
    case Crash(c) => Drop(s, c)
    case Cancel(ids, message, now) => s.(store := UpdateMany(s.store, ids, SetStatus(Canceled, message), now))
    case UpdateData(id, data, now) =>
      s.(store := if id in s.store then s.store[id := s.store[id].(data := data, updatedAt := now)] else s.store)
    case ForceStatus(id, status, now) => s.(store := UpdateOne(s.store, id, SetStatus(status, ""), now))
  }

  function Initial(): State { State(map[], map[], []) }

  ghost predicate IsRun(cfgs: Configs, s: State, steps: seq<Step>)
    decreases |steps|
  {
    steps == [] || (Enabled(s, steps[0]) && IsRun(cfgs, Next(cfgs, s, steps[0]), steps[1..]))
  }

  ghost function Exec(cfgs: Configs, s: State, steps: seq<Step>): State
    requires IsRun(cfgs, s, steps)
    decreases |steps|
  {
    if steps == [] then s else Exec(cfgs, Next(cfgs, s, steps[0]), steps[1..])
  }

  lemma {:induction false} RunConcat(cfgs: Configs, s: State, a: seq<Step>, b: seq<Step>)
    requires IsRun(cfgs, s, a) && IsRun(cfgs, Exec(cfgs, s, a), b)
    ensures IsRun(cfgs, s, a + b) && Exec(cfgs, s, a + b) == Exec(cfgs, Exec(cfgs, s, a), b)
    decreases |a|
  {
    if a == [] {
      assert a + b == b;
    } else {
      assert (a + b)[0] == a[0] && (a + b)[1..] == a[1..] + b;
      RunConcat(cfgs, Next(cfgs, s, a[0]), a[1..], b);
    }
  }

  lemma RunNone(cfgs: Configs, s: State)
    ensures IsRun(cfgs, s, []) && Exec(cfgs, s, []) == s
  {
  }

  lemma RunOne(cfgs: Configs, s: State, step: Step)
    requires Enabled(s, step)
    ensures IsRun(cfgs, s, [step]) && Exec(cfgs, s, [step]) == Next(cfgs, s, step)
  {
    assert [step][1..] == [];
  }

  lemma RunSnoc(cfgs: Configs, s: State, a: seq<Step>, step: Step)
    requires IsRun(cfgs, s, a) && Enabled(Exec(cfgs, s, a), step)
    ensures IsRun(cfgs, s, a + [step])
    ensures Exec(cfgs, s, a + [step]) == Next(cfgs, Exec(cfgs, s, a), step)
  {
    RunOne(cfgs, Exec(cfgs, s, a), step);
    RunConcat(cfgs, s, a, [step]);
  }

  // ---------- what others do meanwhile ----------

  /** A step that is not call c's own. */
  predicate Foreign(step: Step, c: CallId) {
    match step
    case Begin(d, _, _, _) => d != c
    case ClaimOne(d) => d != c
    case ClaimDone(d) => d != c
    case ClaimError(d, _) => d != c
    case Finish(d, _, _, _) => d != c
    case Return(d) => d != c
    case Crash(d) => d != c
    case _ => true
  }

  /** Any steps of others that leave the store as given. */
  ghost predicate Meanwhile(cfgs: Configs, s: State, c: CallId, steps: seq<Step>, after: Store) {
    && IsRun(cfgs, s, steps) && (forall i :: 0 <= i < |steps| ==> Foreign(steps[i], c))
    && Exec(cfgs, s, steps).store == after
  }

  lemma {:induction false} ForeignKeepsCall(cfgs: Configs, s: State, c: CallId, steps: seq<Step>)
    requires IsRun(cfgs, s, steps) && forall i :: 0 <= i < |steps| ==> Foreign(steps[i], c)
    ensures var e := Exec(cfgs, s, steps);
      (c in e.calls <==> c in s.calls) && (c in s.calls ==> e.calls[c] == s.calls[c])
    decreases |steps|
  {
    hide RetryBackoff, Decide;
    if steps != [] {
      assert forall i :: 0 <= i < |steps[1..]| ==> steps[1..][i] == steps[i + 1];
      ForeignKeepsCall(cfgs, Next(cfgs, s, steps[0]), c, steps[1..]);
    }
  }
}
