/** The service error chain (framework/api/service/errors/errors.go): errors wrapped by the
    errors library, service errors updated in place, and new service errors made from causes. */
module ServiceErrors {
  import opened Options

  type Code = string
  const INTERNAL: Code := "Service.Internal.Error"
  const DEFAULT_MESSAGE := "failed to process the request"

  datatype Violation = Violation(code: Code, message: string, stack: string)

  /** A service error's fields at one moment. */
  datatype ServiceValue = ServiceValue(
    statusCode: int,
    message: string,
    code: Code,
    stack: string,
    violations: map<string, Violation>,
    cause: Option<Err>)

  /** Sentinels are leaf errors told apart by identity; `Plain` is any other leaf. */
  datatype Err =
    | Sentinel(id: nat, text: string)
    | Plain(text: string)
    | Wrapped(context: string, cause: Err)
    | Service(value: ServiceValue)

  type Registry = map<nat, Code>

  // ---------- reading a chain ----------

  function Text(e: Err): string {
    match e
    case Sentinel(_, text) => text
    case Plain(text) => text
    case Wrapped(context, cause) => context + ": " + Text(cause)
    case Service(v) =>
      if v.cause.Some? then Text(v.cause.value)
      else if v.stack != "" then v.stack
      else v.message
  }

  /** The innermost error; none below a service error without a cause. */
  function RootCause(e: Err): Option<Err> {
    match e
    case Sentinel(_, _) => Some(e)
    case Plain(_) => Some(e)
    case Wrapped(_, cause) => RootCause(cause)
    case Service(v) => if v.cause.Some? then RootCause(v.cause.value) else None
  }

  predicate Is(e: Err, id: nat) {
    match e
    case Sentinel(i, _) => i == id
    case Plain(_) => false
    case Wrapped(_, cause) => Is(cause, id)
    case Service(v) => v.cause.Some? && Is(v.cause.value, id)
  }

  /** The outermost service error. */
  function AsService(e: Err): Option<ServiceValue> {
    match e
    case Sentinel(_, _) => None
    case Plain(_) => None
    case Wrapped(_, cause) => AsService(cause)
    case Service(v) => Some(v)
  }

  // ---------- making service errors ----------

  function NewValue(code: Code, err: Option<Err>): ServiceValue {
    var inner := if err.Some? then AsService(err.value) else None;
    var message :=
      match err
      case None => DEFAULT_MESSAGE
      case Some(e) => (match RootCause(e) case Some(root) => Text(root) case None => Text(e));
    ServiceValue(
      if inner.Some? then inner.value.statusCode else 0,
      message,
      code,
      if err.Some? then Text(err.value) else "",
      if inner.Some? then inner.value.violations else map[],
      err)
  }

  function WrapValue(v: ServiceValue, message: string): ServiceValue {
    var cause :=
      if v.cause.Some? then Wrapped(message, v.cause.value)
      else if v.stack != "" then Wrapped(message, Plain(v.stack))
      else if v.message != "" then Wrapped(message, Plain(v.message))
      else Plain(message);
    v.(cause := Some(cause),
       message := if v.cause.None? && v.stack == "" && v.message == "" then message else v.message,
       stack := Text(cause))
  }

  /** At most one registered sentinel can match: a chain has one leaf. */
  function CodeFor(registry: Registry, err: Option<Err>): Code {
    if err.None? then INTERNAL
    else
      match RootCause(err.value)
      case Some(Sentinel(id, _)) => if id in registry then registry[id] else ServiceCode(err.value)
      case _ => ServiceCode(err.value)
  }

  function ServiceCode(e: Err): Code {
    match AsService(e)
    case Some(v) => if v.code != "" then v.code else INTERNAL
    case None => INTERNAL
  }

  function FromCause(registry: Registry, err: Option<Err>, message: string): ServiceValue {
    NewValue(CodeFor(registry, err), if err.Some? then Some(Wrapped(message, err.value)) else None)
  }

  lemma {:induction false} IsRoot(e: Err, id: nat)
    ensures Is(e, id) <==> RootCause(e).Some? && RootCause(e).value.Sentinel? && RootCause(e).value.id == id
  {
    match e
    case Wrapped(_, cause) => IsRoot(cause, id);
    case Service(v) =>
      if v.cause.Some? {
        IsRoot(v.cause.value, id);
      }
    case _ =>
  }

  class ServiceError {
    var statusCode: int
    var message: string
    var code: Code
    var stack: string
    var violations: map<string, Violation>
    var cause: Option<Err>

    ghost function Value(): ServiceValue
      reads this
    {
      ServiceValue(statusCode, message, code, stack, violations, cause)
    }

    constructor (code: Code, err: Option<Err>)
      ensures Value() == NewValue(code, err)
    {
      var message := DEFAULT_MESSAGE;
      var stack := "";
      var statusCode := 0;
      var violations: map<string, Violation> := map[];
      if err.Some? {
        var inner := AsService(err.value);
        if inner.Some? {
          if inner.value.statusCode != 0 {
            statusCode := inner.value.statusCode;
          }
          violations := inner.value.violations;
        }
        match RootCause(err.value) {
          case Some(root) => message := Text(root);
          case None => message := Text(err.value);
        }
        stack := Text(err.value);
      }
      this.statusCode, this.message, this.code, this.stack := statusCode, message, code, stack;
      this.violations, this.cause := violations, err;
    }

    method WithStatusCode(code: int)
      modifies this
      ensures Value() == old(Value()).(statusCode := code)
    {
      statusCode := code;
    }

    method Wrap(context: string)
      modifies this
      ensures Value() == WrapValue(old(Value()), context)
    {
      var wrapped;
      if cause.Some? {
        wrapped := Wrapped(context, cause.value);
      } else if stack != "" {
        wrapped := Wrapped(context, Plain(stack));
      } else if message != "" {
        wrapped := Wrapped(context, Plain(message));
      } else {
        wrapped := Plain(context);
        message := context;
      }
      cause := Some(wrapped);
      stack := Text(wrapped);
    }

    method AddError(field: string, text: string, err: Option<Err>)
      modifies this
      ensures Value() == old(Value()).(violations :=
        old(violations)[field := Violation(old(code), text, if err.Some? then Text(err.value) else "")])
    {
      violations := violations[field := Violation(code, text, if err.Some? then Text(err.value) else "")];
    }

    method Error() returns (text: string)
      ensures text == Text(Service(Value()))
    {
      if cause.Some? {
        return Text(cause.value);
      }
      if stack != "" {
        return stack;
      }
      return message;
    }
  }

  /** The lookup as it runs: the registry's entries in whatever order. */
  method ServiceErrorCodeFor(registry: Registry, err: Option<Err>) returns (code: Code)
    ensures code == CodeFor(registry, err)
  {
    if err.None? {
      return INTERNAL;
    }
    var ids := registry.Keys;
    while ids != {}
      invariant ids <= registry.Keys
      invariant forall id :: id in registry && id !in ids ==> !Is(err.value, id)
    {
      var id :| id in ids;
      IsRoot(err.value, id);
      if Is(err.value, id) {
        return registry[id];
      }
      ids := ids - {id};
    }
    if RootCause(err.value).Some? && RootCause(err.value).value.Sentinel? {
      IsRoot(err.value, RootCause(err.value).value.id);
    }
    match AsService(err.value) {
      case Some(v) => if v.code != "" { return v.code; }
      case None =>
    }
    return INTERNAL;
  }

  // ---------- chains of wraps ----------

  /** Wrapping by the errors library, wrapping a service error in place, or making a new
      service error from what there is. */
  datatype Op = LibraryWrap(context: string) | ServiceWrap(context: string) | MakeFrom(context: string)

  predicate Applicable(e: Err, op: Op) {
    op.ServiceWrap? ==> e.Service?
  }

  function Apply(registry: Registry, e: Err, op: Op): Err
    requires Applicable(e, op)
  {
    match op
    case LibraryWrap(context) => Wrapped(context, e)
    case ServiceWrap(context) => Service(WrapValue(e.value, context))
    case MakeFrom(context) => Service(FromCause(registry, Some(e), context))
  }

  ghost predicate IsChain(registry: Registry, e: Err, ops: seq<Op>)
    decreases |ops|
  {
    ops == [] || (Applicable(e, ops[0]) && IsChain(registry, Apply(registry, e, ops[0]), ops[1..]))
  }

  ghost function ApplyAll(registry: Registry, e: Err, ops: seq<Op>): Err
    requires IsChain(registry, e, ops)
    decreases |ops|
  {
    if ops == [] then e else ApplyAll(registry, Apply(registry, e, ops[0]), ops[1..])
  }

  function Contexts(ops: seq<Op>): string {
    if ops == [] then "" else Contexts(ops[1..]) + ops[0].context + ": "
  }

  function StatusOf(e: Err): int {
    match AsService(e) case Some(v) => v.statusCode case None => 0
  }

  function ViolationsOf(e: Err): map<string, Violation> {
    match AsService(e) case Some(v) => v.violations case None => map[]
  }

  /** A service error with nothing to say: no cause, stack or message. */
  predicate Silent(e: Err) {
    e.Service? && e.value.cause.None? && e.value.stack == "" && e.value.message == ""
  }

  /** A top-level service error made from a cause says what the root says. */
  predicate MessageIsRoot(e: Err) {
    e.Service? ==> RootCause(e).Some? && e.value.message == Text(RootCause(e).value)
  }

  lemma StepKeeps(registry: Registry, e: Err, op: Op)
    requires Applicable(e, op)
    ensures var r := Apply(registry, e, op);
      && CodeFor(registry, Some(r)) == CodeFor(registry, Some(e))
      && StatusOf(r) == StatusOf(e) && ViolationsOf(r) == ViolationsOf(e)
      && (RootCause(e).Some? ==> RootCause(r) == RootCause(e))
      && (!Silent(e) ==> Text(r) == op.context + ": " + Text(e) && !Silent(r))
      && (op.MakeFrom? ==> r.value.code == CodeFor(registry, Some(e)))
      && (RootCause(e).Some? && (MessageIsRoot(e) || op.MakeFrom?) ==> MessageIsRoot(r))
  {
    match op
    case LibraryWrap(context) => LibraryWrapKeeps(e, context);
    case ServiceWrap(context) => ServiceWrapKeeps(registry, e.value, context);
    case MakeFrom(context) => MakeFromKeeps(registry, e, context);
  }

  lemma LibraryWrapKeeps(e: Err, context: string)
    ensures RootCause(Wrapped(context, e)) == RootCause(e) && AsService(Wrapped(context, e)) == AsService(e)
    ensures Text(Wrapped(context, e)) == context + ": " + Text(e)
  {
  }

  lemma ServiceWrapKeeps(registry: Registry, v: ServiceValue, context: string)
    ensures var e, r := Service(v), Service(WrapValue(v, context));
      && CodeFor(registry, Some(r)) == CodeFor(registry, Some(e))
      && StatusOf(r) == StatusOf(e) && ViolationsOf(r) == ViolationsOf(e)
      && (RootCause(e).Some? ==> RootCause(r) == RootCause(e) && r.value.message == v.message)
      && (!Silent(e) ==> Text(r) == context + ": " + Text(e) && !Silent(r))
  {
    var e, r := Service(v), Service(WrapValue(v, context));
    var cause := r.value.cause.value;
    assert Text(r) == Text(cause) && RootCause(r) == RootCause(cause);
    if v.cause.Some? {
      LibraryWrapKeeps(v.cause.value, context);
    } else if !Silent(e) {
      LibraryWrapKeeps(Plain(Text(e)), context);
      assert cause == Wrapped(context, Plain(Text(e)));
    }
  }

  lemma MakeFromKeeps(registry: Registry, e: Err, context: string)
    ensures var r := Service(FromCause(registry, Some(e), context));
      && CodeFor(registry, Some(r)) == CodeFor(registry, Some(e)) == r.value.code
      && StatusOf(r) == StatusOf(e) && ViolationsOf(r) == ViolationsOf(e)
      && RootCause(r) == RootCause(e)
      && Text(r) == context + ": " + Text(e) && !Silent(r)
      && (RootCause(e).Some? ==> MessageIsRoot(r))
  {
    LibraryWrapKeeps(e, context);
    var r := Service(FromCause(registry, Some(e), context));
    var cause := r.value.cause.value;
    assert Text(r) == Text(cause) && RootCause(r) == RootCause(cause);
  }

  /** Along any chain, from any root: the code a lookup yields, the status, the violations and
      the root cause stay what they were, and the text is the contexts, outermost first,
      in front of the root's text. */
  lemma {:induction false} ChainKeeps(registry: Registry, e: Err, ops: seq<Op>)
    requires IsChain(registry, e, ops)
    ensures var r := ApplyAll(registry, e, ops);
      && CodeFor(registry, Some(r)) == CodeFor(registry, Some(e))
      && StatusOf(r) == StatusOf(e) && ViolationsOf(r) == ViolationsOf(e)
      && (RootCause(e).Some? ==> RootCause(r) == RootCause(e))
      && (!Silent(e) ==> Text(r) == Contexts(ops) + Text(e))
      && (RootCause(e).Some? && MessageIsRoot(e) ==> MessageIsRoot(r))
    decreases |ops|
  {
    hide CodeFor, RootCause, WrapValue, FromCause, StatusOf, ViolationsOf, Silent, Text, MessageIsRoot;
    if ops == [] {
      assert "" + Text(e) == Text(e);
    } else {
      var next := Apply(registry, e, ops[0]);
      StepKeeps(registry, e, ops[0]);
      ChainKeeps(registry, next, ops[1..]);
      if !Silent(e) {
        assert Contexts(ops[1..]) + (ops[0].context + ": " + Text(e)) == Contexts(ops) + Text(e);
      }
    }
  }

  /** A service error's own code survives being remade exactly when no registered sentinel lies
      at its root, or that sentinel is registered for the same code. */
  lemma CodeKeptIff(registry: Registry, v: ServiceValue, ops: seq<Op>, context: string)
    requires v.code != "" && IsChain(registry, Service(v), ops)
    ensures var r := FromCause(registry, Some(ApplyAll(registry, Service(v), ops)), context);
      r.code == v.code <==>
        forall id :: id in registry && Is(Service(v), id) ==> registry[id] == v.code
  {
    ChainKeeps(registry, Service(v), ops);
    var root := RootCause(Service(v));
    if root.Some? && root.value.Sentinel? {
      IsRoot(Service(v), root.value.id);
    }
    forall id ensures Is(Service(v), id) <==> root.Some? && root.value.Sentinel? && root.value.id == id {
      IsRoot(Service(v), id);
    }
  }

  /** Made with one code around a sentinel registered for another, and remade: the registered one
      wins. */
  lemma SentinelOverridesCode(own: Code, registered: Code, text: string, context: string)
    requires own != "" && own != registered
    ensures var v := NewValue(own, Some(Sentinel(0, text)));
      v.code == own && FromCause(map[0 := registered], Some(Service(v)), context).code == registered
  {
    var v := NewValue(own, Some(Sentinel(0, text)));
    assert RootCause(Service(v)) == Some(Sentinel(0, text));
  }

  /** Off the bottom of a chain that ends in a service error without a cause, no step finds a
      root cause. */
  lemma {:induction false} RootStaysNone(registry: Registry, e: Err, ops: seq<Op>)
    requires IsChain(registry, e, ops) && RootCause(e).None? && (e.Service? ==> e.value.cause.Some?)
    ensures RootCause(ApplyAll(registry, e, ops)).None?
    decreases |ops|
  {
    hide CodeFor, Text;
    if ops != [] {
      var next := Apply(registry, e, ops[0]);
      assert RootCause(Wrapped(ops[0].context, e)).None?;
      if ops[0].ServiceWrap? {
        assert next.value.cause == Some(Wrapped(ops[0].context, e.value.cause.value));
        LibraryWrapKeeps(e.value.cause.value, ops[0].context);
      } else if ops[0].MakeFrom? {
        assert next.value.cause == Some(Wrapped(ops[0].context, e));
      }
      RootStaysNone(registry, next, ops[1..]);
    }
  }

  /** A new service error's root cause after any chain: the cause's own, if it has one; the
      message, if there was no cause and the very first step wraps in place; otherwise none. */
  lemma RootAfter(registry: Registry, code: Code, err: Option<Err>, ops: seq<Op>)
    requires IsChain(registry, Service(NewValue(code, err)), ops)
    ensures var e := Service(NewValue(code, err));
            var root := RootCause(ApplyAll(registry, e, ops));
      && (RootCause(e).Some? ==> root == RootCause(e))
      && (RootCause(e).None? && err.Some? ==> root.None?)
      && (RootCause(e).None? && err.None? ==>
            root == if ops != [] && ops[0].ServiceWrap? then Some(Plain(e.value.message)) else None)
  {
    hide CodeFor, Text;
    var e := Service(NewValue(code, err));
    if RootCause(e).Some? {
      ChainKeeps(registry, e, ops);
    } else if err.Some? {
      RootStaysNone(registry, e, ops);
    } else if ops != [] {
      var next := Apply(registry, e, ops[0]);
      if ops[0].ServiceWrap? {
        assert next.value.cause == Some(Wrapped(ops[0].context, Plain(DEFAULT_MESSAGE)));
        LibraryWrapKeeps(Plain(DEFAULT_MESSAGE), ops[0].context);
        ChainKeeps(registry, next, ops[1..]);
      } else {
        LibraryWrapKeeps(e, ops[0].context);
        assert next.Service? ==> next.value.cause == Some(Wrapped(ops[0].context, e));
        RootStaysNone(registry, next, ops[1..]);
      }
    }
  }

  /** A new service error's message survives any chain and a remake exactly when the chain has a
      root cause; without one the remade message is the whole text, contexts and all. */
  lemma MessageKeptIff(registry: Registry, code: Code, err: Option<Err>, ops: seq<Op>, context: string)
    requires IsChain(registry, Service(NewValue(code, err)), ops)
    ensures var root := NewValue(code, err);
            var last := ApplyAll(registry, Service(root), ops);
            var remade := FromCause(registry, Some(last), context);
      && (remade.message == root.message <==> RootCause(last).Some?)
      && (RootCause(last).None? ==> remade.message == context + ": " + Contexts(ops) + root.message)
  {
    hide CodeFor, IsChain, ApplyAll;
    var e := Service(NewValue(code, err));
    var last := ApplyAll(registry, e, ops);
    RootAfter(registry, code, err, ops);
    ChainKeeps(registry, e, ops);
    LibraryWrapKeeps(last, context);
    NewRoot(code, err);
    if RootCause(last).None? {
      assert context + ": " + (Contexts(ops) + e.value.message) == context + ": " + Contexts(ops) + e.value.message;
    }
  }

  lemma NewRoot(code: Code, err: Option<Err>)
    ensures var e := Service(NewValue(code, err));
      && !Silent(e)
      && (RootCause(e).Some? ==> Text(RootCause(e).value) == e.value.message)
      && (RootCause(e).None? ==> Text(e) == e.value.message)
  {
  }

  /** An error that no sentinel and no service error accounts for is internal, and so is none. */
  lemma InternalByDefault(registry: Registry, text: string)
    ensures CodeFor(registry, None) == "Service.Internal.Error"
    ensures CodeFor(registry, Some(Plain(text))) == "Service.Internal.Error"
  {
  }

  /** What a service error says for itself depends on its cause: the text of the cause's root, the
      cause's whole text if it has no root, or the standard message. */
  lemma NewSays(code: Code, e: Err)
    ensures NewValue(code, None).message == "failed to process the request"
    ensures var v := NewValue(code, Some(e));
      v.stack == Text(e) && v.message == if RootCause(e).Some? then Text(RootCause(e).value) else Text(e)
  {
  }
}
