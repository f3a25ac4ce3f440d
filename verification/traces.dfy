/** Sequences of registry calls, and which identifiers are keys after them. */
module Traces {

  import opened Wrappers
  import opened Delegates
  import opened StaticEventManager

  /** One call on the registry, with its arguments. */
  datatype Op =
    | AttachOp(arg: IdArg, event: Event, callback: Callback, priority: int)
    | DetachOp(id: Id, handle: Handle)
    | GetEventsOp(id: Id)
    | GetHandlersOp(id: Id, event: Event)
    | ClearOp(id: Id, clear: Option<Event>)

  /** The registry after one call. */
  function After(b: Behaviour, r: Registry, op: Op): Registry {
    match op
    case AttachOp(arg, event, callback, priority) => Attach(r, arg, event, callback, priority)
    case DetachOp(id, h) => Detach(b, r, id, h).registry
    case GetEventsOp(id) => GetEvents(b, r, id).registry
    case GetHandlersOp(id, event) => GetHandlers(b, r, id, event).registry
    case ClearOp(id, clear) => ClearHandlers(b, r, id, clear).registry
  }

  /** The registry after the calls `ops`, in order, starting from `r`. */
  function Run(b: Behaviour, r: Registry, ops: seq<Op>): Registry
    decreases |ops|
  {
    if |ops| == 0 then r
    else After(b, Run(b, r, ops[..|ops| - 1]), ops[|ops| - 1])
  }

  /** `id` has been attached to by some call in `ops`, and no later call
      cleared it with no event. */
  predicate Live(ops: seq<Op>, id: Id)
    decreases |ops|
  {
    if |ops| == 0 then false
    else
      var init := ops[..|ops| - 1];
      match ops[|ops| - 1]
      case AttachOp(arg, _, _, _) => id in Normalize(arg) || Live(init, id)
      case ClearOp(x, clear) => !(x == id && clear.None?) && Live(init, id)
      case _ => Live(init, id)
  }

  /** Starting from an empty registry, an identifier is a key exactly when it
      has been attached to and not since cleared with no event. Clearing one
      event, or detaching a handler, keeps the key even if its delegate is
      left with no handlers. */
  lemma {:induction false} KeyIffLive(b: Behaviour, ops: seq<Op>, id: Id)
    ensures id in Run(b, Empty, ops).identifiers <==> Live(ops, id)
  {
    if |ops| > 0 {
      var init := ops[..|ops| - 1];
      KeyIffLive(b, init, id);
      var r := Run(b, Empty, init);
      match ops[|ops| - 1]
      case AttachOp(arg, event, callback, priority) =>
        assert Run(b, Empty, ops) == Attach(r, arg, event, callback, priority);
      case DetachOp(x, h) =>
        assert Run(b, Empty, ops) == Detach(b, r, x, h).registry;
      case GetEventsOp(x) =>
        assert Run(b, Empty, ops) == r;
      case GetHandlersOp(x, event) =>
        assert Run(b, Empty, ops) == r;
      case ClearOp(x, clear) =>
        assert Run(b, Empty, ops) == ClearHandlers(b, r, x, clear).registry;
    }
  }

  /** Queries never change the registry, wherever they occur in a trace. */
  lemma {:induction false} QueriesAreInert(b: Behaviour, r: Registry, ops: seq<Op>, q: Op)
    requires q.GetEventsOp? || q.GetHandlersOp?
    ensures Run(b, r, ops + [q]) == Run(b, r, ops)
  {
    var ops' := ops + [q];
    assert ops'[..|ops'| - 1] == ops;
  }

  /** Every registry reachable from an empty one is valid: each identifier
      has its own delegate, constructed by that registry. */
  lemma {:induction false} ReachableValid(b: Behaviour, ops: seq<Op>)
    ensures Run(b, Empty, ops).Valid()
  {
    if |ops| > 0 {
      ReachableValid(b, ops[..|ops| - 1]);
    }
  }
}
