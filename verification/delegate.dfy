/** The per-identifier event manager that the static registry delegates to.

    Its internals (event storage, priority ordering, handler execution) are not
    part of this model. A delegate is represented only by the record of the
    calls the registry has forwarded to it, and whatever it answers is supplied
    from outside by a `Behaviour`. */
module Delegates {

  /** Identifier of an event-emitting component, e.g. a class name. */
  type Id = string

  /** Name of an event raised under an identifier. */
  type Event = string

  /** An opaque PHP callable, known only by a name. */
  datatype Callback = Callback(name: string)

  /** An opaque callback handle, as produced by a delegate's attach and
      consumed by its detach. */
  datatype Handle = Handle(token: nat)

  /** A call the registry forwarded to a delegate. */
  datatype Call =
    | Attached(event: Event, callback: Callback, priority: int)
    | Detached(handle: Handle)
    | Cleared(event: Event)

  /** A delegate, seen only through its identity and the calls it has
      received, oldest first. `serial` stands for the object identity of the
      `EventManager` instance: two delegates constructed by the same registry
      at different times have different serials, even when they have
      received the same calls. */
  datatype Delegate = Delegate(serial: nat, calls: seq<Call>) {

    /** The same delegate after one more forwarded call. */
    function Receive(c: Call): Delegate {
      Delegate(serial, calls + [c])
    }
  }

  /** A newly constructed delegate (`new EventManager()`) that has received
      nothing yet, stamped with the identity `serial`. */
  function Fresh(serial: nat): Delegate {
    Delegate(serial, [])
  }

  /** How the delegates answer. The registry passes these answers through
      unchanged; what they are is the delegate's business, and may depend on
      both the delegate's identity and the calls it has received. */
  datatype Behaviour = Behaviour(
    detach: (Delegate, Handle) -> bool,
    events: Delegate -> seq<Event>,
    handlers: (Delegate, Event) -> seq<Handle>,
    clear: (Delegate, Event) -> bool
  )

  /** `n` copies of the call `c`. */
  function Repeat(c: Call, n: nat): (s: seq<Call>)
    ensures |s| == n
    ensures forall i :: 0 <= i < |s| ==> s[i] == c
  {
    seq(n, _ => c)
  }

  lemma RepeatAdd(c: Call, m: nat, n: nat)
    ensures Repeat(c, m) + Repeat(c, n) == Repeat(c, m + n)
  {
  }
}
