/** The static event registry: a map from identifier to delegate, with
    attach, detach, getEvents, getHandlers and clearHandlers forwarded to the
    delegate stored under the identifier. Each operation is a pure transition
    that returns the registry after the call together with the call's result. */
module StaticEventManager {

  import opened Wrappers
  import opened Delegates

  /** Priority used when the caller of attach gives none. */
  const DefaultPriority: int := 1000

  /** `identifiers` maps each identifier to its delegate. `created` counts the
      delegates this registry has constructed so far; the next one is stamped
      with it, which gives every constructed delegate its own identity. */
  datatype Registry = Registry(identifiers: map<Id, Delegate>, created: nat) {

    /** The calls the delegate under `id` has received, or none when there is
        no delegate under `id` (a fresh delegate would start from none). */
    function Received(id: Id): seq<Call> {
      if id in identifiers then identifiers[id].calls else []
    }

    /** Every stored delegate was constructed by this registry, and no two
        identifiers share one delegate. */
    predicate Valid() {
      && (forall id :: id in identifiers ==> identifiers[id].serial < created)
      && (forall a, b :: a in identifiers && b in identifiers && a != b ==>
            identifiers[a].serial != identifiers[b].serial)
    }
  }

  /** A registry with no identifiers, as built by the constructor. */
  const Empty: Registry := Registry(map[], 0)

  /** The registry after an operation, and what the operation returned. */
  datatype Outcome<+T> = Outcome(registry: Registry, value: T)

  /** The first argument of attach: one identifier or a list of them. */
  datatype IdArg = Single(id: Id) | Many(ids: seq<Id>)

  /** The `(array) $id` cast: a single identifier becomes a one-element list. */
  function Normalize(arg: IdArg): seq<Id> {
    match arg
    case Single(id) => [id]
    case Many(ids) => ids
  }

  /** One iteration of attach's loop: construct a delegate under `id` if there
      is none, then forward the attach to the delegate under `id`. */
  function AttachOne(r: Registry, id: Id, c: Call): (r': Registry)
    ensures r'.identifiers.Keys == r.identifiers.Keys + {id}
    ensures r'.Received(id) == r.Received(id) + [c]
    ensures forall other :: other != id ==> r'.Received(other) == r.Received(other)
    ensures forall other :: other != id && other in r.identifiers ==>
              r'.identifiers[other] == r.identifiers[other]
    ensures id in r.identifiers ==>
              r'.identifiers[id].serial == r.identifiers[id].serial && r'.created == r.created
    ensures id !in r.identifiers ==>
              r'.identifiers[id].serial == r.created && r'.created == r.created + 1
    ensures r.Valid() ==> r'.Valid()
  {
    if id in r.identifiers then
      Registry(r.identifiers[id := r.identifiers[id].Receive(c)], r.created)
    else
      Registry(r.identifiers[id := Fresh(r.created).Receive(c)], r.created + 1)
  }

  /** attach's loop over the normalised identifiers, in order.
      Afterwards the keys are the old keys plus every listed identifier, and
      the delegate under each key has received exactly the calls it had before
      followed by one forwarded attach per occurrence of the key in `ids`.
      Every delegate found is kept (same identity); every delegate
      constructed is new (an identity the registry had not handed out). */
  function AttachAll(r: Registry, ids: seq<Id>, c: Call): (r': Registry)
    ensures r'.identifiers.Keys == r.identifiers.Keys + set id | id in ids
    ensures forall id :: r'.Received(id) == r.Received(id) + Repeat(c, multiset(ids)[id])
    ensures r.created <= r'.created
    ensures forall id :: id in r.identifiers ==> r'.identifiers[id].serial == r.identifiers[id].serial
    ensures forall id :: id in r'.identifiers && id !in r.identifiers ==>
              r.created <= r'.identifiers[id].serial < r'.created
    ensures r.Valid() ==> r'.Valid()
    decreases |ids|
  {
    if |ids| == 0 then r
    else
      var r1 := AttachOne(r, ids[0], c);
      var r' := AttachAll(r1, ids[1..], c);
      assert (set id | id in ids) == {ids[0]} + set id | id in ids[1..];
      forall id
        ensures r'.Received(id) == r.Received(id) + Repeat(c, multiset(ids)[id])
      {
        AttachStep(r.Received(id), r1.Received(id), r'.Received(id), ids, id, c);
      }
      r'
  }

  /** One step of the induction behind AttachAll, for one key: the head of
      `ids` delivers one call, the rest deliver the others. */
  lemma AttachStep(before: seq<Call>, mid: seq<Call>, after: seq<Call>, ids: seq<Id>, id: Id, c: Call)
    requires |ids| > 0
    requires mid == before + (if id == ids[0] then [c] else [])
    requires after == mid + Repeat(c, multiset(ids[1..])[id])
    ensures after == before + Repeat(c, multiset(ids)[id])
  {
    CountFirst(ids, id);
    if id == ids[0] {
      RepeatAdd(c, 1, multiset(ids[1..])[id]);
      assert [c] == Repeat(c, 1);
    }
  }

  /** How often `id` occurs in a non-empty list: its occurrences after the
      head, plus one if it is the head. */
  lemma CountFirst(ids: seq<Id>, id: Id)
    requires |ids| > 0
    ensures multiset(ids)[id] == multiset(ids[1..])[id] + (if id == ids[0] then 1 else 0)
  {
    assert ids == [ids[0]] + ids[1..];
  }

  /** `attach($id, $event, $callback, $priority)`. Returns nothing. */
  function Attach(r: Registry, arg: IdArg, event: Event, callback: Callback, priority: int): (r': Registry)
    ensures r'.identifiers.Keys == r.identifiers.Keys + set id | id in Normalize(arg)
    ensures forall id :: id in Normalize(arg) ==> id in r'.identifiers
    ensures forall id :: id !in Normalize(arg) && id in r.identifiers ==>
              id in r'.identifiers && r'.identifiers[id] == r.identifiers[id]
    ensures forall id :: r'.Received(id) ==
              r.Received(id) + Repeat(Attached(event, callback, priority), multiset(Normalize(arg))[id])
    ensures forall id :: id in r.identifiers ==> r'.identifiers[id].serial == r.identifiers[id].serial
    ensures forall id :: id in r'.identifiers && id !in r.identifiers ==>
              r.created <= r'.identifiers[id].serial < r'.created
    ensures r.Valid() ==> r'.Valid()
  {
    var r' := AttachAll(r, Normalize(arg), Attached(event, callback, priority));
    assert forall id :: id !in Normalize(arg) ==> multiset(Normalize(arg))[id] == 0;
    r'
  }

  /** `attach` with the priority argument omitted: the same call at the
      default priority 1000. */
  function AttachDefault(r: Registry, arg: IdArg, event: Event, callback: Callback): (r': Registry)
    ensures r' == Attach(r, arg, event, callback, 1000)
  {
    Attach(r, arg, event, callback, DefaultPriority)
  }

  /** `detach($id, $handler)`: false for an unknown identifier, otherwise the
      delegate's own answer, with the detach forwarded to that delegate. */
  function Detach(b: Behaviour, r: Registry, id: Id, h: Handle): (out: Outcome<bool>)
    ensures id !in r.identifiers ==> out == Outcome(r, false)
    ensures id in r.identifiers ==> out.value == b.detach(r.identifiers[id], h)
    ensures out.registry.identifiers.Keys == r.identifiers.Keys
    ensures id in r.identifiers ==>
              && out.registry.Received(id) == r.Received(id) + [Detached(h)]
              && out.registry.identifiers[id].serial == r.identifiers[id].serial
    ensures forall other :: other != id && other in r.identifiers ==>
              out.registry.identifiers[other] == r.identifiers[other]
    ensures out.registry.created == r.created
    ensures r.Valid() ==> out.registry.Valid()
  {
    if id !in r.identifiers then Outcome(r, false)
    else
      var d := r.identifiers[id];
      Outcome(Registry(r.identifiers[id := d.Receive(Detached(h))], r.created), b.detach(d, h))
  }

  /** `getEvents($id)`: absent for an unknown identifier, otherwise the
      delegate's event names. The registry is left as it was. */
  function GetEvents(b: Behaviour, r: Registry, id: Id): (out: Outcome<Option<seq<Event>>>)
    ensures out.registry == r
    ensures out.value.None? <==> id !in r.identifiers
    ensures id in r.identifiers ==> out.value == Some(b.events(r.identifiers[id]))
  {
    if id !in r.identifiers then Outcome(r, None)
    else Outcome(r, Some(b.events(r.identifiers[id])))
  }

  /** `getHandlers($id, $event)`: absent for an unknown identifier, otherwise
      the delegate's handlers for `event`. The registry is left as it was. */
  function GetHandlers(b: Behaviour, r: Registry, id: Id, event: Event): (out: Outcome<Option<seq<Handle>>>)
    ensures out.registry == r
    ensures out.value.None? <==> id !in r.identifiers
    ensures id in r.identifiers ==> out.value == Some(b.handlers(r.identifiers[id], event))
  {
    if id !in r.identifiers then Outcome(r, None)
    else Outcome(r, Some(b.handlers(r.identifiers[id], event)))
  }

  /** `clearHandlers($id, $event = null)`: false for an unknown identifier;
      with no event, drops the whole delegate under `id` and returns true;
      with an event, forwards the clear to the delegate and returns its answer. */
  function ClearHandlers(b: Behaviour, r: Registry, id: Id, event: Option<Event>): (out: Outcome<bool>)
    ensures id !in r.identifiers ==> out == Outcome(r, false)
    ensures id in r.identifiers && event.None? ==>
              out.value && out.registry.identifiers.Keys == r.identifiers.Keys - {id}
    ensures id in r.identifiers && event.Some? ==>
              && out.value == b.clear(r.identifiers[id], event.value)
              && out.registry.identifiers.Keys == r.identifiers.Keys
              && out.registry.Received(id) == r.Received(id) + [Cleared(event.value)]
              && out.registry.identifiers[id].serial == r.identifiers[id].serial
    ensures forall other :: other != id && other in r.identifiers ==>
              other in out.registry.identifiers && out.registry.identifiers[other] == r.identifiers[other]
    ensures out.registry.created == r.created
    ensures r.Valid() ==> out.registry.Valid()
  {
    if id !in r.identifiers then Outcome(r, false)
    else if event.None? then Outcome(Registry(r.identifiers - {id}, r.created), true)
    else
      var d := r.identifiers[id];
      Outcome(Registry(r.identifiers[id := d.Receive(Cleared(event.value))], r.created), b.clear(d, event.value))
  }
}
