/** Properties relating several registry operations. */
module RegistryLemmas {

  import opened Wrappers
  import opened Delegates
  import opened StaticEventManager

  /** A single identifier behaves exactly like the one-element list holding it. */
  lemma SingleIsOneElementList(r: Registry, id: Id, event: Event, callback: Callback, priority: int)
    ensures Attach(r, Single(id), event, callback, priority) == Attach(r, Many([id]), event, callback, priority)
  {
  }

  /** attach keeps every delegate it finds: the delegate under a listed
      identifier that was already present keeps its identity and has its old
      calls as a prefix, followed by the forwarded attach. */
  lemma AttachKeepsExistingDelegate(r: Registry, ids: seq<Id>, id: Id, event: Event, callback: Callback, priority: int)
    requires id in r.identifiers && id in ids
    ensures id in Attach(r, Many(ids), event, callback, priority).identifiers
    ensures Attach(r, Many(ids), event, callback, priority).identifiers[id].serial == r.identifiers[id].serial
    ensures r.identifiers[id].calls < Attach(r, Many(ids), event, callback, priority).identifiers[id].calls
    ensures Attach(r, Many(ids), event, callback, priority).identifiers[id].calls[|r.identifiers[id].calls|]
              == Attached(event, callback, priority)
  {
    var r' := Attach(r, Many(ids), event, callback, priority);
    var n := multiset(ids)[id];
    assert n > 0;
    assert r'.Received(id) == r.Received(id) + Repeat(Attached(event, callback, priority), n);
  }

  /** A listed identifier that was absent gets a newly constructed delegate,
      with an identity the registry had not used, whose only calls are the
      forwarded attaches. */
  lemma AttachCreatesFreshDelegate(r: Registry, ids: seq<Id>, id: Id, event: Event, callback: Callback, priority: int)
    requires id !in r.identifiers && id in ids
    ensures var r' := Attach(r, Many(ids), event, callback, priority);
            && id in r'.identifiers
            && r'.identifiers[id].calls == Repeat(Attached(event, callback, priority), multiset(ids)[id])
            && r'.identifiers[id].serial >= r.created
  {
    var r' := Attach(r, Many(ids), event, callback, priority);
    assert r'.Received(id) == r.Received(id) + Repeat(Attached(event, callback, priority), multiset(ids)[id]);
  }

  /** After attaching under an identifier, querying it no longer reports
      absence, for any event. */
  lemma AttachThenQueriesPresent(b: Behaviour, r: Registry, arg: IdArg, event: Event, callback: Callback, priority: int, id: Id, e: Event)
    requires id in Normalize(arg)
    ensures GetEvents(b, Attach(r, arg, event, callback, priority), id).value.Some?
    ensures GetHandlers(b, Attach(r, arg, event, callback, priority), id, e).value.Some?
  {
  }

  /** Distinct identifiers never share a delegate: attaching under several
      identifiers at once gives each its own `EventManager`, so the answers
      a delegate gives for one identifier need not be those of another. */
  lemma AttachKeepsDelegatesDistinct(r: Registry, arg: IdArg, event: Event, callback: Callback, priority: int, a: Id, c: Id)
    requires r.Valid()
    requires a in Normalize(arg) && c in Normalize(arg) && a != c
    ensures var r' := Attach(r, arg, event, callback, priority);
            r'.identifiers[a] != r'.identifiers[c]
  {
  }

  /** Clearing a known identifier with no event removes exactly that
      identifier: afterwards both of its queries are absent for every event,
      and every other identifier answers both queries as before. */
  lemma ClearAllRemovesOnlyId(b: Behaviour, r: Registry, id: Id, other: Id, e: Event)
    requires id in r.identifiers
    ensures var out := ClearHandlers(b, r, id, None);
            && out.value
            && GetEvents(b, out.registry, id).value == None
            && GetHandlers(b, out.registry, id, e).value == None
            && (other != id ==> GetEvents(b, out.registry, other).value == GetEvents(b, r, other).value)
            && (other != id ==> GetHandlers(b, out.registry, other, e).value == GetHandlers(b, r, other, e).value)
  {
  }

  /** An identifier cleared with no event and then attached to again gets a
      newly constructed delegate: its identity differs from the dropped one's
      and from every other stored delegate's, and nothing received before the
      clear survives. */
  lemma ClearAllThenAttachStartsFresh(b: Behaviour, r: Registry, id: Id, event: Event, callback: Callback, priority: int)
    requires r.Valid() && id in r.identifiers
    ensures var r' := Attach(ClearHandlers(b, r, id, None).registry, Single(id), event, callback, priority);
            && id in r'.identifiers
            && r'.identifiers[id].serial != r.identifiers[id].serial
            && (forall other :: other != id && other in r'.identifiers ==>
                  r'.identifiers[id].serial != r'.identifiers[other].serial)
            && r'.Received(id) == [Attached(event, callback, priority)]
  {
  }

  /** Every operation on an unknown identifier other than attach reports
      absence and leaves the registry as it was. */
  lemma UnknownIdIsInert(b: Behaviour, r: Registry, id: Id, h: Handle, event: Event, clear: Option<Event>)
    requires id !in r.identifiers
    ensures Detach(b, r, id, h) == Outcome(r, false)
    ensures GetEvents(b, r, id) == Outcome(r, None)
    ensures GetHandlers(b, r, id, event) == Outcome(r, None)
    ensures ClearHandlers(b, r, id, clear) == Outcome(r, false)
  {
  }

  /** Clearing one event of a known identifier keeps the identifier: its
      queries still answer, and the delegate under it is the same one, having
      received the clear. */
  lemma ClearEventKeepsId(b: Behaviour, r: Registry, id: Id, event: Event)
    requires id in r.identifiers
    ensures var out := ClearHandlers(b, r, id, Some(event));
            && out.value == b.clear(r.identifiers[id], event)
            && GetEvents(b, out.registry, id).value == Some(b.events(r.identifiers[id].Receive(Cleared(event))))
  {
  }
}
