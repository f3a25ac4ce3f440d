/** The process-wide instance of the registry, held as an explicit slot that
    is either empty or holds a registry. `getInstance` fills an empty slot with
    a fresh registry; `resetInstance` empties it. */
module Singleton {

  import opened Wrappers
  import opened StaticEventManager

  /** The slot after `getInstance`, and the registry it handed out. */
  datatype Fetched = Fetched(slot: Option<Registry>, instance: Registry)

  /** `getInstance()`: the registry in the slot, creating an empty one first
      when the slot is empty. The slot afterwards holds what was handed out. */
  function GetInstance(slot: Option<Registry>): (f: Fetched)
    ensures f.slot == Some(f.instance)
    ensures slot.Some? ==> f.instance == slot.value
    ensures slot.None? ==> f.instance.identifiers == map[]
  {
    match slot
    case Some(r) => Fetched(slot, r)
    case None => Fetched(Some(Empty), Empty)
  }

  /** `resetInstance()`: the slot is emptied, whatever it held. */
  function ResetInstance(slot: Option<Registry>): Option<Registry> {
    None
  }

  /** Asking again without a reset in between hands out the same registry and
      leaves the slot as it was. */
  lemma GetInstanceIdempotent(slot: Option<Registry>)
    ensures GetInstance(GetInstance(slot).slot) == GetInstance(slot)
  {
  }

  /** After a reset, the next `getInstance` yields a registry with no
      identifiers, whatever was registered before. */
  lemma ResetThenGetIsEmpty(slot: Option<Registry>)
    ensures GetInstance(ResetInstance(slot)).instance.identifiers == map[]
  {
  }
}
