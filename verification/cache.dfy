/**
 * The `/clues` response cache `clueCache`.  Each write also arms a one-hour
 * timer that deletes the key; the model stamps every entry with the instant
 * its timer is due, and an entry counts as present until then.
 */
module Cache {
  import opened Wrappers
  import opened JsValues

  const TtlMs: int := 3_600_000

  /** A cached `clues` value and the instant its deletion timer fires. */
  datatype Entry = Entry(value: JsValue, expiresAt: int)

  /** `clueCache.has(key) ? clueCache.get(key) : absent`, at time `now`. */
  function Lookup(entries: map<string, Entry>, key: string, now: int): (r: Option<JsValue>)
    ensures r.Some? <==> key in entries && now < entries[key].expiresAt
    ensures r.Some? ==> r.value == entries[key].value
  {
    if key in entries && now < entries[key].expiresAt then Some(entries[key].value) else None
  }

  /** `clueCache.set(key, value)` at `now`, with `setTimeout(() => clueCache.delete(key), TtlMs)`. */
  function Store(entries: map<string, Entry>, key: string, value: JsValue, now: int): map<string, Entry> {
    entries[key := Entry(value, now + TtlMs)]
  }

  /** A stored value is served for one hour after the write and not after. */
  lemma StoreThenLookup(entries: map<string, Entry>, key: string, value: JsValue, now: int, later: int)
    requires now <= later
    ensures later < now + TtlMs ==> Lookup(Store(entries, key, value, now), key, later) == Some(value)
    ensures later >= now + TtlMs ==> Lookup(Store(entries, key, value, now), key, later) == None
  {
  }

  /** A write affects no other key. */
  lemma StoreKeepsOtherKeys(entries: map<string, Entry>, key: string, value: JsValue, now: int, other: string, at: int)
    requires other != key
    ensures Lookup(Store(entries, key, value, now), other, at) == Lookup(entries, other, at)
  {
  }

  /**
   * The timer's `clueCache.delete(key)`, run once the entry is due, changes no
   * lookup from then on: reading expiry lazily is indistinguishable from
   * deleting the entry.
   */
  lemma DeleteOfDueEntryUnobservable(entries: map<string, Entry>, key: string, now: int, other: string, later: int)
    requires key in entries && entries[key].expiresAt <= now <= later
    ensures Lookup(entries - {key}, other, later) == Lookup(entries, other, later)
  {
  }

  /** The shared `clueCache` map. */
  class ClueCache {
    var entries: map<string, Entry>

    constructor ()
      ensures entries == map[]
    {
      entries := map[];
    }

    /** `clueCache.has(key)` at time `now`. */
    method Has(key: string, now: int) returns (present: bool)
      ensures present <==> key in entries && now < entries[key].expiresAt
      ensures present <==> Lookup(entries, key, now).Some?
    {
      present := key in entries && now < entries[key].expiresAt;
    }

    /** `clueCache.get(key)` at time `now`: `undefined` when absent. */
    method Get(key: string, now: int) returns (value: JsValue)
      ensures value == Lookup(entries, key, now).GetOr(Undefined)
    {
      value := if key in entries && now < entries[key].expiresAt then entries[key].value else Undefined;
    }

    /** `clueCache.set(key, value)` plus the deletion timer, due `TtlMs` after `now`. */
    method Set(key: string, value: JsValue, now: int)
      modifies this
      ensures entries == Store(old(entries), key, value, now)
      ensures forall later :: now <= later < now + TtlMs ==> Lookup(entries, key, later) == Some(value)
    {
      entries := entries[key := Entry(value, now + TtlMs)];
    }

    /** `clueCache.delete(key)`, what the timer runs. */
    method Delete(key: string)
      modifies this
      ensures entries == old(entries) - {key}
      ensures key !in entries
    {
      entries := entries - {key};
    }
  }
}
