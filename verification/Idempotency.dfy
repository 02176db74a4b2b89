/** The in-memory deduplication store (app/core/idempotency.py). A key carries the
    operation it was derived for, so two operations never share one. */
module Idempotency {
  import opened Wrappers

  datatype Key =
    | SessionKey(id: string)
    | RefundKey(id: string)
    | CancelKey(id: string)
    | BookingKey(id: string)
    | EventKey(id: string)
    | CancelRefundKey(id: string)

  datatype StoredRef = PaymentRef(index: nat) | BookingRef(pnr: string) | EventOutcome

  datatype Stored = InProgress | Completed(result: StoredRef)

  type Entries = map<Key, Stored>

  /** `begin`: the entry already there, or None after registering the key. */
  function Begin(entries: Entries, key: Key): (r: (Entries, Option<Stored>))
    ensures r.1.None? <==> key !in entries
    ensures key in r.0 && (forall k :: k in entries ==> k in r.0 && r.0[k] == entries[k])
  {
    if key in entries then (entries, Some(entries[key])) else (entries[key := InProgress], None)
  }

  class InMemoryIdempotencyStore {
    var entries: Entries

    constructor ()
      ensures entries == map[]
    {
      entries := map[];
    }

    method BeginKey(key: Key) returns (existing: Option<Stored>)
      modifies this
      ensures (entries, existing) == Begin(old(entries), key)
    {
      if key in entries {
        return Some(entries[key]);
      }
      entries := entries[key := InProgress];
      return None;
    }

    method Complete(key: Key, result: StoredRef)
      modifies this
      ensures entries == old(entries)[key := Completed(result)]
    {
      entries := entries[key := Completed(result)];
    }

    method Fail(key: Key)
      modifies this
      ensures entries == old(entries) - {key}
    {
      entries := entries - {key};
    }
  }
}
