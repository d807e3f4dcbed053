/**
 * The `DB` helper: a typed read/write layer over the browser's string-to-string
 * local storage.  `Set` writes the JSON text of a value under a key; `Get`
 * reads it back, substituting the caller's fallback when the key is missing,
 * holds the empty string, or holds text that does not parse.
 */
module Db {
  import opened JsonCodec

  /** The browser's local storage: one map from keys to stored strings, updated in place. */
  class LocalStorage {
    var items: map<string, string>

    constructor (initial: map<string, string>)
      ensures items == initial
    {
      items := initial;
    }

    /** `localStorage.setItem(key, value)`. */
    method SetItem(key: string, value: string)
      modifies this
      ensures items == old(items)[key := value]
    {
      items := items[key := value];
    }

    /** `localStorage.removeItem(key)`: removing a missing key does nothing. */
    method RemoveItem(key: string)
      modifies this
      ensures items == old(items) - {key}
    {
      items := items - {key};
    }
  }

  /**
   * `DB.get(key, fallback)`: `getItem` yields null for a missing key; null and
   * the empty string both select the fallback's own JSON text; a parse error
   * is caught and the fallback returned.  Reading never changes the storage.
   */
  function Get(items: map<string, string>, key: string, fallback: Json): (r: Json)
    ensures WellFormed(fallback) ==> WellFormed(r)
  {
    var text := if key in items && items[key] != "" then items[key] else Encode(fallback);
    match Decode(text)
    case Some(v) => v
    case None => fallback
  }

  /** `DB.set(key, val)`: stores the JSON text of `val` under `key`. */
  method Set(storage: LocalStorage, key: string, val: Json)
    modifies storage
    ensures storage.items == old(storage.items)[key := Encode(val)]
    ensures forall fallback :: WellFormed(val) ==> Get(storage.items, key, fallback) == val
  {
    storage.SetItem(key, Encode(val));
    forall fallback | WellFormed(val) ensures Get(storage.items, key, fallback) == val {
      SetThenGet(old(storage.items), key, val, fallback);
    }
  }

  // ---------------------------------------------------------------------------
  // Properties of the store
  // ---------------------------------------------------------------------------

  /** Round trip: after `set(k, v)`, `get(k, fb)` returns `v`, whatever the fallback. */
  lemma SetThenGet(items: map<string, string>, key: string, val: Json, fallback: Json)
    requires WellFormed(val)
    ensures Get(items[key := Encode(val)], key, fallback) == val
  {
    WriteStartsValue(val, []);
  }

  /** A key that was never written yields exactly the fallback. */
  lemma GetMissing(items: map<string, string>, key: string, fallback: Json)
    requires key !in items
    requires WellFormed(fallback)
    ensures Get(items, key, fallback) == fallback
  {
  }

  /** The empty string is read as if the key were absent. */
  lemma GetEmpty(items: map<string, string>, key: string, fallback: Json)
    requires key in items && items[key] == ""
    ensures Get(items, key, fallback) == Get(items - {key}, key, fallback)
  {
  }

  /** Text that JSON.parse rejects yields the fallback; the error never escapes. */
  lemma GetMalformed(items: map<string, string>, key: string, fallback: Json)
    requires key in items && items[key] != "" && Decode(items[key]).None?
    ensures Get(items, key, fallback) == fallback
  {
  }

  /** Stored text that parses yields the parsed value, which has distinct keys in every object. */
  lemma GetStored(items: map<string, string>, key: string, fallback: Json)
    requires key in items && items[key] != "" && Decode(items[key]).Some?
    ensures Get(items, key, fallback) == Decode(items[key]).value
    ensures WellFormed(Get(items, key, fallback))
  {
  }

  /** `set(k, v)` leaves what every other key reads unchanged. */
  lemma SetOtherKey(items: map<string, string>, key: string, val: Json, other: string, fallback: Json)
    requires other != key
    ensures Get(items[key := Encode(val)], other, fallback) == Get(items, other, fallback)
  {
  }

  /** Of two writes to the same key, the later one is what `get` returns. */
  lemma LaterSetWins(items: map<string, string>, key: string, first: Json, second: Json, fallback: Json)
    requires WellFormed(second)
    ensures Get(items[key := Encode(first)][key := Encode(second)], key, fallback) == second
  {
    assert items[key := Encode(first)][key := Encode(second)] == items[key := Encode(second)];
    SetThenGet(items, key, second, fallback);
  }
}
