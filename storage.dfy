/**
 * The browser's durable key-value store (`localStorage`), shared by the
 * result cache and the rate-limit tracker. A disabled store throws on every
 * access; a store over quota throws only on `setItem` and still serves reads
 * and removals. The model has one flag, `available`, that governs all three
 * accessors, so it describes the disabled store exactly and does not separate
 * out the over-quota one. Each accessor reports whether it succeeded.
 */
module Storage {
  import opened Wrappers

  class Store {
    var entries: map<string, string>
    var available: bool

    constructor (entries: map<string, string>, available: bool)
      ensures this.entries == entries && this.available == available
    {
      this.entries := entries;
      this.available := available;
    }

    /** `getItem(key)`: `None` for a missing key, and also when the read throws. */
    function GetItem(key: string): (r: Option<string>)
      reads this
      ensures r.Some? <==> available && key in entries
      ensures r.Some? ==> r.value == entries[key]
    {
      if available && key in entries then Some(entries[key]) else None
    }

    /** `setItem(key, value)`; `ok` is false when it throws, and then nothing changes. */
    method SetItem(key: string, value: string) returns (ok: bool)
      modifies this
      ensures ok == available && available == old(available)
      ensures entries == if ok then old(entries)[key := value] else old(entries)
    {
      ok := available;
      if ok {
        entries := entries[key := value];
      }
    }

    /** `removeItem(key)`; a no-op when it throws or the key is missing. */
    method RemoveItem(key: string)
      modifies this
      ensures available == old(available)
      ensures entries == if available then old(entries) - {key} else old(entries)
    {
      if available {
        entries := entries - {key};
      }
    }
  }

  /** `a` and `b` agree on every key outside `keys`. */
  ghost predicate AgreeOutside(a: map<string, string>, b: map<string, string>, keys: set<string>) {
    forall k :: k !in keys ==> (k in a <==> k in b) && (k in a ==> a[k] == b[k])
  }

  lemma AgreeOutsideTrans(a: map<string, string>, b: map<string, string>, c: map<string, string>, keys: set<string>)
    requires AgreeOutside(a, b, keys) && AgreeOutside(b, c, keys)
    ensures AgreeOutside(a, c, keys)
  {
  }
}
