/** The controller's configuration store, as far as the Hue adapter uses it.
    Its source is not part of this model: `get_or_set_default` is given the
    behaviour its name and its call sites imply. */
module ConfigStore {

  /** The value stored under `(ns, key)`, or `default` when there is none. */
  function Lookup(entries: map<(string, string), string>, ns: string, key: string, default: string): string {
    if (ns, key) in entries then entries[(ns, key)] else default
  }

  /** Every value stored in `before` is still stored in `after`. */
  predicate Keeps(before: map<(string, string), string>, after: map<(string, string), string>) {
    forall k :: k in before ==> k in after && after[k] == before[k]
  }

  /** Storing a default under a key keeps every value already stored. */
  lemma StoreDefaultKeeps(entries: map<(string, string), string>, ns: string, key: string, default: string)
    ensures Keeps(entries, entries[(ns, key) := Lookup(entries, ns, key, default)])
  {
  }

  lemma KeepsTransitive(a: map<(string, string), string>, b: map<(string, string), string>, c: map<(string, string), string>)
    requires Keeps(a, b) && Keeps(b, c)
    ensures Keeps(a, c)
  {
  }

  class Config {
    var entries: map<(string, string), string>

    constructor ()
      ensures entries == map[]
    {
      entries := map[];
    }

    /** `get_or_set_default`: the stored value, or `default`, which is then
      stored. */
    method GetOrSetDefault(ns: string, key: string, default: string) returns (v: string)
      modifies this
      ensures v == Lookup(old(entries), ns, key, default)
      ensures (ns, key) in entries && entries[(ns, key)] == v
      ensures entries == old(entries)[(ns, key) := v]
    {
      if (ns, key) in entries {
        v := entries[(ns, key)];
      } else {
        v := default;
        entries := entries[(ns, key) := v];
      }
    }
  }
}
