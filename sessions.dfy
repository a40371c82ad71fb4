/** The per-browser session key-value store that carries the flow's state between requests. */
module Sessions {
  import opened Results

  /** Key under which the Discord CSRF state secret is kept. */
  const DISCORD_STATE: string := "discord_state"
  /** Key under which the Discord authorization code is kept until the Plex callback. */
  const DISCORD_CODE: string := "discord_code"

  lemma KeysDistinct()
    ensures DISCORD_STATE != DISCORD_CODE
  {
  }

  /** The value stored under `key`, if any. */
  function Lookup(store: map<string, string>, key: string): (v: Option<string>)
    ensures v.Some? <==> key in store
    ensures v.Some? ==> v.value == store[key]
  {
    if key in store then Some(store[key]) else None
  }

  /** One browser's session: a map from keys to (already deserialized) string values. */
  class Session {
    var store: map<string, string>

    constructor (initial: map<string, string>)
      ensures store == initial
    {
      store := initial;
    }

    /** `session.get::<String>(key)` */
    method Get(key: string) returns (v: Option<string>)
      ensures v == Lookup(store, key)
    {
      if key in store {
        v := Some(store[key]);
      } else {
        v := None;
      }
    }

    /** `session.insert(key, value)`: sets one key and leaves every other key as it was. */
    method Insert(key: string, value: string)
      modifies this
      ensures store == old(store)[key := value]
      ensures forall k :: k in old(store) && k != key ==> k in store && store[k] == old(store)[k]
    {
      store := store[key := value];
    }
  }
}
