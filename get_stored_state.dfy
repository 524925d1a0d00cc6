/** getStoredState: the synchronous read of a slice's snapshot. */
module StoredState {
  import opened Js
  import opened Host
  import opened Config
  import opened StorageKey
  import opened Snapshot

  /** `typeof storage.getItemSync === 'function'` */
  predicate IsCompatibleStorage(storage: Storage)
  {
    storage.hasSync
  }

  /** The fields decoded so far: exactly the keys in `done`, each decoded. */
  ghost predicate DecodedSoFar(config: PersistConfig, raw: Value, done: set<string>, state: map<string, Value>)
  {
    state.Keys == done && forall k | k in done :: state[k] == DecodeField(config, raw, k)
  }

  lemma DecodedComplete(config: PersistConfig, raw: Value, state: map<string, Value>)
    requires DecodedSoFar(config, raw, OwnKeys(raw), state)
    ensures state == DecodeFields(config, raw)
  {
  }

  /**
   * Reads the text under the slice's storage key (through `getItemSync` when
   * the storage has one) and decodes it; the storage is read once and not
   * written.
   */
  method GetStoredState(config: PersistConfig) returns (r: Outcome<Value>)
    modifies config.storage
    ensures r == Decode(config, old(config.storage.Lookup(BuildKey(config))))
    ensures config.storage.items == old(config.storage.items)
    ensures config.storage.log == old(config.storage.log)
      + [if IsCompatibleStorage(config.storage) then GetItemSync(BuildKey(config)) else GetItem(BuildKey(config))]
  {
    var text := config.storage.Read(BuildKey(config));
    if text.None? || text.value == "" {
      return Ok(Null);
    }
    var raw := config.codec.deserialize(Str(text.value));
    if Nullish(raw) {
      return Thrown("TypeError: Cannot convert undefined or null to object");
    }
    var state: map<string, Value> := map[];
    var keys := OwnKeys(raw);
    ghost var done: set<string> := {};
    while keys != {}
      invariant keys + done == OwnKeys(raw) && keys !! done
      invariant DecodedSoFar(config, raw, done, state)
      decreases keys
    {
      var key :| key in keys;
      state := state[key := DecodeField(config, raw, key)];
      keys := keys - {key};
      done := done + {key};
    }
    DecodedComplete(config, raw, state);
    var found := if PERSIST_KEY in state then state[PERSIST_KEY] else Undef;
    var persisted := Coalesce(found, PersistRecord(DEFAULT_VERSION, true));
    var marked := MarkRehydrated(config, persisted);
    if marked.Thrown? {
      return Thrown(marked.error);
    }
    r := Ok(Obj(state[PERSIST_KEY := marked.value]));
  }
}
