/** The storage key of a persisted slice. */
module StorageKey {
  import opened Config

  /** `persist:` followed by the slice's key; only `config.key` is read. */
  function BuildKey(config: PersistConfig): (r: string)
    ensures |r| == 8 + |config.key|
    ensures r[..8] == "persist:" && r[..8] == KEY_PREFIX
    ensures r[8..] == config.key
  {
    KEY_PREFIX + config.key
  }

  /** Two configurations share a storage key exactly when they share `key`. */
  lemma BuildKeyInjective(a: PersistConfig, b: PersistConfig)
    ensures BuildKey(a) == BuildKey(b) <==> a.key == b.key
  {
    if BuildKey(a) == BuildKey(b) {
      assert a.key == BuildKey(a)[8..];
    }
  }
}
