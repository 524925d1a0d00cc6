/**
 * persistCombineReducers: with `lazy: true` in the config, the lazy
 * combined wrapper; otherwise persistReducer over `combineReducers`.  Both
 * restore with autoMergeLevel2 unless the config names a reconciler.
 */
module CombineReducers {
  import opened Js
  import opened Host
  import opened Config
  import opened CombineLazy
  import opened PersistReducer

  /** The reducer persistCombineReducers returns: one of the two wrappers. */
  datatype Wrapper = Persisted(persisted: PersistedReducer) | Deferred(deferred: LazyCombination)

  /** `isCombinedLazyConfig(config)`: `config.lazy === true` */
  predicate IsCombinedLazyConfig(config: PersistConfig)
  {
    config.lazy
  }

  /** `persistCombineReducers(config, reducers)` */
  method PersistCombineReducers(config: PersistConfig, reducers: map<string, Reducer>) returns (w: Wrapper)
    ensures w.Deferred? <==> IsCombinedLazyConfig(config)
    ensures w.Persisted? ==>
      fresh(w.persisted) && w.persisted.Valid() && w.persisted.proxy == None &&
      w.persisted.config == LazyDefaults(config) && w.persisted.reducer == Combined(reducers)
    ensures w.Deferred? ==>
      fresh(w.deferred) && w.deferred.Valid() && w.deferred.inner == None && w.deferred.outer == None &&
      w.deferred.config == LazyDefaults(config) && w.deferred.reducer == Combined(reducers)
  {
    var defaulted := LazyDefaults(config);
    if !IsCombinedLazyConfig(defaulted) {
      var persisted := new PersistedReducer(defaulted, Combined(reducers));
      return Persisted(persisted);
    }
    var deferred := new LazyCombination(config, reducers);
    w := Deferred(deferred);
  }

  /** Either way the wrapper restores with autoMergeLevel2 unless the config names a reconciler. */
  lemma ReconcilerDefault(config: PersistConfig)
    ensures LazyDefaults(config).Reconcile() == config.stateReconciler.GetOr(MergeLevel2)
    ensures LazyDefaults(config).lazy == config.lazy
  {
  }
}
