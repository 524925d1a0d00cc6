/**
 * persistReducer: wraps one reducer.  The first undefined state is replaced
 * by a lazy view over the restore closure (or, for a `combined` config, by
 * an object of per-field views), created once; every later state is the
 * reducer's own result, and a change to a whitelisted field (any change,
 * without a whitelist) is handed to the persistoid.
 */
module PersistReducer {
  import opened Js
  import opened Host
  import opened Config
  import opened Lazy
  import opened Slice
  import opened Reducing
  import opened PersistStore
  import opened CombineLazy
  import PersistableProxy

  /**
   * The wrapper's updateIfChanged decision for two states whose reads call
   * no restore supplier: never for the same state; always without a
   * whitelist; otherwise when some whitelisted field differs, reading fields
   * of a nullish state throwing and a view over a fixed value being read
   * through its get trap.
   */
  function ReducerShouldUpdate(config: PersistConfig, prev: Value, next: Value): Outcome<bool>
  {
    if prev == next then Ok(false)
    else if config.whitelist.None? then Ok(true)
    else if config.whitelist.value != [] && (Nullish(prev) || Nullish(next)) then Thrown(NULL_PROPERTY)
    else Ok(exists k | k in config.whitelist.value :: ReadThrough(prev, k) != ReadThrough(next, k))
  }

  /** A listed field that differs between two objects makes the whitelist loop update. */
  lemma WhitelistHit(config: PersistConfig, prev: Value, next: Value, k: string)
    requires config.whitelist.Some? && k in config.whitelist.value
    requires !Nullish(prev) && !Nullish(next) && ReadThrough(prev, k) != ReadThrough(next, k)
    ensures ReducerShouldUpdate(config, prev, next) == Ok(true)
  {
  }

  /** A non-empty whitelist read on null or undefined throws. */
  lemma WhitelistNullish(config: PersistConfig, prev: Value, next: Value)
    requires config.whitelist.Some? && config.whitelist.value != [] && prev != next
    requires Nullish(prev) || Nullish(next)
    ensures ReducerShouldUpdate(config, prev, next) == Thrown(NULL_PROPERTY)
  {
  }

  /** When no listed field differs the whitelist loop does not update. */
  lemma WhitelistMiss(config: PersistConfig, prev: Value, next: Value)
    requires config.whitelist.Some? && prev != next
    requires config.whitelist.value != [] ==> !Nullish(prev) && !Nullish(next)
    requires forall j | 0 <= j < |config.whitelist.value| ::
      ReadThrough(prev, config.whitelist.value[j]) == ReadThrough(next, config.whitelist.value[j])
    ensures ReducerShouldUpdate(config, prev, next) == Ok(false)
  {
  }

  /**
   * With a whitelist, the wrapper decides as the persistoid's own
   * updateIfChanged does; without one it updates on every new state, which
   * includes every case the persistoid would update in.
   */
  lemma DecisionAgainstPersistoid(config: PersistConfig, prev: Value, next: Value)
    ensures config.whitelist.Some? ==> ReducerShouldUpdate(config, prev, next) == ShouldUpdate(config, prev, next)
    ensures config.whitelist.None? ==> ReducerShouldUpdate(config, prev, next) == Ok(prev != next)
    ensures ShouldUpdate(config, prev, next) == Ok(true) ==> ReducerShouldUpdate(config, prev, next) == Ok(true)
  {
    if config.whitelist.None? {
      assert ReducerShouldUpdate(config, prev, next) == Ok(prev != next);
    } else if prev != next && !(config.whitelist.value != [] && (Nullish(prev) || Nullish(next))) {
      var listed := config.whitelist.value;
      if exists k | k in listed :: ReadThrough(prev, k) != ReadThrough(next, k) {
        var k :| k in listed && ReadThrough(prev, k) != ReadThrough(next, k);
        assert k in Listed(config);
        assert Differs(Listed(config), prev, next);
      } else {
        forall k | k in Listed(config) ensures ReadThrough(prev, k) == ReadThrough(next, k) {
          assert k in listed;
        }
        assert !Differs(Listed(config), prev, next);
      }
    }
  }

  /** `{ stateReconciler = autoMergeLevel1 }`: the reconciler persistReducer restores with. */
  lemma DefaultReconciler(config: PersistConfig)
    ensures config.stateReconciler.None? ==> config.Reconcile() == MergeLevel1
    ensures config.stateReconciler.Some? ==> config.Reconcile() == config.stateReconciler.value
  {
  }

  /** The closure state of one `persistReducer(config, reducer)`. */
  class PersistedReducer
  {
    const config: PersistConfig
    const helpers: Restorer
    const reducer: Reducer
    /** `proxy`; None while NOT_INITIALIZED */
    var proxy: Option<Value>

    /** The wrapper, with its own persistoid and restore closure state. */
    constructor (config: PersistConfig, reducer: Reducer)
      ensures this.config == config && this.reducer == reducer && proxy == None
      ensures Valid() && fresh(helpers) && fresh(helpers.persistoid)
      ensures helpers.reconciled == None && helpers.persistoid.store == None && helpers.persistoid.lastState == Null
    {
      this.config := config;
      this.reducer := reducer;
      helpers := new Restorer(config, false);
      proxy := None;
    }

    ghost predicate Valid()
      reads this, helpers, helpers.persistoid
    {
      helpers.Valid() && helpers.config == config && !helpers.keyed
    }

    /**
     * `getOrCreateProxy()`: the first call computes the initial state and
     * builds the proxy (per-field views for a combined config, one view over
     * the restore otherwise) and keeps it; later calls return it and build
     * nothing.  Building it reads nothing from storage when the reducers
     * ignore the get-empty-state action.
     */
    method GetOrCreateProxy() returns (r: Outcome<Value>)
      requires Valid()
      modifies this, helpers, helpers.persistoid, config.storage
      ensures Valid() && helpers.Kept()
      ensures old(proxy).Some? ==> r == Ok(old(proxy).value) && proxy == old(proxy) && helpers.Quiet()
      ensures old(proxy).None? && r.Ok? ==> proxy == Some(r.value)
      ensures old(proxy).None? && r.Ok? && !config.combined ==>
        r.value.View? && r.value.supplier.Restore? && r.value.supplier.cell == helpers
      ensures old(proxy).None? && r.Ok? && config.combined ==>
        r.value.Obj? &&
        exists initial: Value ::
          r.value.fields.Keys == OwnKeys(initial) &&
          forall k | k in r.value.fields :: CombinedField(helpers, config, initial, k, r.value.fields[k])
      ensures old(proxy).None? && r.Thrown? ==> proxy == None
      ensures Idle(reducer, GetEmptyState) && Readable(reducer, Undef, old(LensOf(helpers))) ==> helpers.Quiet()
    {
      if proxy.Some? {
        return Ok(proxy.value);
      }
      var initial := Run(helpers, reducer, Undef, GetEmptyState);
      if initial.Thrown? {
        return initial;
      }
      if config.combined {
        r := CreateCombinedProxy(helpers, config, initial.value);
        if r.Thrown? {
          return;
        }
      } else {
        var view := CreateLazy(Restore(helpers, initial.value));
        r := Ok(view);
      }
      proxy := Some(r.value);
    }

    /**
     * `updateIfChanged(prev, next)`: for two states it reads without views,
     * decides as ReducerShouldUpdate says and reads no storage; whatever the
     * states, the persistoid is updated with `next` exactly when it answers
     * true.
     */
    method UpdateIfChanged(prev: Value, next: Value) returns (r: Outcome<bool>)
      requires Valid()
      modifies helpers, helpers.persistoid, config.storage
      ensures Valid() && config.storage.items == old(config.storage.items)
      ensures helpers.persistoid.store == old(helpers.persistoid.store)
      ensures r == Ok(true) ==>
        helpers.persistoid.lastState == next &&
        helpers.persistoid.timer == (if helpers.persistoid.isPaused then old(helpers.persistoid.timer) else Some(next))
      ensures r != Ok(true) ==>
        helpers.persistoid.lastState == old(helpers.persistoid.lastState) && helpers.persistoid.timer == old(helpers.persistoid.timer)
      ensures helpers.persistoid.isPaused == old(helpers.persistoid.isPaused) && helpers.persistoid.store == old(helpers.persistoid.store)
      ensures !helpers.Answers(prev) && !helpers.Answers(next) ==>
        r == ReducerShouldUpdate(config, prev, next) && helpers.Quiet()
      ensures prev == next ==> r == Ok(false) && helpers.Quiet()
    {
      if prev == next {
        return Ok(false);
      }
      if config.whitelist.None? {
        r := Ok(true);
      } else {
        r := WhitelistDiffers(prev, next);
      }
      if r == Ok(true) {
        helpers.persistoid.Update(next);
      }
    }

    /** The whitelist loop of updateIfChanged: reads each listed field of both states until two differ. */
    method WhitelistDiffers(prev: Value, next: Value) returns (r: Outcome<bool>)
      requires Valid() && config.whitelist.Some? && prev != next
      modifies helpers, helpers.persistoid, config.storage
      ensures Valid() && helpers.Kept()
      ensures !helpers.Answers(prev) && !helpers.Answers(next) ==>
        r == ReducerShouldUpdate(config, prev, next) && helpers.Quiet()
    {
      var whitelist := config.whitelist.value;
      ghost var plain := !helpers.Answers(prev) && !helpers.Answers(next);
      var i := 0;
      while i < |whitelist|
        invariant 0 <= i <= |whitelist| && helpers.Valid() && helpers.Kept()
        invariant plain ==> helpers.Quiet()
        invariant plain && i > 0 ==> !Nullish(prev) && !Nullish(next)
        invariant plain ==> forall j | 0 <= j < i :: ReadThrough(prev, whitelist[j]) == ReadThrough(next, whitelist[j])
      {
        var differs := FieldDiffers(prev, next, whitelist[i]);
        if differs.Thrown? {
          if plain {
            WhitelistNullish(config, prev, next);
          }
          return Thrown(differs.error);
        }
        if differs.value {
          if plain {
            WhitelistHit(config, prev, next, whitelist[i]);
          }
          return Ok(true);
        }
        i := i + 1;
      }
      if plain {
        WhitelistMiss(config, prev, next);
      }
      r := Ok(false);
    }

    /** One step of the whitelist loop: reads field k of both states and compares the two. */
    method FieldDiffers(prev: Value, next: Value, k: string) returns (r: Outcome<bool>)
      requires Valid()
      modifies helpers, helpers.persistoid, config.storage
      ensures Valid() && helpers.Kept()
      ensures !helpers.Answers(prev) && !helpers.Answers(next) ==>
        r == (if Nullish(prev) || Nullish(next) then Thrown(NULL_PROPERTY) else Ok(ReadThrough(prev, k) != ReadThrough(next, k))) &&
        helpers.Quiet()
    {
      var before := helpers.Get(prev, k);
      if before.Thrown? {
        return Thrown(before.error);
      }
      var after := helpers.Get(next, k);
      if after.Thrown? {
        return Thrown(after.error);
      }
      r := Ok(before.value != after.value);
    }

    /**
     * The wrapper reducer.  A register action hands the persistoid to the
     * persistor that sent it; an undefined state is replaced by the proxy
     * (`ran` is the state the reducer runs on, `next` what it returns); the
     * reducer's result is returned as it is, after updateIfChanged.  An
     * action the reducers ignore returns the state as it is and reads and
     * persists nothing.
     */
    method Reduce(state: Value, a: Action) returns (r: Outcome<Value>, ghost ran: Value, ghost next: Value)
      requires Valid()
      modifies this, helpers, helpers.persistoid, config.storage, if a.Register? then {a.registry} else {}
      ensures Valid() && config.storage.items == old(config.storage.items)
      ensures state != Undef ==> ran == state && proxy == old(proxy)
      ensures state == Undef && old(proxy).Some? ==> ran == old(proxy).value && proxy == old(proxy)
      ensures state == Undef && r.Ok? ==> proxy.Some? && ran == proxy.value
      ensures r.Ok? ==> r.value == next
      ensures r.Ok? && !helpers.Answers(ran) && !helpers.Answers(next) ==>
        ReducerShouldUpdate(config, ran, next).Ok? &&
        helpers.persistoid.lastState ==
          (if ReducerShouldUpdate(config, ran, next) == Ok(true) then next else old(helpers.persistoid.lastState))
      ensures !Registers(a) && Idle(reducer, a) && Readable(reducer, ran, old(LensOf(helpers))) &&
              Idled(reducer, ran, old(LensOf(helpers))) == Some(ran) && (state != Undef || old(proxy).Some?) ==>
        helpers.Quiet() && r == Ok(ran) &&
        helpers.persistoid.lastState == old(helpers.persistoid.lastState) && helpers.persistoid.timer == old(helpers.persistoid.timer)
    ensures Registers(a) ==>
      (a.registry as Persistor).persistoids == old((a.registry as Persistor).persistoids) + [helpers.persistoid]
    ensures Registers(a) ==> helpers.persistoid.store == Some((a.registry as Persistor).Shared())
    {
      if Registers(a) {
        var registry := a.registry as Persistor;
        registry.Register(helpers.persistoid);
      }
      var current := state;
      if current == Undef {
        var created := GetOrCreateProxy();
        if created.Thrown? {
          return Thrown(created.error), state, Undef;
        }
        current := created.value;
      }
      ran := current;
      r, next := Advance(current, a);
    }

    /** The wrapper reducer once its state is settled: the reducer run and updateIfChanged. */
    method Advance(current: Value, a: Action) returns (r: Outcome<Value>, ghost next: Value)
      requires Valid()
      modifies helpers, helpers.persistoid, config.storage
      ensures Valid() && config.storage.items == old(config.storage.items)
      ensures helpers.persistoid.store == old(helpers.persistoid.store)
      ensures r.Ok? ==> r.value == next
      ensures r.Ok? && !helpers.Answers(current) && !helpers.Answers(next) ==>
        ReducerShouldUpdate(config, current, next).Ok? &&
        helpers.persistoid.lastState ==
          (if ReducerShouldUpdate(config, current, next) == Ok(true) then next else old(helpers.persistoid.lastState))
      ensures Idle(reducer, a) && Readable(reducer, current, old(LensOf(helpers))) &&
              Idled(reducer, current, old(LensOf(helpers))) == Some(current) ==>
        helpers.Quiet() && r == Ok(current) &&
        helpers.persistoid.lastState == old(helpers.persistoid.lastState) && helpers.persistoid.timer == old(helpers.persistoid.timer)
    {
      next := Undef;
      var nextState := Run(helpers, reducer, current, a);
      if nextState.Thrown? {
        return Thrown(nextState.error), next;
      }
      next := nextState.value;
      var updated := UpdateIfChanged(current, nextState.value);
      if updated.Thrown? {
        return Thrown(updated.error), next;
      }
      r := Ok(nextState.value);
    }
  }

  // ---------------------------------------------------------------------
  // The proxy factory as the file imports it

  const CREATE_PROXY_MISSING: string := "TypeError: createProxy is not a function"

  /** `restoreItem(initialState)` seen as an object: an anonymous arrow function's own `length` and `name`. */
  const RESTORE_CLOSURE: Value := Obj(map["length" := Num(0), "name" := Str("")])

  /**
   * getOrCreateProxy as the file's imports make it: persistableProxy has no
   * createLazy, so without `combined` the factory is undefined and calling
   * it throws; with `combined` it is persistableProxy's createCombinedProxy,
   * which takes `(initialState, getItem)`, so it receives the restore
   * closure as its initial state and the config object as its getItem.
   * Building it reads nothing; resolving it always throws, so no read
   * through it ever reaches storage.
   */
  method AsWrittenProxy(config: PersistConfig) returns (r: Outcome<PersistableProxy.CombinedView>)
    ensures !config.combined ==> r == Thrown(CREATE_PROXY_MISSING)
    ensures config.combined ==>
      r.Ok? && r.value.fetcher == PersistableProxy.Uncallable && r.value.initial.value == RESTORE_CLOSURE &&
      r.value.proxies == map[] && r.value.CacheValid()
    ensures r.Ok? ==> r.value.Persisted() == Thrown(PersistableProxy.NOT_CALLABLE)
  {
    if !config.combined {
      return Thrown(CREATE_PROXY_MISSING);
    }
    var closure := new PersistableProxy.Box(RESTORE_CLOSURE);
    var view := new PersistableProxy.CombinedView(PersistableProxy.Uncallable, closure, map[]);
    r := Ok(view);
  }

  /**
   * Every field the reducer reads from the as-written combined proxy is a
   * child whose resolution throws, whatever the storage holds: the store
   * never sees a restored value.
   */
  lemma AsWrittenFieldsThrow(c: PersistableProxy.CombinedView, child: PersistableProxy.PersistableView, k: string, prop: Prop)
    requires c.fetcher == PersistableProxy.Uncallable && child.getter == PersistableProxy.Through(c, k)
    requires prop != Key(TO_JSON) && prop != PersistableProxy.PERSISTED
    ensures child.Persisted() == Thrown(PersistableProxy.NOT_CALLABLE)
    ensures child.Get(prop) == Thrown(PersistableProxy.NOT_CALLABLE)
  {
  }
}
