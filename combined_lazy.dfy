/**
 * persistCombineReducersLazy: a combined reducer whose state starts as an
 * object of per-field lazy views (the inner proxy) and is handed out
 * wrapped in one more view (the outer proxy).  Nothing is read from
 * storage until some field is forced.
 */
module CombineLazy {
  import opened Js
  import opened Host
  import opened Config
  import opened Lazy
  import opened Slice
  import opened Reducing
  import opened PersistStore

  // ---------------------------------------------------------------------
  // createCombinedProxy

  /** Whether createCombinedProxy gives field k a lazy view: it is not one already, and it is whitelisted if there is a whitelist. */
  predicate Wraps(config: PersistConfig, initial: Value, k: string)
  {
    !IsPersistable(Member(initial, k)) && (config.whitelist.None? || Includes(config.whitelist.value, k))
  }

  /** Field k of the combined proxy: a view reading field k of the restored state, or the initial value as it is. */
  predicate CombinedField(cell: object, config: PersistConfig, initial: Value, k: string, v: Value)
  {
    if Wraps(config, initial, k) then v.View? && v.supplier == Field(cell, initial, k)
    else v == Member(initial, k)
  }

  /**
   * `createCombinedProxy(restoreItem(initial), config, initial)`: an object
   * with exactly the initial state's keys, each field a new lazy view when
   * Wraps says so and the initial value otherwise.  `Object.keys` throws on
   * a nullish initial state.
   */
  method CreateCombinedProxy(cell: object, config: PersistConfig, initial: Value) returns (r: Outcome<Value>)
    ensures Nullish(initial) ==> r == Thrown(NULL_TO_OBJECT)
    ensures !Nullish(initial) ==> r.Ok? && r.value.Obj? && r.value.fields.Keys == OwnKeys(initial)
    ensures r.Ok? ==> forall k | k in r.value.fields :: CombinedField(cell, config, initial, k, r.value.fields[k])
  {
    if Nullish(initial) {
      return Thrown(NULL_TO_OBJECT);
    }
    var combined: map<string, Value> := map[];
    var todo := OwnKeys(initial);
    while todo != {}
      invariant todo <= OwnKeys(initial) && combined.Keys == OwnKeys(initial) - todo
      invariant forall k | k in combined :: CombinedField(cell, config, initial, k, combined[k])
      decreases todo
    {
      var k :| k in todo;
      var value := Member(initial, k);
      if IsPersistable(value) {
        combined := combined[k := value];
      } else if config.whitelist.None? {
        var view := CreateLazy(Field(cell, initial, k));
        combined := combined[k := view];
      } else if Includes(config.whitelist.value, k) {
        var view := CreateLazy(Field(cell, initial, k));
        combined := combined[k := view];
      } else {
        combined := combined[k := value];
      }
      todo := todo - {k};
    }
    r := Ok(Obj(combined));
  }

  /**
   * A field outside the whitelist is never a view of the closure, so reading
   * it never reaches storage; with no whitelist, every field that is not a
   * view already becomes one.
   */
  lemma WrappingFollowsWhitelist(cell: object, config: PersistConfig, initial: Value, k: string, v: Value)
    requires CombinedField(cell, config, initial, k, v)
    ensures config.whitelist.Some? && !Includes(config.whitelist.value, k) ==> v == Member(initial, k)
    ensures config.whitelist.None? && !Member(initial, k).View? ==> v.View? && v.supplier == Field(cell, initial, k)
    ensures Member(initial, k).View? ==> v == Member(initial, k)
  {
  }

  /**
   * A wrapped field reads field k of the restored state, falling back to
   * the initial field when that is nullish; a nullish restore falls back to
   * the whole initial state.
   */
  lemma FieldFallsBack(restored: Value, initial: Value, k: string)
    requires !Nullish(initial)
    ensures !Nullish(restored) && !Nullish(Member(restored, k)) ==> FieldOf(restored, initial, k) == Ok(Member(restored, k))
    ensures !Nullish(restored) && Nullish(Member(restored, k)) ==> FieldOf(restored, initial, k) == Ok(Member(initial, k))
    ensures Nullish(restored) ==> FieldOf(restored, initial, k) == Ok(Member(initial, k))
  {
  }

  // ---------------------------------------------------------------------
  // The wrapper reducer

  /** `{ stateReconciler: autoMergeLevel2, ...config }` */
  function LazyDefaults(config: PersistConfig): (c: PersistConfig)
    ensures c.Reconcile() == config.stateReconciler.GetOr(MergeLevel2)
    ensures c.key == config.key && c.whitelist == config.whitelist && c.storage == config.storage
  {
    config.WithDefaultReconciler(MergeLevel2)
  }

  /** The closure state of persistCombineReducersLazy (and of persistCombineReducers with `lazy: true`). */
  class LazyCombination
  {
    const config: PersistConfig
    const helpers: Restorer
    const reducer: Reducer
    /** `innerProxy`; None while NOT_INITIALIZED */
    var inner: Option<Value>
    /** `outerProxy`; None while NOT_INITIALIZED */
    var outer: Option<Value>

    /** The wrapper around `combineReducers(reducers)`, with its own createHelpers. */
    constructor (config: PersistConfig, reducers: map<string, Reducer>)
      ensures this.config == LazyDefaults(config) && reducer == Combined(reducers)
      ensures inner == None && outer == None && Valid() && fresh(helpers) && fresh(helpers.persistoid)
      ensures helpers.reconciled == None && !helpers.restored && helpers.persistoid.store == None
    {
      this.config := LazyDefaults(config);
      reducer := Combined(reducers);
      helpers := new Restorer(LazyDefaults(config), true);
      inner := None;
      outer := None;
    }

    ghost predicate Valid()
      reads this, helpers, helpers.persistoid
    {
      helpers.Valid() && helpers.config == config && helpers.keyed && reducer.Combined?
    }

    /**
     * `getOrCreateProxy()`: the first call computes the initial state, builds
     * the inner proxy of field views and the outer view over the whole
     * restore, and keeps both; later calls return the inner proxy and build
     * nothing.
     */
    method GetOrCreateProxy() returns (r: Outcome<Value>)
      requires Valid()
      modifies this, helpers, helpers.persistoid, config.storage
      ensures Valid() && helpers.Kept()
      ensures old(inner).Some? ==> r == Ok(old(inner).value) && inner == old(inner) && outer == old(outer) && helpers.Quiet()
      ensures old(inner).None? && r.Ok? ==>
        inner == Some(r.value) && r.value.Obj? && outer.Some? && outer.value.View? &&
        outer.value.supplier.Restore? && outer.value.supplier.cell == helpers &&
        r.value.fields.Keys == reducer.children.Keys &&
        forall k | k in r.value.fields :: CombinedField(helpers, config, outer.value.supplier.initial, k, r.value.fields[k])
      ensures old(inner).None? && r.Thrown? ==> inner == None && outer == old(outer)
      ensures Idle(reducer, GetEmptyState) && Readable(reducer, Undef, old(LensOf(helpers))) ==> helpers.Quiet()
    {
      if inner.Some? {
        return Ok(inner.value);
      }
      var initial := Run(helpers, reducer, Undef, GetEmptyState);
      if initial.Thrown? {
        return initial;
      }
      var proxy := CreateCombinedProxy(helpers, config, initial.value);
      var view := CreateLazy(Restore(helpers, initial.value));
      inner := Some(proxy.value);
      outer := Some(view);
      r := proxy;
    }

    /** `state === undefined || state === outerProxy`: the states the wrapper replaces by the inner proxy. */
    predicate Replaced(state: Value)
      reads this
    {
      state == Undef || Some(state) == outer
    }

    /**
     * The wrapper reducer.  A register action hands the persistoid to the
     * persistor that sent it.  An undefined state, or the outer proxy, is
     * replaced by the inner proxy (`ran` is the state the combined reducer
     * runs on, `next` what it returns).  The outer view is what the store
     * sees, and the reducer run never writes storage itself.
     */
    method Reduce(state: Value, a: Action) returns (r: Outcome<Value>, ghost ran: Value, ghost next: Value)
      requires Valid()
      modifies this, helpers, helpers.persistoid, config.storage, if a.Register? then {a.registry} else {}
      ensures Valid() && config.storage.items == old(config.storage.items)
      ensures !old(Replaced(state)) ==> ran == state
      ensures old(Replaced(state)) && old(inner).Some? ==> ran == old(inner).value
      ensures r.Ok? ==> outer.Some? && r.value == outer.value
      ensures r.Ok? && Detached(helpers, ran) && Detached(helpers, next) ==> ShouldUpdate(config, ran, next).Ok?
      ensures r.Ok? && next != ran ==>
        inner == Some(next) && outer.value.View? && outer.value.supplier == Fixed(next) &&
        (helpers.persistoid.lastState == next || helpers.persistoid.lastState == old(helpers.persistoid.lastState))
      ensures r.Ok? && next != ran && Detached(helpers, ran) && Detached(helpers, next) ==>
        helpers.persistoid.lastState == (if ShouldUpdate(config, ran, next) == Ok(true) then next else old(helpers.persistoid.lastState))
      ensures r.Ok? && next == ran ==>
        helpers.persistoid.lastState == old(helpers.persistoid.lastState) && helpers.persistoid.timer == old(helpers.persistoid.timer)
      ensures r.Ok? && next == ran && !old(Replaced(state)) ==>
        inner == old(inner) && (old(outer).Some? ==> outer == old(outer)) &&
        (old(outer).None? ==> outer.value.View? && outer.value.supplier == Fixed(next))
      ensures !Registers(a) && Idle(reducer, a) && Readable(reducer, ran, old(LensOf(helpers))) &&
              (old(inner).Some? || !old(Replaced(state))) ==>
        (Idled(reducer, ran, old(LensOf(helpers))) == Some(ran) ==> helpers.Quiet() && r.Ok? && next == ran)
      ensures !Registers(a) && Idle(reducer, a) && Readable(reducer, ran, old(LensOf(helpers))) &&
              (old(inner).Some? || !old(Replaced(state))) && Detached(helpers, ran) ==>
        helpers.Quiet()
    ensures Registers(a) ==>
      (a.registry as Persistor).persistoids == old((a.registry as Persistor).persistoids) + [helpers.persistoid]
    ensures Registers(a) ==> helpers.persistoid.store == Some((a.registry as Persistor).Shared())
    {
      if Registers(a) {
        var registry := a.registry as Persistor;
        registry.Register(helpers.persistoid);
      }
      var current := state;
      if current == Undef || Some(current) == outer {
        var proxy := GetOrCreateProxy();
        if proxy.Thrown? {
          return Thrown(proxy.error), state, Undef;
        }
        current := proxy.value;
      }
      ran := current;
      r, next := Advance(current, a);
    }

    /** The wrapper reducer once its state is settled: the combined reducer run and the new state kept. */
    method Advance(current: Value, a: Action) returns (r: Outcome<Value>, ghost next: Value)
      requires Valid()
      modifies this, helpers, helpers.persistoid, config.storage
      ensures Valid() && config.storage.items == old(config.storage.items)
      ensures helpers.persistoid.store == old(helpers.persistoid.store)
      ensures r.Ok? ==> outer.Some? && r.value == outer.value
      ensures r.Ok? && Detached(helpers, current) && Detached(helpers, next) ==> ShouldUpdate(config, current, next).Ok?
      ensures r.Ok? && next != current ==>
        inner == Some(next) && outer.value.View? && outer.value.supplier == Fixed(next) &&
        (helpers.persistoid.lastState == next || helpers.persistoid.lastState == old(helpers.persistoid.lastState))
      ensures r.Ok? && next != current && Detached(helpers, current) && Detached(helpers, next) ==>
        helpers.persistoid.lastState == (if ShouldUpdate(config, current, next) == Ok(true) then next else old(helpers.persistoid.lastState))
      ensures r.Ok? && next == current ==>
        helpers.persistoid.lastState == old(helpers.persistoid.lastState) && helpers.persistoid.timer == old(helpers.persistoid.timer) &&
        inner == old(inner) && (old(outer).Some? ==> outer == old(outer)) &&
        (old(outer).None? ==> outer.value.View? && outer.value.supplier == Fixed(next))
      ensures Idle(reducer, a) && Readable(reducer, current, old(LensOf(helpers))) ==>
        (Idled(reducer, current, old(LensOf(helpers))) == Some(current) ==> helpers.Quiet() && r.Ok? && next == current)
      ensures Idle(reducer, a) && Readable(reducer, current, old(LensOf(helpers))) && Detached(helpers, current) ==>
        helpers.Quiet()
    {
      next := Undef;
      var nextState := Run(helpers, reducer, current, a);
      if nextState.Thrown? {
        return Thrown(nextState.error), next;
      }
      next := nextState.value;
      r := Keep(current, nextState.value);
    }

    /** What the wrapper does with the combined reducer's result `next` for the state `current`. */
    method Keep(current: Value, next: Value) returns (r: Outcome<Value>)
      requires Valid()
      modifies this, helpers, helpers.persistoid, config.storage
      ensures Valid() && config.storage.items == old(config.storage.items)
      ensures helpers.persistoid.store == old(helpers.persistoid.store) && helpers.persistoid.isPaused == old(helpers.persistoid.isPaused)
      ensures old(helpers.persistoid.pendingActions) <= helpers.persistoid.pendingActions
      ensures old(helpers.persistoid.posted) <= helpers.persistoid.posted && old(helpers.persistoid.forwarded) <= helpers.persistoid.forwarded
      ensures r.Ok? ==> outer.Some? && r.value == outer.value
      ensures r.Ok? && Detached(helpers, current) && Detached(helpers, next) ==> ShouldUpdate(config, current, next).Ok?
      ensures r.Ok? && next != current ==>
        inner == Some(next) && outer.value.View? && outer.value.supplier == Fixed(next) &&
        (helpers.persistoid.lastState == next || helpers.persistoid.lastState == old(helpers.persistoid.lastState))
      ensures r.Ok? && next != current && Detached(helpers, current) && Detached(helpers, next) ==>
        helpers.persistoid.lastState == (if ShouldUpdate(config, current, next) == Ok(true) then next else old(helpers.persistoid.lastState))
      ensures next == current ==>
        r.Ok? && helpers.Quiet() &&
        helpers.persistoid.lastState == old(helpers.persistoid.lastState) && helpers.persistoid.timer == old(helpers.persistoid.timer) &&
        inner == old(inner) && (old(outer).Some? ==> outer == old(outer)) &&
        (old(outer).None? ==> outer.value.View? && outer.value.supplier == Fixed(next))
      ensures Detached(helpers, current) && Detached(helpers, next) ==> helpers.Quiet()
    {
      if current != next {
        inner := Some(next);
        var view := CreateLazy(Fixed(next));
        outer := Some(view);
        var updated := helpers.persistoid.UpdateIfChanged(current, next);
        if updated.Thrown? {
          return Thrown(updated.error);
        }
      }
      if outer.None? {
        var view := CreateLazy(Fixed(next));
        outer := Some(view);
      }
      r := Ok(outer.value);
    }
  }
}
