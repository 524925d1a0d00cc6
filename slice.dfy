/**
 * One persisted slice at run time: the persistoid (createPersistoid), the
 * debounced writer of the slice's snapshot, and the restore helper
 * (restoreItem in createHelpers and in persistReducer), which reads the
 * snapshot once and caches the reconciled state.
 *
 * The two are linked: a write unwraps the slice's lazy fields, which may
 * restore the slice, and a restore sends a rehydrate action through the
 * persistoid.  `setTimeout` is modelled by explicit steps: the pending
 * debounced write is `timer` and runs on Fire, and the actions posted with
 * `setTimeout(0)` wait in `posted` until Tick.
 */
module Slice {
  import opened Js
  import opened Host
  import opened Config
  import opened StorageKey
  import opened Snapshot
  import opened StoredState
  import opened Reconcile
  import opened Lazy

  const NULL_TO_OBJECT: string := "TypeError: Cannot convert undefined or null to object"
  const NULL_PROPERTY: string := "TypeError: Cannot read properties of null"

  // ---------------------------------------------------------------------
  // updateIfChanged

  /**
   * `v[k]` for a state that is not nullish, as read without calling a
   * restore closure: a view over a fixed value through its get trap (a
   * field that is itself a view unwrapped as valueOf does, a method name as
   * undefined), anything else as its own field.
   */
  function ReadThrough(v: Value, k: string): Value
  {
    if v.View? && v.supplier.Fixed? then
      match GetTrap(Key(k), v.supplier.value)
      case Plain(x) => x
      case ForceView(w) => PlainValue(w)
      case _ => Undef
    else Member(v, k)
  }

  /** `Object.keys(v)` for a state that is not nullish, read as Read reads its fields. */
  function NamesThrough(v: Value): set<string>
  {
    if v.View? && v.supplier.Fixed? then KeySetThrough(v.supplier.value) else OwnKeys(v)
  }

  /**
   * Reading the keys and fields of `v` calls none of the restore suppliers
   * of `owner`: `v` is not a view of it and, if `v` is a view over a fixed
   * value, no field its get trap unwraps is one.
   */
  ghost predicate Detached(owner: Restorer?, v: Value)
  {
    (owner == null || !owner.Owns(v)) &&
    (v.View? && v.supplier.Fixed? ==> forall k :: Unreached(owner, v.supplier.value, k))
  }

  /** The get trap over `got` does not unwrap a view of `owner` for the key `k`. */
  ghost predicate Unreached(owner: Restorer?, got: Value, k: string)
  {
    GetTrap(Key(k), got).ForceView? ==> owner == null || !owner.Owns(GetTrap(Key(k), got).view)
  }

  /** Some compared key holds different values in the two states. */
  predicate Differs(keys: set<string>, prev: Value, next: Value)
  {
    exists k | k in keys :: ReadThrough(prev, k) != ReadThrough(next, k)
  }

  /** The whitelist as a set of names. */
  function Listed(config: PersistConfig): set<string>
    requires config.whitelist.Some?
  {
    set k | k in config.whitelist.value
  }

  /**
   * Whether the persistoid's updateIfChanged calls update: not for the same
   * state; otherwise when the key lists differ in length or some key
   * differs, comparing the whitelist if there is one and the own keys
   * otherwise.  Reading keys or fields of a nullish state throws; a view
   * over a fixed value is read through its traps.
   */
  function ShouldUpdate(config: PersistConfig, prev: Value, next: Value): Outcome<bool>
  {
    if prev == next then Ok(false)
    else if config.whitelist.None? then
      if Nullish(prev) || Nullish(next) then Thrown(NULL_TO_OBJECT)
      else if |NamesThrough(prev)| != |NamesThrough(next)| then Ok(true)
      else Ok(Differs(NamesThrough(next), prev, next))
    else if config.whitelist.value != [] && (Nullish(prev) || Nullish(next)) then Thrown(NULL_PROPERTY)
    else Ok(Differs(Listed(config), prev, next))
  }

  /** Without a whitelist, updateIfChanged compares the key counts, then the values of the keys of `next`. */
  lemma OwnKeysDecision(config: PersistConfig, prev: Value, next: Value)
    requires config.whitelist.None? && prev != next
    ensures ShouldUpdate(config, prev, next) ==
      if Nullish(prev) || Nullish(next) then Thrown(NULL_TO_OBJECT)
      else if |NamesThrough(prev)| != |NamesThrough(next)| then Ok(true)
      else Ok(Differs(NamesThrough(next), prev, next))
  {
  }

  /** With a whitelist, updateIfChanged compares the listed values, and a non-empty list throws on a nullish state. */
  lemma ListedDecision(config: PersistConfig, prev: Value, next: Value)
    requires config.whitelist.Some? && prev != next
    ensures ShouldUpdate(config, prev, next) ==
      if Listed(config) != {} && (Nullish(prev) || Nullish(next)) then Thrown(NULL_PROPERTY)
      else Ok(Differs(Listed(config), prev, next))
  {
    if config.whitelist.value != [] {
      assert config.whitelist.value[0] in Listed(config);
    }
  }

  /**
   * updateIfChanged never consults the blacklist; with a whitelist it
   * updates exactly when a listed key changed, and without one exactly when
   * the key count changed or some key of the new state changed.  For states
   * that are not views, keys and fields are the states' own.
   */
  lemma UpdateDecision(config: PersistConfig, prev: Value, next: Value, blacklist: Option<seq<string>>)
    requires prev != next && !Nullish(prev) && !Nullish(next)
    ensures ShouldUpdate(config.(blacklist := blacklist), prev, next) == ShouldUpdate(config, prev, next)
    ensures config.whitelist.Some? ==>
      (ShouldUpdate(config, prev, next) == Ok(true) <==>
       exists k | k in config.whitelist.value :: ReadThrough(prev, k) != ReadThrough(next, k))
    ensures config.whitelist.None? ==>
      (ShouldUpdate(config, prev, next) == Ok(true) <==>
       |NamesThrough(prev)| != |NamesThrough(next)| || exists k | k in NamesThrough(next) :: ReadThrough(prev, k) != ReadThrough(next, k))
    ensures config.whitelist.Some? && !prev.View? && !next.View? ==>
      (ShouldUpdate(config, prev, next) == Ok(true) <==>
       exists k | k in config.whitelist.value :: Member(prev, k) != Member(next, k))
    ensures config.whitelist.None? && !prev.View? && !next.View? ==>
      (ShouldUpdate(config, prev, next) == Ok(true) <==>
       |OwnKeys(prev)| != |OwnKeys(next)| || exists k | k in OwnKeys(next) :: Member(prev, k) != Member(next, k))
  {
  }

  /**
   * A view over an earlier state, handed back as `prev`, is compared
   * through its traps: with the whitelist ["a"], a view over {a: 1, b: 1}
   * against {a: 1, b: 2} does not update; without a whitelist it does,
   * because b differs.
   */
  lemma FixedViewComparedThrough(config: PersistConfig, t: ProxyTarget)
    ensures var prev := View(t, Fixed(Obj(map["a" := Num(1), "b" := Num(1)])));
            var next := Obj(map["a" := Num(1), "b" := Num(2)]);
            ShouldUpdate(config.(whitelist := Some(["a"])), prev, next) == Ok(false) &&
            ShouldUpdate(config.(whitelist := None), prev, next) == Ok(true)
  {
    var prev := View(t, Fixed(Obj(map["a" := Num(1), "b" := Num(1)])));
    var next := Obj(map["a" := Num(1), "b" := Num(2)]);
    assert ReadThrough(prev, "a") == Num(1) == ReadThrough(next, "a");
    assert ReadThrough(prev, "b") == Num(1) != ReadThrough(next, "b");
    assert Listed(config.(whitelist := Some(["a"]))) == {"a"};
    assert NamesThrough(prev) == {"a", "b"} == NamesThrough(next);
  }

  /** The actions `asyncDispatch` posts for a store, in order. */
  function Posts(host: Store, actions: seq<Action>): seq<(Store, Action)>
  {
    seq(|actions|, i requires 0 <= i < |actions| => (host, actions[i]))
  }

  // ---------------------------------------------------------------------
  // The persistoid

  class Persistoid
  {
    const config: PersistConfig
    /** The restore helper whose lazy fields this persistoid may unwrap when writing. */
    var owner: Restorer?
    /** The state last passed to update, or null after a write. */
    var lastState: Value
    var isPaused: bool
    /** The pending debounced write and the state it will write. */
    var timer: Option<Value>
    var store: Option<SharedStore>
    /** Actions dispatched before a store was set. */
    var pendingActions: seq<Action>
    /** Actions posted with `setTimeout(0)`, with the store they go to. */
    var posted: seq<(Store, Action)>
    /** The slice keys passed on to `options.onRehydrate`. */
    var forwarded: seq<string>

    constructor (config: PersistConfig)
      ensures this.config == config && owner == null
      ensures lastState == Null && !isPaused && timer == None && store == None
      ensures pendingActions == [] && posted == [] && forwarded == []
    {
      this.config := config;
      owner := null;
      lastState := Null;
      isPaused := false;
      timer := None;
      store := None;
      pendingActions := [];
      posted := [];
      forwarded := [];
    }

    /** The owner, if any, is the restore helper of this persistoid and configuration. */
    ghost predicate Linked()
      reads this
    {
      owner != null ==> owner.persistoid == this && owner.config == config
    }

    /** `update(state)`: remembers the state and, unless paused, replaces any pending write by one of it. */
    method Update(state: Value)
      modifies this
      ensures lastState == state && isPaused == old(isPaused)
      ensures timer == if isPaused then old(timer) else Some(state)
      ensures owner == old(owner) && store == old(store) && pendingActions == old(pendingActions)
      ensures posted == old(posted) && forwarded == old(forwarded)
    {
      lastState := state;
      if isPaused {
        return;
      }
      timer := None;
      timer := Some(state);
    }

    /** The fields a read through the owner leaves alone. */
    ghost function Held(): (Restorer?, Option<SharedStore>, bool, Value, Option<Value>)
      reads this
    {
      (owner, store, isPaused, lastState, timer)
    }

    /** What reading a state through the owner keeps: the held fields, the stored items, and queues that only grow. */
    twostate predicate Reading()
      reads this, config.storage
    {
      Linked() && Held() == old(Held()) && config.storage.items == old(config.storage.items)
      && old(pendingActions) <= pendingActions && old(posted) <= posted && old(forwarded) <= forwarded
    }

    /** What a read that restores would change: the storage log, the queues, and the owner's restored state. */
    ghost function Trace(): (seq<Access>, seq<Action>, seq<(Store, Action)>, seq<string>, Option<Value>, bool)
      reads this, owner, config.storage
    {
      (config.storage.log, pendingActions, posted, forwarded,
       if owner == null then None else owner.reconciled, owner != null && owner.restored)
    }

    /** Nothing observable happened: no storage access, no restore, no action sent. */
    twostate predicate Silent()
      reads this, owner, config.storage
    {
      owner == old(owner) && Trace() == old(Trace())
    }

    /** `v[k]` as updateIfChanged reads it: through the get trap, which may call the owner's supplier. */
    method ReadField(v: Value, k: string) returns (r: Outcome<Value>)
      requires Linked()
      modifies this, config.storage, owner
      ensures Reading()
      ensures Detached(owner, v) ==> Silent() && r == (if Nullish(v) then Thrown(NULL_PROPERTY) else Ok(ReadThrough(v, k)))
    {
      if owner == null {
        return if Nullish(v) then Thrown(NULL_PROPERTY) else Ok(ReadThrough(v, k));
      }
      if Detached(owner, v) && v.View? && v.supplier.Fixed? {
        assert Unreached(owner, v.supplier.value, k);
      }
      r := owner.Get(v, k);
    }

    /** `Object.keys(v)` as updateIfChanged reads it: through the ownKeys trap, which may call the owner's supplier. */
    method ReadKeys(v: Value) returns (r: Outcome<set<string>>)
      requires Linked()
      modifies this, config.storage, owner
      ensures Reading()
      ensures Detached(owner, v) ==> Silent() && r == (if Nullish(v) then Thrown(NULL_TO_OBJECT) else Ok(NamesThrough(v)))
    {
      if owner == null {
        return if Nullish(v) then Thrown(NULL_TO_OBJECT) else Ok(NamesThrough(v));
      }
      r := owner.Keys(v);
    }

    /** The loop of updateIfChanged: reads `prev[key]` and `next[key]`, stopping at the first key whose values differ. */
    method KeysDiffer(keys: set<string>, prev: Value, next: Value, ghost plain: bool) returns (r: Outcome<bool>)
      requires Linked() && (plain ==> Detached(owner, prev) && Detached(owner, next))
      modifies this, config.storage, owner
      ensures Reading()
      ensures plain ==>
        Silent() &&
        r == (if keys != {} && (Nullish(prev) || Nullish(next)) then Thrown(NULL_PROPERTY) else Ok(Differs(keys, prev, next)))
    {
      r := Ok(false);
      var todo := keys;
      while todo != {} && r == Ok(false)
        invariant todo <= keys && Reading()
        invariant plain ==> Silent()
        invariant plain && r == Ok(false) && todo != keys ==> !Nullish(prev) && !Nullish(next)
        invariant plain && r == Ok(false) ==> forall k | k in keys - todo :: ReadThrough(prev, k) == ReadThrough(next, k)
        invariant plain && r != Ok(false) ==>
          r == (if keys != {} && (Nullish(prev) || Nullish(next)) then Thrown(NULL_PROPERTY) else Ok(Differs(keys, prev, next)))
        decreases todo
      {
        var key :| key in todo;
        r := KeyDiffers(key, prev, next, plain);
        todo := todo - {key};
      }
    }

    /** One step of that loop: reads `prev[key]`, then `next[key]`, and compares the two. */
    method KeyDiffers(key: string, prev: Value, next: Value, ghost plain: bool) returns (r: Outcome<bool>)
      requires Linked() && (plain ==> Detached(owner, prev) && Detached(owner, next))
      modifies this, config.storage, owner
      ensures Reading()
      ensures plain ==>
        Silent() &&
        r == (if Nullish(prev) || Nullish(next) then Thrown(NULL_PROPERTY) else Ok(ReadThrough(prev, key) != ReadThrough(next, key)))
    {
      var before := ReadField(prev, key);
      var after := before;
      if before.Ok? {
        after := ReadField(next, key);
      }
      r := if after.Thrown? then Thrown(after.error) else Ok(before.value != after.value);
    }

    /**
     * `updateIfChanged(prev, next)`: updates with `next` exactly when it
     * answers true; for states whose reads call no restore supplier, the
     * answer is ShouldUpdate's and nothing is read from storage.
     */
    method UpdateIfChanged(prev: Value, next: Value) returns (r: Outcome<bool>)
      requires Linked()
      modifies this, config.storage, owner
      ensures Linked() && QueuesGrow() && config.storage.items == old(config.storage.items)
      ensures r == Ok(true) ==> lastState == next && timer == (if isPaused then old(timer) else Some(next))
      ensures r != Ok(true) ==> lastState == old(lastState) && timer == old(timer)
      ensures Detached(owner, prev) && Detached(owner, next) ==> r == ShouldUpdate(config, prev, next) && Silent()
      ensures prev == next ==> r == Ok(false) && Silent()
    {
      if prev == next {
        return Ok(false);
      }
      r := Compare(prev, next, Detached(owner, prev) && Detached(owner, next));
      if r == Ok(true) {
        Update(next);
      }
    }

    /**
     * The comparison updateIfChanged makes of two different states: the
     * listed keys' values with a whitelist, the key counts and then the
     * values of the keys of `next` without one.
     */
    method Compare(prev: Value, next: Value, ghost plain: bool) returns (r: Outcome<bool>)
      requires Linked() && (plain ==> Detached(owner, prev) && Detached(owner, next)) && prev != next
      modifies this, config.storage, owner
      ensures Reading()
      ensures plain ==> r == ShouldUpdate(config, prev, next) && Silent()
    {
      if config.whitelist.None? {
        r := CompareOwnKeys(prev, next, plain);
        OwnKeysDecision(config, prev, next);
      } else {
        r := KeysDiffer(Listed(config), prev, next, plain);
        ListedDecision(config, prev, next);
      }
    }

    /** Without a whitelist: `Object.keys` of both states, their lengths, then the values of the keys of `next`. */
    method CompareOwnKeys(prev: Value, next: Value, ghost plain: bool) returns (r: Outcome<bool>)
      requires Linked() && (plain ==> Detached(owner, prev) && Detached(owner, next))
      modifies this, config.storage, owner
      ensures Reading()
      ensures plain ==>
        Silent() &&
        r == (if Nullish(prev) || Nullish(next) then Thrown(NULL_TO_OBJECT)
              else if |NamesThrough(prev)| != |NamesThrough(next)| then Ok(true)
              else Ok(Differs(NamesThrough(next), prev, next)))
    {
      var prevKeys := ReadKeys(prev);
      var nextKeys := prevKeys;
      if prevKeys.Ok? {
        nextKeys := ReadKeys(next);
      }
      if nextKeys.Thrown? {
        r := Thrown(nextKeys.error);
      } else if |prevKeys.value| != |nextKeys.value| {
        r := Ok(true);
      } else {
        r := KeysDiffer(nextKeys.value, prev, next, plain);
      }
    }

    /** `dispatch(action)`: queued until a store is set, posted to the store afterwards. */
    method Dispatch(a: Action)
      modifies this
      ensures store.None? ==> pendingActions == old(pendingActions) + [a] && posted == old(posted)
      ensures store.Some? ==> posted == old(posted) + [(store.value.host, a)] && pendingActions == old(pendingActions)
      ensures owner == old(owner) && store == old(store) && lastState == old(lastState)
      ensures isPaused == old(isPaused) && timer == old(timer) && forwarded == old(forwarded)
    {
      if store.Some? {
        posted := posted + [(store.value.host, a)];
      } else {
        pendingActions := pendingActions + [a];
      }
    }

    /** `setStore(store)`: posts the queued actions in order, then empties the queue. */
    method SetStore(s: SharedStore)
      modifies this
      ensures store == Some(s) && pendingActions == []
      ensures posted == old(posted) + Posts(s.host, old(pendingActions))
      ensures owner == old(owner) && lastState == old(lastState) && isPaused == old(isPaused)
      ensures timer == old(timer) && forwarded == old(forwarded)
    {
      store := Some(s);
      var i := 0;
      while i < |pendingActions|
        invariant 0 <= i <= |pendingActions|
        invariant pendingActions == old(pendingActions) && store == Some(s)
        invariant posted == old(posted) + Posts(s.host, pendingActions[..i])
        invariant owner == old(owner) && lastState == old(lastState) && isPaused == old(isPaused)
        invariant timer == old(timer) && forwarded == old(forwarded)
      {
        assert pendingActions[..i + 1] == pendingActions[..i] + [pendingActions[i]];
        posted := posted + [(s.host, pendingActions[i])];
        i := i + 1;
      }
      assert pendingActions[..i] == pendingActions;
      pendingActions := [];
    }

    /** `rehydrate(state)`: dispatches the rehydrate action and tells the store's onRehydrate at once. */
    method Rehydrate(state: Value)
      modifies this
      ensures store.None? ==> pendingActions == old(pendingActions) + [Action.Rehydrate(config.key, state)] && posted == old(posted)
      ensures store.Some? ==> posted == old(posted) + [(store.value.host, Action.Rehydrate(config.key, state))] && pendingActions == old(pendingActions)
      ensures forwarded == old(forwarded) + (if store.Some? && store.value.forwardsRehydrate then [config.key] else [])
      ensures owner == old(owner) && store == old(store) && lastState == old(lastState)
      ensures isPaused == old(isPaused) && timer == old(timer)
    {
      Dispatch(Action.Rehydrate(config.key, state));
      if store.Some? && store.value.forwardsRehydrate {
        forwarded := forwarded + [config.key];
      }
    }

    /** One turn of the event loop for the oldest posted action: it reaches its store. */
    method Tick()
      modifies this, if posted != [] then {posted[0].0} else {}
      ensures old(posted) != [] ==>
        (posted == old(posted)[1..] && old(posted[0].0).dispatched == old(posted[0].0.dispatched) + [old(posted[0].1)])
      ensures old(posted) == [] ==> posted == []
      ensures owner == old(owner) && store == old(store) && lastState == old(lastState) && isPaused == old(isPaused)
      ensures timer == old(timer) && pendingActions == old(pendingActions) && forwarded == old(forwarded)
    {
      if posted != [] {
        var (host, a) := posted[0];
        posted := posted[1..];
        host.Dispatch(a);
      }
    }

    /** `pause()`: cancels the pending write and pauses. */
    method Pause()
      modifies this
      ensures isPaused && timer == None
      ensures owner == old(owner) && store == old(store) && lastState == old(lastState)
      ensures pendingActions == old(pendingActions) && posted == old(posted) && forwarded == old(forwarded)
    {
      timer := None;
      isPaused := true;
    }

    /** `purge()`: cancels the pending write and removes the stored snapshot; the last state is kept. */
    method Purge()
      modifies this, config.storage
      ensures timer == None && config.storage.items == old(config.storage.items) - {BuildKey(config)}
      ensures config.storage.log == old(config.storage.log) + [RemoveItem(BuildKey(config))]
      ensures owner == old(owner) && store == old(store) && lastState == old(lastState) && isPaused == old(isPaused)
      ensures pendingActions == old(pendingActions) && posted == old(posted) && forwarded == old(forwarded)
    {
      timer := None;
      config.storage.Remove(BuildKey(config));
    }

    /** Exactly `a` was dispatched: queued before a store is set, posted to it afterwards. */
    twostate predicate Sent(new a: Action)
      reads this
    {
      store == old(store) &&
      (store.None? ==> pendingActions == old(pendingActions) + [a] && posted == old(posted)) &&
      (store.Some? ==> posted == old(posted) + [(store.value.host, a)] && pendingActions == old(pendingActions))
    }

    /** The fields not concerned with writing are kept. */
    twostate predicate QueuesGrow()
      reads this
    {
      owner == old(owner) && store == old(store) && isPaused == old(isPaused)
      && old(pendingActions) <= pendingActions && old(posted) <= posted && old(forwarded) <= forwarded
    }

    /**
     * `setItem(state)`: unwraps each written field with valueOf (which may
     * restore the slice through the owner), writes the snapshot and clears
     * the last state.  Returns the unwrapped values that were encoded.
     */
    method SetItem(state: Value) returns (r: Outcome<map<string, Value>>)
      requires Linked()
      modifies this, config.storage, owner
      ensures Linked() && QueuesGrow() && timer == old(timer)
      ensures r.Ok? ==> r.value.Keys == WriteKeys(config, state) && lastState == Null
      ensures r.Ok? ==> config.storage.items == old(config.storage.items)[BuildKey(config) := Encode(config, state, r.value)]
      ensures r.Ok? ==> forall k | k in r.value && !Owned(Member(state, k)) :: r.value[k] == PlainValue(Member(state, k))
      ensures r.Ok? ==> Unwrapped(state, r.value, old(Cache()))
      ensures r.Thrown? ==> config.storage.items == old(config.storage.items) && lastState == old(lastState)
      ensures Nullish(state) && config.whitelist.None? ==> r == Thrown(NULL_TO_OBJECT)
    {
      if Nullish(state) {
        if config.whitelist.None? {
          return Thrown(NULL_TO_OBJECT);
        } else if config.whitelist.value != [] {
          return Thrown(NULL_PROPERTY);
        }
      }
      var unwrapped := UnwrapFields(state);
      if unwrapped.Thrown? {
        return Thrown(unwrapped.error);
      }
      var values := unwrapped.value;
      config.storage.Write(BuildKey(config), Encode(config, state, values));
      lastState := Null;
      r := Ok(values);
    }

    /** The state the owner has restored, if it has. */
    ghost function Cache(): Option<Value>
      reads this, owner
    {
      if owner == null then None else owner.reconciled
    }

    /**
     * `values` is what setItem encodes for `state`: one entry per written
     * key, each the unwrapped field (`before` is the owner's restored state
     * when the write began).
     */
    ghost predicate Unwrapped(state: Value, values: map<string, Value>, before: Option<Value>)
      reads this, owner
    {
      values.Keys == WriteKeys(config, state) &&
      forall k | k in values :: UnwrapsTo(owner, Cache(), before, Member(state, k), values[k])
    }

    /** setItem's `valueOf` of every written field, in any order; the first that throws stops the write. */
    method UnwrapFields(state: Value) returns (r: Outcome<map<string, Value>>)
      requires Linked()
      modifies this, config.storage, owner
      ensures Linked() && QueuesGrow() && timer == old(timer)
      ensures config.storage.items == old(config.storage.items) && lastState == old(lastState)
      ensures r.Ok? ==> Unwrapped(state, r.value, old(Cache()))
    {
      var keys := WriteKeys(config, state);
      var values: map<string, Value> := map[];
      var todo := keys;
      while todo != {}
        invariant todo <= keys && values.Keys == keys - todo
        invariant forall k | k in values :: UnwrapsTo(owner, Cache(), old(Cache()), Member(state, k), values[k])
        invariant old(Cache()).Some? ==> Cache() == old(Cache())
        invariant Linked() && QueuesGrow() && timer == old(timer)
        invariant config.storage.items == old(config.storage.items) && lastState == old(lastState)
        decreases todo
      {
        var key :| key in todo;
        ghost var cache := Cache();
        var v := ValueOf(Member(state, key));
        if v.Thrown? {
          return Thrown(v.error);
        }
        assert cache.Some? ==> Cache() == cache;
        values := values[key := v.value];
        todo := todo - {key};
      }
      r := Ok(values);
    }

    /** Whether a value is a lazy view of this persistoid's owner (which only the owner can resolve). */
    predicate Owned(v: Value)
      reads this
    {
      owner != null && owner.Owns(v)
    }

    /** `valueOf(v)`, resolving the owner's views through the owner. */
    method ValueOf(v: Value) returns (r: Outcome<Value>)
      requires Linked()
      modifies this, config.storage, owner
      ensures Linked() && QueuesGrow() && timer == old(timer)
      ensures config.storage.items == old(config.storage.items) && lastState == old(lastState)
      ensures !Owned(v) ==> r == Ok(PlainValue(v))
      ensures old(Cache()).Some? ==> Cache() == old(Cache())
      ensures r.Ok? ==> UnwrapsTo(owner, Cache(), old(Cache()), v, r.value)
    {
      if owner == null {
        return Ok(PlainValue(v));
      }
      r := owner.Force(v);
    }

    /**
     * The debounced write fires: the timer is spent and the captured state
     * written.  `values` are the unwrapped fields that were encoded.
     */
    method Fire() returns (r: Outcome<bool>, ghost values: map<string, Value>)
      requires Linked()
      modifies this, config.storage, owner
      ensures Linked() && QueuesGrow() && timer == None
      ensures old(timer).None? ==> r == Ok(false) && lastState == old(lastState) && config.storage.items == old(config.storage.items)
      ensures old(timer).Some? && r.Ok? ==>
        r.value && lastState == Null && Unwrapped(old(timer).value, values, old(Cache())) &&
        config.storage.items == old(config.storage.items)[BuildKey(config) := Encode(config, old(timer).value, values)]
      ensures old(timer).Some? && r == Ok(true) ==>
        (lastState == Null && BuildKey(config) in config.storage.items &&
         config.storage.items - {BuildKey(config)} == old(config.storage.items) - {BuildKey(config)})
      ensures r.Thrown? ==> lastState == old(lastState) && config.storage.items == old(config.storage.items)
    {
      values := map[];
      if timer.None? {
        return Ok(false), values;
      }
      var state := timer.value;
      timer := None;
      var w := SetItem(state);
      if w.Thrown? {
        return Thrown(w.error), values;
      }
      values := w.value;
      r := Ok(true);
    }

    /**
     * `flush()`: cancels the pending write and writes the last state now, if
     * it is truthy.  `values` are the unwrapped fields that were encoded.
     */
    method Flush() returns (r: Outcome<bool>, ghost values: map<string, Value>)
      requires Linked()
      modifies this, config.storage, owner
      ensures Linked() && QueuesGrow() && timer == None
      ensures !Truthy(old(lastState)) ==> r == Ok(false) && lastState == old(lastState) && config.storage.items == old(config.storage.items)
      ensures Truthy(old(lastState)) && r.Ok? ==>
        r.value && lastState == Null && Unwrapped(old(lastState), values, old(Cache())) &&
        config.storage.items == old(config.storage.items)[BuildKey(config) := Encode(config, old(lastState), values)]
      ensures r.Thrown? ==> lastState == old(lastState) && config.storage.items == old(config.storage.items)
    {
      values := map[];
      timer := None;
      if !Truthy(lastState) {
        return Ok(false), values;
      }
      var w := SetItem(lastState);
      if w.Thrown? {
        return Thrown(w.error), values;
      }
      values := w.value;
      r := Ok(true);
    }

    /**
     * `persist()`: cancels the pending write, resumes, and writes the last
     * state now, if it is truthy.  `values` are the unwrapped fields that
     * were encoded.
     */
    method Persist() returns (r: Outcome<bool>, ghost values: map<string, Value>)
      requires Linked()
      modifies this, config.storage, owner
      ensures Linked() && owner == old(owner) && store == old(store) && !isPaused && timer == None
      ensures old(pendingActions) <= pendingActions && old(posted) <= posted && old(forwarded) <= forwarded
      ensures !Truthy(old(lastState)) ==> r == Ok(false) && lastState == old(lastState) && config.storage.items == old(config.storage.items)
      ensures Truthy(old(lastState)) && r.Ok? ==>
        r.value && lastState == Null && Unwrapped(old(lastState), values, old(Cache())) &&
        config.storage.items == old(config.storage.items)[BuildKey(config) := Encode(config, old(lastState), values)]
      ensures r.Thrown? ==> lastState == old(lastState) && config.storage.items == old(config.storage.items)
    {
      values := map[];
      timer := None;
      isPaused := false;
      if !Truthy(lastState) {
        return Ok(false), values;
      }
      var w := SetItem(lastState);
      if w.Thrown? {
        return Thrown(w.error), values;
      }
      values := w.value;
      r := Ok(true);
    }
  }

  // ---------------------------------------------------------------------
  // The restore helper

  /**
   * `x` is `valueOf(v)` for a persistoid whose restore helper is `owner`,
   * holding the restored state `cache` (`before` is what it held when the
   * write began): a plain value as PlainValue gives it; a view of the owner
   * as its supplier gives it from the restored state.  A field supplier, or
   * any supplier of an owner restored before, reads the cache; a
   * whole-state supplier whose call restored may answer `restored ?? initial`.
   */
  ghost predicate UnwrapsTo(owner: Restorer?, cache: Option<Value>, before: Option<Value>, v: Value, x: Value)
  {
    if owner == null || !owner.Owns(v) then x == PlainValue(v)
    else
      cache.Some? &&
      (Ok(x) == Supplied(v.supplier, cache.value, false) || Ok(x) == Supplied(v.supplier, cache.value, true)) &&
      (v.supplier.Field? || before.Some? ==> Ok(x) == Supplied(v.supplier, cache.value, false))
  }

  /** `valueOf(v)` without calling a restore closure: a view over a fixed value gives that value. */
  function PlainValue(v: Value): Value
  {
    match Unwrap(v)
    case Plain(x) => x
    case ForceView(w) => if w.supplier.Fixed? then w.supplier.value else w
    case _ => v
  }

  /** The restored state: the stored snapshot, migrated if configured, reconciled with `state` as both original and reduced. */
  function Restoration(config: PersistConfig, text: Option<string>, state: Value): Outcome<Value>
  {
    match Decode(config, text)
    case Thrown(e) => Thrown(e)
    case Ok(stored) =>
      var migrated := if config.migrate.Some? then config.migrate.value(stored, config.Version()) else stored;
      Ok(Reconciled(config.Reconcile(), migrated, state, state))
  }

  /** `key && whitelist && !whitelist.includes(key)` */
  predicate OptsOut(config: PersistConfig, key: Option<Prop>)
  {
    key.Some? && PropTruthy(key.value) && config.whitelist.Some? &&
    !(key.value.Key? && Includes(config.whitelist.value, key.value.name))
  }

  /**
   * The state of a restore closure: `reconciledState` (None until
   * restored) and, for createHelpers (`keyed`), `isRestored`.  persistReducer's
   * copy (`!keyed`) ignores the key and dispatches rehydrate itself.
   */
  class Restorer
  {
    const config: PersistConfig
    const keyed: bool
    const persistoid: Persistoid
    var reconciled: Option<Value>
    var restored: bool

    /** `createHelpers(config)`, or persistReducer's closure state, with its own persistoid. */
    constructor (config: PersistConfig, keyed: bool)
      ensures this.config == config && this.keyed == keyed && Valid() && fresh(persistoid)
      ensures reconciled == None && !restored
      ensures persistoid.lastState == Null && !persistoid.isPaused && persistoid.timer == None && persistoid.store == None
      ensures persistoid.pendingActions == [] && persistoid.posted == [] && persistoid.forwarded == []
    {
      this.config := config;
      this.keyed := keyed;
      persistoid := new Persistoid(config);
      reconciled := None;
      restored := false;
      new;
      persistoid.owner := this;
    }

    ghost predicate Valid()
      reads this, persistoid
    {
      persistoid.owner == this && persistoid.config == config
    }

    /** `isRestored()` */
    function IsRestored(): bool
      reads this
    {
      restored
    }

    /** A lazy view whose supplier reads this closure. */
    predicate Owns(v: Value)
    {
      v.View? && !v.supplier.Fixed? && v.supplier.cell == this
    }

    /** The persistoid fields a restore does not touch; a restored state, once cached, stays. */
    twostate predicate Kept()
      reads this, persistoid, config.storage
    {
      Valid() && persistoid.owner == old(persistoid.owner) && persistoid.store == old(persistoid.store)
      && persistoid.lastState == old(persistoid.lastState) && persistoid.isPaused == old(persistoid.isPaused)
      && persistoid.timer == old(persistoid.timer)
      && old(persistoid.pendingActions) <= persistoid.pendingActions && old(persistoid.posted) <= persistoid.posted
      && old(persistoid.forwarded) <= persistoid.forwarded
      && config.storage.items == old(config.storage.items)
      && (old(reconciled).Some? ==> reconciled == old(reconciled))
    }

    /**
     * `restoreItem(state)(key)`: the cached state once restored; the given
     * state, untouched, for a key outside the whitelist (createHelpers
     * only); otherwise one storage read, the restoration, the rehydrate
     * notice, and `reconciled ?? state`.
     */
    method RestoreItem(state: Value, key: Option<Prop>) returns (r: Outcome<Value>)
      requires Valid()
      modifies this, persistoid, config.storage
      ensures Kept()
      ensures old(reconciled).Some? ==> r == Ok(old(reconciled).value) && Quiet()
      ensures old(reconciled).None? && keyed && OptsOut(config, key) ==> r == Ok(state) && Quiet()
      ensures old(reconciled).None? && !(keyed && OptsOut(config, key)) ==>
        config.storage.log == old(config.storage.log) + [ReadAccess(config)]
      ensures old(reconciled).None? && !(keyed && OptsOut(config, key)) ==>
        match Restoration(config, old(config.storage.Lookup(BuildKey(config))), state)
        case Thrown(e) => r == Thrown(e) && reconciled == None && restored == old(restored)
        case Ok(v) =>
          r == Ok(Coalesce(v, state)) && reconciled == Some(v) && restored == (keyed || old(restored)) &&
          persistoid.Sent(Rehydrate(config.key, v))
    {
      if reconciled.Some? {
        return Ok(reconciled.value);
      }
      if keyed && OptsOut(config, key) {
        return Ok(state);
      }
      r := Load(state);
    }

    /**
     * The restoring part of restoreItem: read the snapshot, migrate it if
     * configured, reconcile it with `state`, cache it and send the rehydrate
     * action (createHelpers through the persistoid's rehydrate, persistReducer
     * through its dispatch).
     */
    method Load(state: Value) returns (r: Outcome<Value>)
      requires Valid() && reconciled.None?
      modifies this, persistoid, config.storage
      ensures Kept()
      ensures config.storage.log == old(config.storage.log) + [ReadAccess(config)]
      ensures match Restoration(config, old(config.storage.Lookup(BuildKey(config))), state)
        case Thrown(e) => r == Thrown(e) && reconciled == old(reconciled) && restored == old(restored)
        case Ok(v) =>
          r == Ok(Coalesce(v, state)) && reconciled == Some(v) && restored == (keyed || old(restored)) &&
          persistoid.Sent(Action.Rehydrate(config.key, v))
    {
      ghost var text := config.storage.Lookup(BuildKey(config));
      var stored := GetStoredState(config);
      if stored.Thrown? {
        assert Restoration(config, text, state) == Thrown(stored.error);
        return Thrown(stored.error);
      }
      var migrated := if config.migrate.Some? then config.migrate.value(stored.value, config.Version()) else stored.value;
      var v := RunReconciler(config.Reconcile(), migrated, state, state);
      assert Restoration(config, text, state) == Ok(v);
      reconciled := Some(v);
      Announce(v);
      r := Ok(Coalesce(v, state));
    }

    /** Sends the rehydrate action for the restored state `v`; createHelpers also marks itself restored. */
    method Announce(v: Value)
      requires Valid()
      modifies this, persistoid
      ensures Valid() && reconciled == old(reconciled) && restored == (keyed || old(restored))
      ensures persistoid.Sent(Action.Rehydrate(config.key, v)) && old(persistoid.forwarded) <= persistoid.forwarded
      ensures persistoid.owner == old(persistoid.owner) && persistoid.lastState == old(persistoid.lastState)
      ensures persistoid.isPaused == old(persistoid.isPaused) && persistoid.timer == old(persistoid.timer)
    {
      if keyed {
        persistoid.Rehydrate(v);
        restored := true;
      } else {
        persistoid.Dispatch(Action.Rehydrate(config.key, v));
      }
    }

    /**
     * Calls a supplier of this closure: a fixed value as it is; a whole-state
     * supplier is restoreItem with the key; a field supplier reads the field
     * of the restored state (or of `initial` when restoring gives null),
     * falling back to the initial field.
     */
    method Supply(s: Supplier, key: Option<Prop>) returns (r: Outcome<Value>)
      requires Valid() && (s.Fixed? || s.cell == this)
      modifies this, persistoid, config.storage
      ensures Kept()
      ensures s.Fixed? ==> r == Ok(s.value) && Quiet()
      ensures s.Restore? && old(reconciled).Some? ==> r == Ok(old(reconciled).value) && Quiet()
      ensures s.Field? && old(reconciled).Some? ==> r == FieldOf(old(reconciled).value, s.initial, s.key) && Quiet()
      ensures !s.Fixed? && r.Ok? && !(s.Restore? && keyed && OptsOut(config, key)) ==> reconciled.Some?
      ensures s.Restore? && old(reconciled).None? && keyed && OptsOut(config, key) ==> r == Ok(s.initial) && Quiet()
      ensures !s.Fixed? && reconciled.Some? ==> r == Supplied(s, reconciled.value, old(reconciled).None?)
      ensures !s.Fixed? && old(reconciled).None? && reconciled.Some? ==>
        Restoration(config, old(config.storage.Lookup(BuildKey(config))), s.initial) == Ok(reconciled.value)
    {
      match s
      case Fixed(x) =>
        return Ok(x);
      case Restore(_, initial) =>
        r := RestoreItem(initial, key);
      case Field(_, initial, k) =>
        var t := RestoreItem(initial, None);
        if t.Thrown? {
          return Thrown(t.error);
        }
        r := FieldOf(t.value, initial, k);
    }

    /** `valueOf(v)`: this closure's views call their supplier with no key; anything else as PlainValue. */
    method Force(v: Value) returns (r: Outcome<Value>)
      requires Valid()
      modifies this, persistoid, config.storage
      ensures Kept()
      ensures !Owns(v) ==> r == Ok(PlainValue(v)) && Quiet()
      ensures Owns(v) && r.Ok? ==> reconciled.Some?
      ensures old(reconciled).Some? ==> Quiet()
      ensures Owns(v) && reconciled.Some? ==> r == Supplied(v.supplier, reconciled.value, old(reconciled).None?)
      ensures Owns(v) && old(reconciled).None? && reconciled.Some? ==>
        Restoration(config, old(config.storage.Lookup(BuildKey(config))), v.supplier.initial) == Ok(reconciled.value)
    {
      if !Owns(v) {
        return Ok(PlainValue(v));
      }
      r := Supply(v.supplier, None);
    }

    /** Nothing observable changed: no storage access, no restore, no action sent. */
    twostate predicate Quiet()
      reads this, persistoid, config.storage
    {
      reconciled == old(reconciled) && restored == old(restored)
      && config.storage.log == old(config.storage.log)
      && persistoid.pendingActions == old(persistoid.pendingActions) && persistoid.posted == old(persistoid.posted)
      && persistoid.forwarded == old(persistoid.forwarded)
    }

    /** A view this closure can answer for: one of its own, or one over a fixed value. */
    predicate Answers(v: Value)
    {
      v.View? && (v.supplier.Fixed? || Owns(v))
    }

    /**
     * `v[k]` as a reducer reads it: a view of this closure (or over a fixed
     * value) through its get trap, which calls the supplier with the key;
     * any other value through Member, throwing on null and undefined.
     */
    method Get(v: Value, k: string) returns (r: Outcome<Value>)
      requires Valid()
      modifies this, persistoid, config.storage
      ensures Kept()
      ensures !Answers(v) ==> r == (if Nullish(v) then Thrown(NULL_PROPERTY) else Ok(Member(v, k))) && Quiet()
      ensures v.View? && v.supplier.Fixed? && GetTrap(Key(k), v.supplier.value).Plain? ==>
        r == Ok(GetTrap(Key(k), v.supplier.value).value) && Quiet()
      ensures Owns(v) && v.supplier.Restore? && old(reconciled).Some? && GetTrap(Key(k), old(reconciled).value).Plain? ==>
        r == Ok(GetTrap(Key(k), old(reconciled).value).value) && Quiet()
      ensures Answers(v) && !CallsSupplier(Key(k)) ==> r == Ok(Undef) && Quiet()
      ensures v.View? && v.supplier.Fixed? &&
              !(GetTrap(Key(k), v.supplier.value).ForceView? && Owns(GetTrap(Key(k), v.supplier.value).view)) ==>
        r == Ok(ReadThrough(v, k)) && Quiet()
      ensures old(reconciled).Some? ==> Quiet()
      ensures Owns(v) && CallsSupplier(Key(k)) && r.Ok? && !(v.supplier.Restore? && keyed && OptsOut(config, Some(Key(k)))) ==>
        reconciled.Some?
      ensures Owns(v) && v.supplier.Restore? && old(reconciled).None? && keyed && OptsOut(config, Some(Key(k))) &&
              GetTrap(Key(k), v.supplier.initial).Plain? ==>
        r == Ok(GetTrap(Key(k), v.supplier.initial).value) && Quiet()
      ensures Owns(v) && reconciled.Some? && CallsSupplier(Key(k)) &&
              !(v.supplier.Restore? && old(reconciled).None? && keyed && OptsOut(config, Some(Key(k)))) ==>
        match Supplied(v.supplier, reconciled.value, old(reconciled).None?)
        case Thrown(e) => r == Thrown(e)
        case Ok(x) =>
          (GetTrap(Key(k), x).Plain? ==> r == Ok(GetTrap(Key(k), x).value)) &&
          (GetTrap(Key(k), x).ForceView? && Owns(GetTrap(Key(k), x).view) ==>
             r == Supplied(GetTrap(Key(k), x).view.supplier, reconciled.value, false))
    {
      if !Answers(v) {
        if Nullish(v) {
          return Thrown(NULL_PROPERTY);
        }
        return Ok(Member(v, k));
      }
      if !CallsSupplier(Key(k)) {
        // toJSON and valueOf answer a function without calling the supplier
        return Ok(Undef);
      }
      var got := Supply(v.supplier, Some(Key(k)));
      if got.Thrown? {
        return got;
      }
      match GetTrap(Key(k), got.value)
      case Plain(x) =>
        r := Ok(x);
      case ForceView(w) =>
        r := Force(w);
      case _ =>
        // a function-valued property (toJSON, valueOf) or a view the supplier returned
        r := Ok(Undef);
    }

    /**
     * `Object.keys(v)`: through the ownKeys trap for a view this closure
     * answers for; throws for null and undefined.
     */
    method Keys(v: Value) returns (r: Outcome<set<string>>)
      requires Valid()
      modifies this, persistoid, config.storage
      ensures Kept()
      ensures !Answers(v) ==> r == (if Nullish(v) then Thrown(NULL_TO_OBJECT) else Ok(OwnKeys(v))) && Quiet()
      ensures v.View? && v.supplier.Fixed? ==> r == Ok(KeySetThrough(v.supplier.value)) && Quiet()
      ensures old(reconciled).Some? ==> Quiet()
      ensures Owns(v) && r.Ok? ==> reconciled.Some?
      ensures Owns(v) && reconciled.Some? ==>
        match Supplied(v.supplier, reconciled.value, old(reconciled).None?)
        case Thrown(e) => r == Thrown(e)
        case Ok(x) => r == Ok(KeySetThrough(x))
    {
      if !Answers(v) {
        if Nullish(v) {
          return Thrown(NULL_TO_OBJECT);
        }
        return Ok(OwnKeys(v));
      }
      var got := Supply(v.supplier, None);
      if got.Thrown? {
        return Thrown(got.error);
      }
      r := Ok(KeySetThrough(got.value));
    }

    /** `Object.keys(v).length`: the size of what Keys lists. */
    method KeyCount(v: Value) returns (r: Outcome<nat>)
      requires Valid()
      modifies this, persistoid, config.storage
      ensures Kept()
      ensures !Answers(v) ==> r == (if Nullish(v) then Thrown(NULL_TO_OBJECT) else Ok(|OwnKeys(v)|)) && Quiet()
      ensures v.View? && v.supplier.Fixed? ==> r == Ok(KeysThrough(v.supplier.value)) && Quiet()
      ensures old(reconciled).Some? ==> Quiet()
      ensures Owns(v) && r.Ok? ==> reconciled.Some?
      ensures Owns(v) && reconciled.Some? ==>
        match Supplied(v.supplier, reconciled.value, old(reconciled).None?)
        case Thrown(e) => r == Thrown(e)
        case Ok(x) => r == Ok(KeysThrough(x))
    {
      var keys := Keys(v);
      if keys.Thrown? {
        return Thrown(keys.error);
      }
      r := Ok(|keys.value|);
    }
  }

  /** The read a field supplier makes of the restored state `restored`. */
  function FieldOf(restored: Value, initial: Value, k: string): Outcome<Value>
  {
    var target := Coalesce(restored, initial);
    if Nullish(target) then Thrown(NULL_PROPERTY)
    else Ok(Coalesce(Member(target, k), Member(initial, k)))
  }

  /**
   * What a supplier of a restore closure gives once the closure holds the
   * restored state `restored`.  `first` says whether this very call
   * restored: restoreItem then answers `restored ?? initial`, and the cached
   * state on every later call.
   */
  function Supplied(s: Supplier, restored: Value, first: bool): Outcome<Value>
  {
    match s
    case Fixed(x) => Ok(x)
    case Restore(_, initial) => Ok(if first then Coalesce(restored, initial) else restored)
    case Field(_, initial, k) => FieldOf(restored, initial, k)
  }

  /** The storage read getStoredState makes. */
  function ReadAccess(config: PersistConfig): Access
  {
    if config.storage.hasSync then GetItemSync(BuildKey(config)) else GetItem(BuildKey(config))
  }
}
