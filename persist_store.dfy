/**
 * persistStore: the persistor.  It registers with the store by dispatching
 * one register action, collects the persistoids whose wrappers answer that
 * action, and passes each lifecycle call on to all of them in registration
 * order before dispatching the matching marker action.
 */
module PersistStore {
  import opened Js
  import opened Host
  import opened Config
  import opened StorageKey
  import opened Slice
  import opened Snapshot
  import opened FanOutState

  /** `register.match(action)` for an action carrying a persistor. */
  predicate Registers(a: Action)
  {
    a.Register? && a.registry is Persistor
  }

  class Persistor
  {
    const host: Store
    /** Whether `options.onRehydrate` is provided, so the persistoids' onRehydrate forwards to it. */
    const forwardsRehydrate: bool
    /** How often the bootstrap callback has been called. */
    var bootstrapCalls: nat
    var persistoids: seq<Persistoid>

    /**
     * `persistStore(store, options, callback)`: calls the callback once, if
     * there is one, before anything is registered, then dispatches exactly
     * one register action carrying this persistor.
     */
    constructor (host: Store, forwardsRehydrate: bool, hasCallback: bool)
      modifies host
      ensures this.host == host && this.forwardsRehydrate == forwardsRehydrate
      ensures bootstrapCalls == (if hasCallback then 1 else 0) && persistoids == []
      ensures host.dispatched == old(host.dispatched) + [Action.Register(this)]
    {
      this.host := host;
      this.forwardsRehydrate := forwardsRehydrate;
      bootstrapCalls := if hasCallback then 1 else 0;
      persistoids := [];
      new;
      host.Dispatch(Action.Register(this));
    }

    /** What every registered persistoid is handed. */
    function Shared(): SharedStore
    {
      SharedStore(host, forwardsRehydrate)
    }

    /** The register callback: sets the persistoid's store first, then appends it. */
    method Register(p: Persistoid)
      modifies this, p
      ensures persistoids == old(persistoids) + [p] && bootstrapCalls == old(bootstrapCalls)
      ensures p.store == Some(Shared()) && p.pendingActions == []
      ensures p.posted == old(p.posted) + Posts(host, old(p.pendingActions))
      ensures p.owner == old(p.owner) && p.lastState == old(p.lastState) && p.isPaused == old(p.isPaused)
      ensures p.timer == old(p.timer) && p.forwarded == old(p.forwarded)
    {
      p.SetStore(Shared());
      persistoids := persistoids + [p];
    }

    /** Every registered persistoid is linked to its restore helper. */
    ghost predicate AllLinked()
      reads this, persistoids
    {
      forall i | 0 <= i < |persistoids| :: persistoids[i].Linked()
    }

    /** `pause()`: pauses every persistoid, then dispatches the pause marker. */
    method Pause()
      modifies host, set p | p in persistoids
      ensures persistoids == old(persistoids)
      ensures forall p | p in persistoids :: p.isPaused && p.timer == None
      ensures forall p | p in persistoids ::
        p.lastState == old(p.lastState) && p.store == old(p.store) && p.owner == old(p.owner)
      ensures host.dispatched == old(host.dispatched) + [Action.Pause]
    {
      var i := 0;
      while i < |persistoids|
        invariant 0 <= i <= |persistoids|
        invariant forall j | 0 <= j < i :: persistoids[j].isPaused && persistoids[j].timer == None
        invariant forall p | p in persistoids ::
          p.lastState == old(p.lastState) && p.store == old(p.store) && p.owner == old(p.owner)
        invariant host.dispatched == old(host.dispatched)
      {
        persistoids[i].Pause();
        i := i + 1;
      }
      host.Dispatch(Action.Pause);
    }

    /**
     * `purge()`: purges every persistoid, then dispatches the purge marker.
     * Each storage loses exactly the keys of the persistoids writing to it.
     */
    method Purge()
      modifies host, set p | p in persistoids, set p | p in persistoids :: p.config.storage
      ensures persistoids == old(persistoids)
      ensures forall p | p in persistoids :: p.timer == None && BuildKey(p.config) !in p.config.storage.items
      ensures forall p | p in persistoids ::
        p.config.storage.items == old(p.config.storage.items) - KeysIn(persistoids, p.config.storage)
      ensures forall p | p in persistoids ::
        p.lastState == old(p.lastState) && p.isPaused == old(p.isPaused) && p.owner == old(p.owner)
      ensures host.dispatched == old(host.dispatched) + [Action.Purge]
    {
      var i := 0;
      while i < |persistoids|
        invariant 0 <= i <= |persistoids|
        invariant forall j | 0 <= j < i :: persistoids[j].timer == None
        invariant forall p | p in persistoids ::
          p.config.storage.items == old(p.config.storage.items) - KeysIn(persistoids[..i], p.config.storage)
        invariant forall p | p in persistoids ::
          p.lastState == old(p.lastState) && p.isPaused == old(p.isPaused) && p.owner == old(p.owner)
        invariant host.dispatched == old(host.dispatched)
      {
        var p := persistoids[i];
        p.Purge();
        assert persistoids[..i + 1] == persistoids[..i] + [p];
        forall q | q in persistoids
          ensures q.config.storage.items == old(q.config.storage.items) - KeysIn(persistoids[..i + 1], q.config.storage)
        {
          KeysInSnoc(persistoids[..i], p, q.config.storage);
        }
        i := i + 1;
      }
      assert persistoids[..i] == persistoids;
      host.Dispatch(Action.Purge);
    }

    /** The restore helpers of the registered persistoids. */
    ghost function Owners(): set<Restorer?>
      reads this, persistoids
    {
      set p | p in persistoids :: p.owner
    }

    /** The text a persistoid's key holds in its storage. */
    ghost function Stored(p: Persistoid): Option<string>
      reads p.config.storage
    {
      Entry(p.config.storage.items, BuildKey(p.config))
    }

    /**
     * What a fan-out left under the persistoid's key: the encoding of its
     * last state (when that was truthy) with the fields it unwrapped,
     * `values`; otherwise the text that was there before.
     */
    twostate predicate Wrote(p: Persistoid, new values: map<string, Value>)
      reads p, p.config.storage
    {
      if Truthy(old(p.lastState)) then Stored(p) == Some(Encode(p.config, old(p.lastState), values))
      else Stored(p) == old(Stored(p))
    }

    /**
     * `flush()`: flushes every persistoid in registration order, then
     * dispatches the flush marker.  A write that throws stops the fan-out
     * and the marker is not dispatched.  `written` holds what each
     * persistoid unwrapped and encoded.
     */
    method Flush() returns (r: Outcome<()>, ghost written: seq<map<string, Value>>)
      requires AllLinked()
      modifies host, set p | p in persistoids, set p | p in persistoids :: p.config.storage, Owners()
      ensures persistoids == old(persistoids) && AllLinked()
      ensures r.Ok? ==> forall p | p in persistoids :: p.timer == None && !Truthy(p.lastState)
      ensures forall p | p in persistoids :: p.isPaused == old(p.isPaused) && p.owner == old(p.owner)
      ensures host.dispatched == old(host.dispatched) + (if r.Ok? then [Action.Flush] else [])
      ensures r.Ok? ==> |written| == |persistoids|
      ensures r.Ok? ==> forall i | 0 <= i < |persistoids| && Sole(persistoids, i) :: Wrote(persistoids[i], written[i])
      ensures forall j | 0 <= j < |persistoids| ::
        persistoids[j].config.storage.items - KeysIn(persistoids, persistoids[j].config.storage) ==
        old(persistoids[j].config.storage.items) - KeysIn(persistoids, persistoids[j].config.storage)
    {
      ghost var start := Begin(persistoids);
      r, written := FanOut(false);
      KeysOutside(persistoids, |written|, written, start, Contents(persistoids));
      if r.Ok? {
        Finished(persistoids, written, start, Contents(persistoids));
      }
      if r.Ok? {
        host.Dispatch(Action.Flush);
      }
    }

    /**
     * `persist()`: resumes every persistoid and writes its last state, in
     * registration order, then dispatches the persist marker.  A write that
     * throws stops the fan-out and the marker is not dispatched.  `written`
     * holds what each persistoid unwrapped and encoded.
     */
    method Persist() returns (r: Outcome<()>, ghost written: seq<map<string, Value>>)
      requires AllLinked()
      modifies host, set p | p in persistoids, set p | p in persistoids :: p.config.storage, Owners()
      ensures persistoids == old(persistoids) && AllLinked()
      ensures r.Ok? ==> forall p | p in persistoids :: !p.isPaused && p.timer == None && !Truthy(p.lastState)
      ensures forall p | p in persistoids :: p.owner == old(p.owner)
      ensures host.dispatched == old(host.dispatched) + (if r.Ok? then [Action.Persist] else [])
      ensures r.Ok? ==> |written| == |persistoids|
      ensures r.Ok? ==> forall i | 0 <= i < |persistoids| && Sole(persistoids, i) :: Wrote(persistoids[i], written[i])
      ensures forall j | 0 <= j < |persistoids| ::
        persistoids[j].config.storage.items - KeysIn(persistoids, persistoids[j].config.storage) ==
        old(persistoids[j].config.storage.items) - KeysIn(persistoids, persistoids[j].config.storage)
    {
      ghost var start := Begin(persistoids);
      r, written := FanOut(true);
      KeysOutside(persistoids, |written|, written, start, Contents(persistoids));
      if r.Ok? {
        Finished(persistoids, written, start, Contents(persistoids));
      }
      if r.Ok? {
        host.Dispatch(Action.Persist);
      }
    }

    /**
     * The fan-out of flush (and, when `resume`, of persist): each
     * persistoid in registration order until one throws.
     */
    method FanOut(resume: bool) returns (r: Outcome<()>, ghost written: seq<map<string, Value>>)
      requires AllLinked()
      modifies set p | p in persistoids, set p | p in persistoids :: p.config.storage, Owners()
      ensures Reached(persistoids, Rows(persistoids), written, old(Begin(persistoids)), resume, Contents(persistoids)) == Some(|written|)
      ensures r.Ok? ==> |written| == |persistoids|
    {
      written := [];
      ghost var start := Begin(persistoids);
      var i := 0;
      while i < |persistoids|
        invariant i <= |persistoids|
        invariant Reached(persistoids, Rows(persistoids), written, start, resume, Contents(persistoids)) == Some(i)
      {
        var done, values := Step(i, resume, written, start);
        if done.Thrown? {
          return Thrown(done.error), written;
        }
        written := written + [values];
        i := i + 1;
      }
      r := Ok(());
    }

    /**
     * One persistoid of a fan-out: `flush()`, or `persist()` when `resume`.
     * Only that persistoid's key of its storage can change; what it holds
     * afterwards is stated for a persistoid that is the only one writing it.
     */
    method WriteOne(i: int, resume: bool) returns (done: Outcome<bool>, ghost values: map<string, Value>)
      requires 0 <= i < |persistoids| && persistoids[i].Linked()
      modifies persistoids[i], persistoids[i].config.storage, persistoids[i].owner
      ensures persistoids[i].Linked()
      ensures persistoids[i].timer == None && persistoids[i].owner == old(persistoids[i].owner)
      ensures if resume then !persistoids[i].isPaused else persistoids[i].isPaused == old(persistoids[i].isPaused)
      ensures if done.Ok? then !Truthy(persistoids[i].lastState) else persistoids[i].lastState == old(persistoids[i].lastState)
      ensures forall j | 0 <= j < |persistoids| && persistoids[j] != persistoids[i] :: RowOf(persistoids[j]) == old(RowOf(persistoids[j]))
      ensures Stepped(persistoids, i, old(Contents(persistoids)), Contents(persistoids))
      ensures done.Thrown? ==> Contents(persistoids) == old(Contents(persistoids))
      ensures Sole(persistoids, i) ==>
        Stored(persistoids[i]) ==
          if Truthy(old(persistoids[i].lastState)) && done.Ok? then Some(Encode(persistoids[i].config, old(persistoids[i].lastState), values))
          else old(Stored(persistoids[i]))
    {
      var p := persistoids[i];
      if resume {
        done, values := p.Persist();
      } else {
        done, values := p.Flush();
      }
    }

    /** WriteOne, carrying the fan-out from the first `i` persistoids to the first `i + 1`, or leaving it where it was. */
    method Step(i: int, resume: bool, ghost written: seq<map<string, Value>>, ghost start: Start)
      returns (done: Outcome<bool>, ghost values: map<string, Value>)
      requires i < |persistoids|
      requires Reached(persistoids, Rows(persistoids), written, start, resume, Contents(persistoids)) == Some(i)
      modifies persistoids[i], persistoids[i].config.storage, persistoids[i].owner
      ensures done.Ok? ==> Reached(persistoids, Rows(persistoids), written + [values], start, resume, Contents(persistoids)) == Some(i + 1)
      ensures done.Thrown? ==> Reached(persistoids, Rows(persistoids), written, start, resume, Contents(persistoids)) == Some(i)
    {
      ghost var pre := Contents(persistoids);
      ghost var rows0 := Rows(persistoids);
      done, values := WriteOne(i, resume);
      Advance(persistoids, i, start, resume, done.Ok?, written, values, rows0, Rows(persistoids), pre, Contents(persistoids));
    }
  }
}
