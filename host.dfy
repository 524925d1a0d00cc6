/**
 * What the persistence engine talks to but does not own: the key-value
 * storage, the Redux store it dispatches into, and the actions that pass
 * between them.
 */
module Host {
  import opened Js

  /** The actions of the `persistV2/` family, plus any action of the host application. */
  datatype Action =
      /** `persistV2/REGISTER`; its payload callback belongs to the given persistor */
    | Register(registry: object)
      /** `persistV2/REHYDRATE` with the slice key and the reconciled state */
    | Rehydrate(key: string, payload: Value)
    | Flush
    | Pause
    | Persist
    | Purge
      /** `persistV2/__GET_EMPTY_STATE`, which no reducer is expected to match */
    | GetEmptyState
      /** an action of the host application */
    | App(name: string, payload: Value)

  /** One call made on the storage, in the order made. */
  datatype Access = GetItem(key: string) | GetItemSync(key: string) | SetItem(key: string, text: string) | RemoveItem(key: string)

  /** The text a storage's items hold under a key; None stands for both `null` and `undefined`. */
  function Entry(items: map<string, string>, key: string): Option<string>
  {
    if key in items then Some(items[key]) else None
  }

  /**
   * A synchronous key-value storage.  `hasSync` says whether it also offers
   * `getItemSync` (a "compatible" storage whose `getItem` is asynchronous).
   */
  class Storage
  {
    var items: map<string, string>
    var log: seq<Access>
    const hasSync: bool

    constructor (items: map<string, string>, hasSync: bool)
      ensures this.items == items && log == [] && this.hasSync == hasSync
    {
      this.items := items;
      this.log := [];
      this.hasSync := hasSync;
    }

    /** The text under a key; None stands for both `null` and `undefined`. */
    function Lookup(key: string): Option<string>
      reads this
    {
      Entry(items, key)
    }

    method Read(key: string) returns (text: Option<string>)
      modifies this
      ensures text == old(Lookup(key)) && items == old(items)
      ensures log == old(log) + [if hasSync then GetItemSync(key) else GetItem(key)]
    {
      text := Lookup(key);
      log := log + [if hasSync then GetItemSync(key) else GetItem(key)];
    }

    method Write(key: string, text: string)
      modifies this
      ensures items == old(items)[key := text] && log == old(log) + [SetItem(key, text)]
    {
      items := items[key := text];
      log := log + [SetItem(key, text)];
    }

    method Remove(key: string)
      modifies this
      ensures items == old(items) - {key} && log == old(log) + [RemoveItem(key)]
    {
      items := items - {key};
      log := log + [RemoveItem(key)];
    }
  }

  /** The host Redux store, seen only through the actions dispatched to it. */
  class Store
  {
    var dispatched: seq<Action>

    constructor ()
      ensures dispatched == []
    {
      dispatched := [];
    }

    method Dispatch(a: Action)
      modifies this
      ensures dispatched == old(dispatched) + [a]
    {
      dispatched := dispatched + [a];
    }
  }

  /**
   * What persistStore hands to each persistoid: the store's `dispatch` and an
   * `onRehydrate` callback that forwards to `options.onRehydrate` when the
   * options provide one.
   */
  datatype SharedStore = SharedStore(host: Store, forwardsRehydrate: bool)

  /**
   * What a reducer does with an action: return its state as it is, or
   * compute a new state from the state's value (forcing a lazy state).
   */
  datatype Step = Keep | Compute(next: Value -> Value)

  /**
   * The host application's reducers: a leaf with the state it starts from
   * when called with undefined, or `combineReducers` of named children.
   */
  datatype Reducer =
    | Leaf(initial: Value, step: Action -> Step)
    | Combined(children: map<string, Reducer>)
}
