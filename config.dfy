/**
 * The persistence configuration and the library's constants.
 */
module Config {
  import opened Js
  import opened Host

  const DEFAULT_VERSION: int := -1
  const DEFAULT_DELAY: nat := 100
  const PERSIST_KEY: string := "_persist"
  const KEY_PREFIX: string := "persist:"

  /** A transform: `in` runs before a field is serialized, `out` after it is deserialized. */
  datatype Transform = Transform(inbound: (Value, string, Value) -> Value, outbound: (Value, string, Value) -> Value)

  /** `config.serialize ?? JSON.stringify` and `config.deserialize ?? JSON.parse`. */
  datatype Codec = Codec(serialize: Value -> string, deserialize: Value -> Value)

  /** The state reconcilers: the two shipped ones, or one supplied by the application. */
  datatype Reconciler =
    | MergeLevel1
    | MergeLevel2
    | CustomReconciler(reconcile: (Value, Value, Value) -> Value)

  /** A migration runner, such as the one createMigrate builds: `(state, currentVersion) => state`. */
  type Migrator = (Value, int) -> Value

  /**
   * PersistConfig.  Optional fields are Options; `dev` says whether
   * `process.env.NODE_ENV === 'development'`.
   */
  datatype PersistConfig = PersistConfig(
    key: string,
    storage: Storage,
    version: Option<int>,
    delay: Option<nat>,
    whitelist: Option<seq<string>>,
    blacklist: Option<seq<string>>,
    stateReconciler: Option<Reconciler>,
    migrate: Option<Migrator>,
    codec: Codec,
    transforms: seq<Transform>,
    combined: bool,
    lazy: bool,
    dev: bool)
  {
    /** `config.version ?? DEFAULT_VERSION` */
    function Version(): int
    {
      version.GetOr(DEFAULT_VERSION)
    }

    /** `delay = DEFAULT_DELAY` */
    function Delay(): nat
    {
      delay.GetOr(DEFAULT_DELAY)
    }

    /** `stateReconciler = autoMergeLevel1` */
    function Reconcile(): Reconciler
    {
      stateReconciler.GetOr(MergeLevel1)
    }

    /** `{ stateReconciler: fallback, ...config }` */
    function WithDefaultReconciler(fallback: Reconciler): (c: PersistConfig)
      ensures c.Reconcile() == (if stateReconciler.Some? then stateReconciler.value else fallback)
      ensures c.key == key && c.storage == storage && c.whitelist == whitelist && c.version == version
    {
      if stateReconciler.Some? then this else this.(stateReconciler := Some(fallback))
    }
  }
}
