/**
 * The stored snapshot of a persisted slice, both ways: what the persistoid's
 * setItem writes and what getStoredState reads back.  Both levels go through
 * the configured codec: every field is serialized on its own, then the map
 * of field texts as a whole.
 */
module Snapshot {
  import opened Js
  import opened Config

  // ---------------------------------------------------------------------
  // Transforms

  /** `transforms.reduce((sub, t) => t.in(sub, key, state), x)`: first transform first. */
  function ApplyIn(ts: seq<Transform>, x: Value, key: string, state: Value): Value
  {
    if ts == [] then x else ApplyIn(ts[1..], ts[0].inbound(x, key, state), key, state)
  }

  /** `transforms.reduceRight((sub, t) => t.out(sub, key, raw), x)`: last transform first. */
  function ApplyOut(ts: seq<Transform>, x: Value, key: string, raw: Value): Value
  {
    if ts == [] then x else ts[0].outbound(ApplyOut(ts[1..], x, key, raw), key, raw)
  }

  /** Each transform's `out` undoes its `in` on the values this field passes through. */
  predicate Undoes(ts: seq<Transform>, x: Value, key: string, state: Value, raw: Value)
  {
    ts == [] ||
    (ts[0].outbound(ts[0].inbound(x, key, state), key, raw) == x
     && Undoes(ts[1..], ts[0].inbound(x, key, state), key, state, raw))
  }

  /** Running the outbound transforms right to left undoes the inbound ones run left to right. */
  lemma {:induction false} TransformsRoundTrip(ts: seq<Transform>, x: Value, key: string, state: Value, raw: Value)
    requires Undoes(ts, x, key, state, raw)
    ensures ApplyOut(ts, ApplyIn(ts, x, key, state), key, raw) == x
    decreases |ts|
  {
    if ts != [] {
      var y := ts[0].inbound(x, key, state);
      TransformsRoundTrip(ts[1..], y, key, state, raw);
    }
  }

  // ---------------------------------------------------------------------
  // Writing (setItem in createPersistoid)

  /** `{ version, rehydrated }` */
  function PersistRecord(version: int, rehydrated: bool): Value
  {
    Obj(map["version" := Num(version), "rehydrated" := Bool(rehydrated)])
  }

  /** The keys setItem visits: the whitelist if there is one, else the own keys not blacklisted. */
  function WriteKeys(config: PersistConfig, state: Value): set<string>
  {
    if config.whitelist.Some? then set k | k in config.whitelist.value
    else set k | k in OwnKeys(state) && !(config.blacklist.Some? && Includes(config.blacklist.value, k))
  }

  /** The end state of one field: its unwrapped value through the inbound transforms. */
  function EndState(config: PersistConfig, state: Value, values: map<string, Value>, k: string): Value
    requires k in values
  {
    ApplyIn(config.transforms, values[k], k, state)
  }

  /** The fields that are written: those whose end state is not undefined. */
  function Written(config: PersistConfig, state: Value, values: map<string, Value>): map<string, Value>
  {
    map k | k in values && EndState(config, state, values, k) != Undef :: EndState(config, state, values, k)
  }

  /** `serializedState`: each written field serialized on its own, and `_persist` as `{version, rehydrated: false}`. */
  function SerializedFields(config: PersistConfig, state: Value, values: map<string, Value>): map<string, Value>
  {
    var w := Written(config, state, values);
    (map k | k in w :: Str(config.codec.serialize(w[k])))
      [PERSIST_KEY := Str(config.codec.serialize(PersistRecord(config.Version(), false)))]
  }

  /**
   * The text setItem stores, given the unwrapped value `values[k]` of each
   * visited key k (`valueOf(state[key])`).
   */
  function Encode(config: PersistConfig, state: Value, values: map<string, Value>): string
  {
    config.codec.serialize(Obj(SerializedFields(config, state, values)))
  }

  // ---------------------------------------------------------------------
  // Reading (getStoredState)

  /** One top-level field deserialized on its own and passed through the outbound transforms. */
  function DecodeField(config: PersistConfig, raw: Value, k: string): Value
  {
    ApplyOut(config.transforms, config.codec.deserialize(Member(raw, k)), k, raw)
  }

  /** Every own key of the parsed snapshot, decoded. */
  function DecodeFields(config: PersistConfig, raw: Value): map<string, Value>
  {
    map k | k in OwnKeys(raw) :: DecodeField(config, raw, k)
  }

  /** `persisted.rehydrated = true` in strict mode. */
  function MarkRehydrated(config: PersistConfig, persisted: Value): Outcome<Value>
  {
    match persisted
    case Obj(f) => Ok(Obj(f["rehydrated" := Bool(true)]))
    case View(_, _) =>
      if config.dev then Thrown("set is not supported") else Thrown("TypeError: 'set' on proxy: trap returned falsish")
    case Arr(_) => Ok(persisted)
    case Boxed(_) => Ok(persisted)
    case _ => Thrown("TypeError: Cannot create property 'rehydrated'")
  }

  /** getStoredState's result for the text read from storage. */
  function Decode(config: PersistConfig, text: Option<string>): Outcome<Value>
  {
    if text.None? || text.value == "" then Ok(Null)
    else
      var raw := config.codec.deserialize(Str(text.value));
      if Nullish(raw) then Thrown("TypeError: Cannot convert undefined or null to object")
      else
        var fields := DecodeFields(config, raw);
        var found := if PERSIST_KEY in fields then fields[PERSIST_KEY] else Undef;
        match MarkRehydrated(config, Coalesce(found, PersistRecord(DEFAULT_VERSION, true)))
        case Ok(p) => Ok(Obj(fields[PERSIST_KEY := p]))
        case Thrown(e) => Thrown(e)
  }

  /** Nothing stored, or an empty text: null. */
  lemma NothingStoredIsNull(config: PersistConfig, text: Option<string>)
    requires text.None? || text == Some("")
    ensures Decode(config, text) == Ok(Null)
  {
  }

  /** A snapshot without `_persist` reads back with `{version: -1, rehydrated: true}`. */
  lemma MissingPersistDefaults(config: PersistConfig, text: string)
    requires text != ""
    requires var raw := config.codec.deserialize(Str(text)); !Nullish(raw) && PERSIST_KEY !in OwnKeys(raw)
    ensures Decode(config, Some(text)).Ok?
    ensures Decode(config, Some(text)).value.Obj?
    ensures var fields := Decode(config, Some(text)).value.fields;
      PERSIST_KEY in fields && fields[PERSIST_KEY] == PersistRecord(-1, true)
  {
    var raw := config.codec.deserialize(Str(text));
    assert PERSIST_KEY !in DecodeFields(config, raw);
    assert PersistRecord(-1, true).fields["rehydrated" := Bool(true)] == PersistRecord(-1, true).fields;
  }

  /** A stored `_persist` object keeps its fields, version included, and reads back rehydrated. */
  lemma StoredPersistMarkedRehydrated(config: PersistConfig, text: string, p: map<string, Value>)
    requires text != ""
    requires var raw := config.codec.deserialize(Str(text));
      !Nullish(raw) && PERSIST_KEY in DecodeFields(config, raw) && DecodeFields(config, raw)[PERSIST_KEY] == Obj(p)
    ensures Decode(config, Some(text)).Ok? && Decode(config, Some(text)).value.Obj?
    ensures var fields := Decode(config, Some(text)).value.fields;
      PERSIST_KEY in fields && fields[PERSIST_KEY] == Obj(p["rehydrated" := Bool(true)])
  {
  }

  // ---------------------------------------------------------------------
  // Round trip

  /** The codec gives back what it serialized, for one value. */
  predicate CodecRoundTrips(codec: Codec, v: Value)
  {
    codec.deserialize(Str(codec.serialize(v))) == v
  }

  /** What a successful read of a written snapshot holds: the written fields and a rehydrated `_persist`. */
  function Restored(config: PersistConfig, state: Value, values: map<string, Value>): Value
  {
    var w := Written(config, state, values);
    Obj((map k | k in w && k in values :: values[k])[PERSIST_KEY := PersistRecord(config.Version(), true)])
  }

  /** Field by field: the written fields decode to their unwrapped values, `_persist` to the record. */
  lemma DecodeWrittenFields(config: PersistConfig, state: Value, values: map<string, Value>)
    requires forall k | k in Written(config, state, values) :: CodecRoundTrips(config.codec, Written(config, state, values)[k])
    requires CodecRoundTrips(config.codec, PersistRecord(config.Version(), false))
    requires forall k | k in values ::
      Undoes(config.transforms, values[k], k, state, Obj(SerializedFields(config, state, values)))
    requires ApplyOut(config.transforms, PersistRecord(config.Version(), false), PERSIST_KEY, Obj(SerializedFields(config, state, values)))
             == PersistRecord(config.Version(), false)
    ensures var fields := DecodeFields(config, Obj(SerializedFields(config, state, values)));
      && fields.Keys == Written(config, state, values).Keys + {PERSIST_KEY}
      && fields[PERSIST_KEY] == PersistRecord(config.Version(), false)
      && forall k | k in fields && k != PERSIST_KEY :: k in values && fields[k] == values[k]
  {
    var raw := Obj(SerializedFields(config, state, values));
    var w := Written(config, state, values);
    var fields := DecodeFields(config, raw);
    assert fields.Keys == w.Keys + {PERSIST_KEY};
    forall k | k in fields && k != PERSIST_KEY
      ensures k in values && fields[k] == values[k]
    {
      assert k in w;
      assert Member(raw, k) == Str(config.codec.serialize(w[k]));
      TransformsRoundTrip(config.transforms, values[k], k, state, raw);
    }
  }

  /**
   * Reading back what setItem wrote gives every written field's unwrapped
   * value and `_persist` with the configured version and `rehydrated: true`,
   * provided the codec round-trips on the texts and values involved and the
   * outbound transforms undo the inbound ones (and leave `_persist` alone,
   * which setItem writes without transforms).
   */
  lemma EncodeDecodeRoundTrip(config: PersistConfig, state: Value, values: map<string, Value>)
    requires Encode(config, state, values) != ""
    requires CodecRoundTrips(config.codec, Obj(SerializedFields(config, state, values)))
    requires CodecRoundTrips(config.codec, PersistRecord(config.Version(), false))
    requires forall k | k in Written(config, state, values) :: CodecRoundTrips(config.codec, Written(config, state, values)[k])
    requires forall k | k in values ::
      Undoes(config.transforms, values[k], k, state, Obj(SerializedFields(config, state, values)))
    requires ApplyOut(config.transforms, PersistRecord(config.Version(), false), PERSIST_KEY, Obj(SerializedFields(config, state, values)))
             == PersistRecord(config.Version(), false)
    ensures Decode(config, Some(Encode(config, state, values))) == Ok(Restored(config, state, values))
  {
    var raw := Obj(SerializedFields(config, state, values));
    var text := Encode(config, state, values);
    assert config.codec.deserialize(Str(text)) == raw;
    DecodeWrittenFields(config, state, values);
    var fields := DecodeFields(config, raw);
    var p := PersistRecord(config.Version(), true);
    assert MarkRehydrated(config, PersistRecord(config.Version(), false)) == Ok(p) by {
      assert PersistRecord(config.Version(), false).fields["rehydrated" := Bool(true)] == p.fields;
    }
    assert Decode(config, Some(text)) == Ok(Obj(fields[PERSIST_KEY := p]));
    assert fields[PERSIST_KEY := p] == Restored(config, state, values).fields by {
      DecodedIsRestored(config, state, values, fields);
    }
  }

  lemma DecodedIsRestored(config: PersistConfig, state: Value, values: map<string, Value>, fields: map<string, Value>)
    requires fields.Keys == Written(config, state, values).Keys + {PERSIST_KEY}
    requires forall k | k in fields && k != PERSIST_KEY :: k in values && fields[k] == values[k]
    ensures fields[PERSIST_KEY := PersistRecord(config.Version(), true)] == Restored(config, state, values).fields
  {
  }
}
