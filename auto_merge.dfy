/**
 * The state reconcilers autoMergeLevel1 and autoMergeLevel2.  Each copies
 * the reduced state and overlays the inbound (restored) keys, skipping
 * `_persist` and every key the reducer has already changed; level 2 merges
 * one level deeper when the reduced value is a plain enough object.
 *
 * The loops are methods proved against the declarative results Level1 and
 * Level2, and the lemmas below state the reconcilers' promises about those.
 */
module Reconcile {
  import opened Js
  import opened Config

  /** isPlainEnoughObject: not null, not an array, and of type object. */
  predicate IsPlainEnoughObject(v: Value)
  {
    v != Null && !v.Arr? && IsObject(v)
  }

  /** `inboundState && typeof inboundState === 'object'` */
  predicate Rehydrates(inbound: Value)
  {
    Truthy(inbound) && IsObject(inbound)
  }

  /** The inbound keys a reconciler takes: not `_persist`, and left as it was by the reducer. */
  predicate Takes(inbound: Value, original: Value, reduced: Value, k: string)
  {
    Rehydrates(inbound) && k in OwnKeys(inbound) && k != PERSIST_KEY && Member(original, k) == Member(reduced, k)
  }

  /** The keys of `{ ...reduced }` together with the taken inbound keys. */
  function ResultKeys(inbound: Value, original: Value, reduced: Value): set<string>
  {
    OwnKeys(reduced) + set k | k in OwnKeys(inbound) && Takes(inbound, original, reduced, k)
  }

  /** What autoMergeLevel1 returns, field by field. */
  function Level1(inbound: Value, original: Value, reduced: Value): map<string, Value>
  {
    map k | k in ResultKeys(inbound, original, reduced) ::
      if Takes(inbound, original, reduced, k) then Member(inbound, k) else Member(reduced, k)
  }

  /** Level 2's value for a taken key: a shallow merge when the reduced value is a plain enough object. */
  function Merged2(inbound: Value, reduced: Value, k: string): Value
  {
    if IsPlainEnoughObject(Member(reduced, k))
    then
      var base := if k in OwnKeys(reduced) then Member(reduced, k) else Undef;
      Obj(Spread(base) + Spread(Member(inbound, k)))
    else Member(inbound, k)
  }

  /** What autoMergeLevel2 (alias autoMergeCombinedState) returns, field by field. */
  function Level2(inbound: Value, original: Value, reduced: Value): map<string, Value>
  {
    map k | k in ResultKeys(inbound, original, reduced) ::
      if Takes(inbound, original, reduced, k) then Merged2(inbound, reduced, k) else Member(reduced, k)
  }

  lemma Level1Lookup(inbound: Value, original: Value, reduced: Value, k: string)
    ensures k in Level1(inbound, original, reduced) <==> k in OwnKeys(reduced) || Takes(inbound, original, reduced, k)
    ensures k in Level1(inbound, original, reduced) ==>
              Level1(inbound, original, reduced)[k] == if Takes(inbound, original, reduced, k) then Member(inbound, k) else Member(reduced, k)
  {
  }

  lemma Level2Lookup(inbound: Value, original: Value, reduced: Value, k: string)
    ensures k in Level2(inbound, original, reduced) <==> k in OwnKeys(reduced) || Takes(inbound, original, reduced, k)
    ensures k in Level2(inbound, original, reduced) ==>
              Level2(inbound, original, reduced)[k] == if Takes(inbound, original, reduced, k) then Merged2(inbound, reduced, k) else Member(reduced, k)
  {
  }

  /** The loop's invariant: `m` is the copy with the taken keys among `done` overlaid. */
  ghost predicate Overlaid1(inbound: Value, original: Value, reduced: Value, done: set<string>, m: map<string, Value>)
  {
    (forall k :: k in m <==> k in OwnKeys(reduced) || (k in done && Takes(inbound, original, reduced, k)))
    && (forall k | k in m ::
          m[k] == if k in done && Takes(inbound, original, reduced, k) then Member(inbound, k) else Member(reduced, k))
  }

  /** One turn of level 1's loop: the taken key is hard-set. */
  function Step1(inbound: Value, original: Value, reduced: Value, m: map<string, Value>, key: string): map<string, Value>
  {
    if Takes(inbound, original, reduced, key) then m[key := Member(inbound, key)] else m
  }

  lemma Overlaid1Step(inbound: Value, original: Value, reduced: Value, done: set<string>, m: map<string, Value>, key: string)
    requires Overlaid1(inbound, original, reduced, done, m) && key !in done
    ensures Overlaid1(inbound, original, reduced, done + {key}, Step1(inbound, original, reduced, m, key))
  {
  }

  lemma Overlaid1Complete(inbound: Value, original: Value, reduced: Value, done: set<string>, m: map<string, Value>)
    requires done == OwnKeys(inbound) || !Rehydrates(inbound)
    requires Overlaid1(inbound, original, reduced, done, m)
    ensures m == Level1(inbound, original, reduced)
  {
    forall k ensures k in m <==> k in Level1(inbound, original, reduced)
      ensures k in m ==> m[k] == Level1(inbound, original, reduced)[k]
    {
      Level1Lookup(inbound, original, reduced, k);
      assert (k in done && Takes(inbound, original, reduced, k)) == Takes(inbound, original, reduced, k);
    }
  }

  /** autoMergeLevel1(inboundState, originalState, reducedState) */
  method AutoMergeLevel1(inbound: Value, original: Value, reduced: Value) returns (r: Value)
    ensures r == Obj(Level1(inbound, original, reduced))
  {
    var newState := Spread(reduced);
    ghost var done: set<string> := {};
    assert Overlaid1(inbound, original, reduced, done, newState);
    if Truthy(inbound) && IsObject(inbound) {
      var keys := OwnKeys(inbound);
      while keys != {}
        invariant keys + done == OwnKeys(inbound) && keys !! done
        invariant Overlaid1(inbound, original, reduced, done, newState)
        decreases keys
      {
        var key :| key in keys;
        keys := keys - {key};
        Overlaid1Step(inbound, original, reduced, done, newState, key);
        ghost var stepped := Step1(inbound, original, reduced, newState, key);
        if key == PERSIST_KEY {
          // _persist is never rehydrated
        } else if Member(original, key) != Member(reduced, key) {
          // the reducer changed this key
        } else {
          newState := newState[key := Member(inbound, key)];
        }
        assert newState == stepped;
        done := done + {key};
      }
    }
    Overlaid1Complete(inbound, original, reduced, done, newState);
    r := Obj(newState);
  }

  /** The loop's invariant for level 2. */
  ghost predicate Overlaid2(inbound: Value, original: Value, reduced: Value, done: set<string>, m: map<string, Value>)
  {
    (forall k :: k in m <==> k in OwnKeys(reduced) || (k in done && Takes(inbound, original, reduced, k)))
    && (forall k | k in m ::
          m[k] == if k in done && Takes(inbound, original, reduced, k) then Merged2(inbound, reduced, k) else Member(reduced, k))
  }

  /** One turn of level 2's loop: the taken key is merged one level deep or hard-set. */
  function Step2(inbound: Value, original: Value, reduced: Value, m: map<string, Value>, key: string): map<string, Value>
  {
    if !Takes(inbound, original, reduced, key) then m
    else if IsPlainEnoughObject(Member(reduced, key)) then
      var current := if key in m then m[key] else Undef;
      m[key := Obj(Spread(current) + Spread(Member(inbound, key)))]
    else m[key := Member(inbound, key)]
  }

  lemma Overlaid2Step(inbound: Value, original: Value, reduced: Value, done: set<string>, m: map<string, Value>, key: string)
    requires Overlaid2(inbound, original, reduced, done, m) && key !in done
    ensures Overlaid2(inbound, original, reduced, done + {key}, Step2(inbound, original, reduced, m, key))
  {
    var next := Step2(inbound, original, reduced, m, key);
    var taken := Takes(inbound, original, reduced, key);
    assert key in m <==> key in OwnKeys(reduced);
    forall k ensures k in next <==> k in OwnKeys(reduced) || (k in done + {key} && Takes(inbound, original, reduced, k)) {
      if k != key {
        assert k in next <==> k in m;
      }
    }
    forall k | k in next
      ensures next[k] == if k in done + {key} && Takes(inbound, original, reduced, k)
                         then Merged2(inbound, reduced, k) else Member(reduced, k)
    {
      if k != key {
        assert next[k] == m[k];
      } else if taken && IsPlainEnoughObject(Member(reduced, key)) {
        assert (if key in m then m[key] else Undef) == (if key in OwnKeys(reduced) then Member(reduced, key) else Undef);
      }
    }
  }

  lemma Overlaid2Complete(inbound: Value, original: Value, reduced: Value, done: set<string>, m: map<string, Value>)
    requires done == OwnKeys(inbound) || !Rehydrates(inbound)
    requires Overlaid2(inbound, original, reduced, done, m)
    ensures m == Level2(inbound, original, reduced)
  {
    forall k ensures k in m <==> k in Level2(inbound, original, reduced)
      ensures k in m ==> m[k] == Level2(inbound, original, reduced)[k]
    {
      Level2Lookup(inbound, original, reduced, k);
      assert (k in done && Takes(inbound, original, reduced, k)) == Takes(inbound, original, reduced, k);
    }
  }

  /** autoMergeLevel2(inboundState, originalState, reducedState) */
  method AutoMergeLevel2(inbound: Value, original: Value, reduced: Value) returns (r: Value)
    ensures r == Obj(Level2(inbound, original, reduced))
  {
    var newState := Spread(reduced);
    ghost var done: set<string> := {};
    assert Overlaid2(inbound, original, reduced, done, newState);
    if Truthy(inbound) && IsObject(inbound) {
      var keys := OwnKeys(inbound);
      while keys != {}
        invariant keys + done == OwnKeys(inbound) && keys !! done
        invariant Overlaid2(inbound, original, reduced, done, newState)
        decreases keys
      {
        var key :| key in keys;
        keys := keys - {key};
        Overlaid2Step(inbound, original, reduced, done, newState, key);
        ghost var stepped := Step2(inbound, original, reduced, newState, key);
        if key == PERSIST_KEY {
          // _persist is never rehydrated
        } else if Member(original, key) != Member(reduced, key) {
          // the reducer changed this key
        } else if IsPlainEnoughObject(Member(reduced, key)) {
          var current := if key in newState then newState[key] else Undef;
          newState := newState[key := Obj(Spread(current) + Spread(Member(inbound, key)))];
        } else {
          newState := newState[key := Member(inbound, key)];
        }
        assert newState == stepped;
        done := done + {key};
      }
    }
    Overlaid2Complete(inbound, original, reduced, done, newState);
    r := Obj(newState);
  }

  /** The reconciler a configuration names, applied as `reconciler(inbound, original, reduced)`. */
  function Reconciled(rec: Reconciler, inbound: Value, original: Value, reduced: Value): Value
  {
    match rec
    case MergeLevel1 => Obj(Level1(inbound, original, reduced))
    case MergeLevel2 => Obj(Level2(inbound, original, reduced))
    case CustomReconciler(f) => f(inbound, original, reduced)
  }

  method RunReconciler(rec: Reconciler, inbound: Value, original: Value, reduced: Value) returns (r: Value)
    ensures r == Reconciled(rec, inbound, original, reduced)
    ensures !rec.CustomReconciler? ==> r.Obj?
  {
    match rec
    case MergeLevel1 => r := AutoMergeLevel1(inbound, original, reduced);
    case MergeLevel2 => r := AutoMergeLevel2(inbound, original, reduced);
    case CustomReconciler(f) => r := f(inbound, original, reduced);
  }

  // ---------------------------------------------------------------------
  // What both reconcilers promise.

  /** The level a shipped reconciler works at. */
  function Shipped(level2: bool, inbound: Value, original: Value, reduced: Value): map<string, Value>
  {
    if level2 then Level2(inbound, original, reduced) else Level1(inbound, original, reduced)
  }

  /** `_persist` is never taken from the inbound state: it is whatever the reduced state holds. */
  lemma PersistNeverCopied(level2: bool, inbound: Value, original: Value, reduced: Value)
    ensures var r := Shipped(level2, inbound, original, reduced);
      (PERSIST_KEY in r <==> PERSIST_KEY in OwnKeys(reduced))
      && (PERSIST_KEY in r ==> r[PERSIST_KEY] == Member(reduced, PERSIST_KEY))
  {
  }

  /** A key the reducer changed keeps its reduced value (and is present only if reduced has it). */
  lemma ChangedKeyKeepsReduced(level2: bool, inbound: Value, original: Value, reduced: Value, k: string)
    requires Member(original, k) != Member(reduced, k)
    ensures var r := Shipped(level2, inbound, original, reduced);
      (k in r <==> k in OwnKeys(reduced)) && (k in r ==> r[k] == Member(reduced, k))
  {
  }

  /** A reduced key the inbound state does not mention keeps its reduced value. */
  lemma ReducedOnlyKeyKept(level2: bool, inbound: Value, original: Value, reduced: Value, k: string)
    requires k in OwnKeys(reduced) && k !in OwnKeys(inbound)
    ensures var r := Shipped(level2, inbound, original, reduced);
      k in r && r[k] == Member(reduced, k)
  {
  }

  /** A falsy or non-object inbound state gives a copy of the reduced state. */
  lemma NoInboundGivesCopy(level2: bool, inbound: Value, original: Value, reduced: Value)
    requires !Rehydrates(inbound)
    ensures Shipped(level2, inbound, original, reduced) == Spread(reduced)
  {
    forall k ensures k in Shipped(level2, inbound, original, reduced) <==> k in Spread(reduced)
      ensures k in Spread(reduced) ==> Shipped(level2, inbound, original, reduced)[k] == Spread(reduced)[k]
    {
      Level1Lookup(inbound, original, reduced, k);
      Level2Lookup(inbound, original, reduced, k);
    }
  }

  /** Level 1 hard-sets every taken key, including keys the reduced state lacks. */
  lemma Level1SetsTakenKey(inbound: Value, original: Value, reduced: Value, k: string)
    requires Rehydrates(inbound) && k in OwnKeys(inbound) && k != PERSIST_KEY
    requires Member(original, k) == Member(reduced, k)
    ensures var r := Level1(inbound, original, reduced);
      k in r && r[k] == Member(inbound, k)
  {
  }

  /**
   * Level 2 on a taken key whose reduced value is a plain object: reduced
   * fields overlaid by inbound fields, inbound winning; plainness is judged
   * on the reduced value only.
   */
  lemma Level2MergesPlainObject(inbound: Value, original: Value, reducedFields: map<string, Value>, k: string)
    requires Rehydrates(inbound) && k in OwnKeys(inbound) && k != PERSIST_KEY
    requires k in reducedFields && reducedFields[k].Obj?
    requires Member(original, k) == reducedFields[k]
    ensures var r := Level2(inbound, original, Obj(reducedFields));
      k in r && r[k] == Obj(reducedFields[k].fields + Spread(Member(inbound, k)))
  {
    assert Spread(reducedFields[k]) == reducedFields[k].fields;
  }

  /** Level 2 on a taken key whose reduced value is an array, null or a primitive: hard set. */
  lemma Level2ReplacesOther(inbound: Value, original: Value, reduced: Value, k: string)
    requires Rehydrates(inbound) && k in OwnKeys(inbound) && k != PERSIST_KEY
    requires Member(original, k) == Member(reduced, k) && !IsPlainEnoughObject(Member(reduced, k))
    ensures var r := Level2(inbound, original, reduced);
      k in r && r[k] == Member(inbound, k)
  {
  }

  /**
   * Called as `reconciler(inbound, state, state)` the gate never closes:
   * every inbound key but `_persist` is applied, every other key of the
   * state is kept.
   */
  lemma SameStateTakesEveryInboundKey(level2: bool, inbound: Value, state: Value)
    requires Rehydrates(inbound)
    ensures var r := Shipped(level2, inbound, state, state);
      r.Keys == OwnKeys(state) + (OwnKeys(inbound) - {PERSIST_KEY})
      && (forall k | k in OwnKeys(inbound) && k != PERSIST_KEY && !level2 :: r[k] == Member(inbound, k))
      && (forall k | k in OwnKeys(state) && (k !in OwnKeys(inbound) || k == PERSIST_KEY) :: r[k] == Member(state, k))
  {
  }

  /** Reduced `{a: {y: 2}}` with inbound `{a: {x: 1}}` gives `{a: {x: 1, y: 2}}`. */
  lemma Level2Example()
    ensures var reduced := Obj(map["a" := Obj(map["y" := Num(2)])]);
            var inbound := Obj(map["a" := Obj(map["x" := Num(1)])]);
            Level2(inbound, reduced, reduced) == map["a" := Obj(map["x" := Num(1), "y" := Num(2)])]
  {
    var reduced := Obj(map["a" := Obj(map["y" := Num(2)])]);
    var inbound := Obj(map["a" := Obj(map["x" := Num(1)])]);
    assert Spread(Member(reduced, "a")) == map["y" := Num(2)];
    assert Spread(Member(inbound, "a")) == map["x" := Num(1)];
    assert map["y" := Num(2)] + map["x" := Num(1)] == map["x" := Num(1), "y" := Num(2)];
    Level2Lookup(inbound, reduced, reduced, "a");
    forall k ensures k in Level2(inbound, reduced, reduced) <==> k == "a" {
      Level2Lookup(inbound, reduced, reduced, k);
    }
  }
}
