/**
 * createMigrate: picks the manifest versions between the stored version and
 * the current one and runs them in ascending order.
 *
 * As written, every selected migration is applied to the state as it was
 * read, not to the previous migration's output, so only the last defined
 * migration shows in the result (CreateMigrate).  ComposedMigrate is the
 * chained run the manifest evidently intends; both are proved about below.
 */
module Migrate {
  import opened Js
  import opened Config

  type Migration = Value -> Value

  /**
   * A migration manifest keyed by version.  Keys are the integers the
   * manifest's property names parse to; None is a falsy entry.
   */
  type Manifest = map<int, Option<Migration>>

  /** `state._persist && state._persist.version !== undefined ? state._persist.version : DEFAULT_VERSION` */
  function InboundVersion(state: Value): int
  {
    var p := Member(state, PERSIST_KEY);
    if Truthy(p) && Member(p, "version").Num? then Member(p, "version").n else DEFAULT_VERSION
  }

  /** The manifest versions after `inbound` up to and including `current`. */
  function Selected(manifest: Manifest, inbound: int, current: int): set<int>
  {
    set k | k in manifest && inbound < k <= current
  }

  predicate Ascending(s: seq<int>)
  {
    forall i, j | 0 <= i < j < |s| :: s[i] < s[j]
  }

  /** The manifest versions in [lo, hi], smallest first: the parse, filter and sort of the key list. */
  function VersionsBetween(manifest: Manifest, lo: int, hi: int): (r: seq<int>)
    ensures Ascending(r)
    ensures forall k :: k in r <==> k in manifest && lo <= k <= hi
    decreases hi - lo
  {
    if lo > hi then []
    else
      var rest := VersionsBetween(manifest, lo + 1, hi);
      if lo in manifest then
        assert forall j | 0 <= j < |rest| :: lo < rest[j] by {
          forall j | 0 <= j < |rest| ensures lo < rest[j] {
            assert rest[j] in rest;
          }
        }
        [lo] + rest
      else rest
  }

  /** The steps createMigrate runs, in order. */
  function Steps(manifest: Manifest, inbound: int, current: int): (r: seq<int>)
    ensures Ascending(r)
    ensures forall k :: k in r <==> k in Selected(manifest, inbound, current)
  {
    VersionsBetween(manifest, inbound + 1, current)
  }

  /** The reduce of createMigrate.ts as written: each defined step maps the original `state`. */
  function RunAsWritten(manifest: Manifest, steps: seq<int>, state: Value, acc: Value): Value
    requires forall i | 0 <= i < |steps| :: steps[i] in manifest
  {
    if steps == [] then acc
    else
      var entry := manifest[steps[0]];
      RunAsWritten(manifest, steps[1..], state, if entry.Some? then entry.value(state) else acc)
  }

  /** The chained reduce: each defined step maps the previous step's output. */
  function RunComposed(manifest: Manifest, steps: seq<int>, acc: Value): Value
    requires forall i | 0 <= i < |steps| :: steps[i] in manifest
  {
    if steps == [] then acc
    else
      var entry := manifest[steps[0]];
      RunComposed(manifest, steps[1..], if entry.Some? then entry.value(acc) else acc)
  }

  /** createMigrate(manifest)(state, currentVersion), as written. */
  function CreateMigrate(manifest: Manifest, state: Value, current: int): (r: Value)
    ensures !Truthy(state) ==> r == Undef
    ensures Truthy(state) && InboundVersion(state) >= current ==> r == state
  {
    if !Truthy(state) then Undef
    else
      var inbound := InboundVersion(state);
      if inbound == current then state
      else if inbound > current then state
      else RunAsWritten(manifest, Steps(manifest, inbound, current), state, state)
  }

  /** createMigrate with the steps chained, as a migration manifest is meant to run. */
  function ComposedMigrate(manifest: Manifest, state: Value, current: int): (r: Value)
    ensures !Truthy(state) ==> r == Undef
    ensures Truthy(state) && InboundVersion(state) >= current ==> r == state
  {
    if !Truthy(state) then Undef
    else
      var inbound := InboundVersion(state);
      if inbound >= current then state
      else RunComposed(manifest, Steps(manifest, inbound, current), state)
  }

  /** The last step of `steps` whose manifest entry is defined. */
  function LastDefined(manifest: Manifest, steps: seq<int>): (r: Option<int>)
    requires forall i | 0 <= i < |steps| :: steps[i] in manifest
    ensures r.Some? ==> r.value in steps && r.value in manifest && manifest[r.value].Some?
  {
    if steps == [] then None
    else
      var last := steps[|steps| - 1];
      if manifest[last].Some? then Some(last) else LastDefined(manifest, steps[..|steps| - 1])
  }

  lemma {:induction false} RunAsWrittenSnoc(manifest: Manifest, steps: seq<int>, k: int, state: Value, acc: Value)
    requires forall i | 0 <= i < |steps| :: steps[i] in manifest
    requires k in manifest
    ensures forall i | 0 <= i < |steps + [k]| :: (steps + [k])[i] in manifest
    ensures RunAsWritten(manifest, steps + [k], state, acc)
         == (var before := RunAsWritten(manifest, steps, state, acc);
             if manifest[k].Some? then manifest[k].value(state) else before)
    decreases |steps|
  {
    if steps != [] {
      var entry := manifest[steps[0]];
      assert (steps + [k])[1..] == steps[1..] + [k];
      RunAsWrittenSnoc(manifest, steps[1..], k, state, if entry.Some? then entry.value(state) else acc);
    }
  }

  /**
   * The reduce as written yields the last defined step applied to the
   * original state, or the initial accumulator when no step is defined.
   */
  lemma {:induction false} RunAsWrittenIsLastStep(manifest: Manifest, steps: seq<int>, state: Value, acc: Value)
    requires forall i | 0 <= i < |steps| :: steps[i] in manifest
    ensures RunAsWritten(manifest, steps, state, acc)
         == (match LastDefined(manifest, steps)
             case Some(k) => manifest[k].value(state)
             case None => acc)
    decreases |steps|
  {
    if steps != [] {
      var front := steps[..|steps| - 1];
      var last := steps[|steps| - 1];
      assert steps == front + [last];
      RunAsWrittenIsLastStep(manifest, front, state, acc);
      RunAsWrittenSnoc(manifest, front, last, state, acc);
    }
  }

  /**
   * createMigrate as written: with a stored version below the current one,
   * the result is the highest defined selected migration applied to the
   * stored state, or the stored state itself when none is defined.
   */
  lemma MigrateAppliesOnlyLastStep(manifest: Manifest, state: Value, current: int)
    requires Truthy(state) && InboundVersion(state) < current
    ensures CreateMigrate(manifest, state, current)
         == (match LastDefined(manifest, Steps(manifest, InboundVersion(state), current))
             case Some(k) => manifest[k].value(state)
             case None => state)
  {
    RunAsWrittenIsLastStep(manifest, Steps(manifest, InboundVersion(state), current), state, state);
  }

  /** A range without manifest versions selects nothing. */
  lemma {:induction false} NoVersionsBetween(manifest: Manifest, lo: int, hi: int)
    requires forall k | lo <= k <= hi :: k !in manifest
    ensures VersionsBetween(manifest, lo, hi) == []
    decreases hi - lo
  {
    if lo <= hi {
      NoVersionsBetween(manifest, lo + 1, hi);
    }
  }

  /** The versions of a range are those of its lower part followed by those of its upper part. */
  lemma {:induction false} VersionsBetweenSplit(manifest: Manifest, lo: int, m: int, hi: int)
    requires lo <= m <= hi + 1
    ensures VersionsBetween(manifest, lo, hi) == VersionsBetween(manifest, lo, m - 1) + VersionsBetween(manifest, m, hi)
    decreases m - lo
  {
    if m > lo {
      VersionsBetweenSplit(manifest, lo + 1, m, hi);
      var head: seq<int> := if lo in manifest then [lo] else [];
      var low := VersionsBetween(manifest, lo + 1, m - 1);
      var high := VersionsBetween(manifest, m, hi);
      assert VersionsBetween(manifest, lo, hi) == head + (low + high);
      assert VersionsBetween(manifest, lo, m - 1) == head + low;
      assert head + (low + high) == (head + low) + high;
    } else {
      assert VersionsBetween(manifest, lo, m - 1) == [];
    }
  }

  /** A range holding exactly two manifest versions selects those two, in order. */
  lemma {:induction false} PairOfVersions(manifest: Manifest, lo: int, hi: int, k1: int, k2: int)
    requires lo <= k1 < k2 <= hi && k1 in manifest && k2 in manifest
    requires forall k | lo <= k <= hi && k != k1 && k != k2 :: k !in manifest
    ensures VersionsBetween(manifest, lo, hi) == [k1, k2]
    decreases k1 - lo
  {
    if lo == k1 {
      OneVersion(manifest, lo + 1, hi, k2);
      assert VersionsBetween(manifest, lo, hi) == [k1] + [k2];
    } else {
      PairOfVersions(manifest, lo + 1, hi, k1, k2);
    }
  }

  /** The one manifest version in [lo, hi]. */
  lemma {:induction false} OneVersion(manifest: Manifest, lo: int, hi: int, k1: int)
    requires lo <= k1 <= hi && k1 in manifest
    requires forall k | lo <= k <= hi && k != k1 :: k !in manifest
    ensures VersionsBetween(manifest, lo, hi) == [k1]
    decreases k1 - lo
  {
    if lo == k1 {
      NoVersionsBetween(manifest, lo + 1, hi);
      assert VersionsBetween(manifest, lo, hi) == [k1] + [];
    } else {
      OneVersion(manifest, lo + 1, hi, k1);
    }
  }

  /** No manifest version in range: the state comes back unchanged. */
  lemma MigrateWithoutStepsIsIdentity(manifest: Manifest, state: Value, current: int)
    requires Selected(manifest, InboundVersion(state), current) == {}
    ensures Truthy(state) ==> CreateMigrate(manifest, state, current) == state
    ensures Truthy(state) ==> ComposedMigrate(manifest, state, current) == state
  {
    var inbound := InboundVersion(state);
    forall k | inbound + 1 <= k <= current
      ensures k !in manifest
    {
      assert k !in Selected(manifest, inbound, current);
    }
    NoVersionsBetween(manifest, inbound + 1, current);
  }

  /** Chained steps split at any point: running a + b is running b after a. */
  lemma {:induction false} RunComposedAppend(manifest: Manifest, a: seq<int>, b: seq<int>, acc: Value)
    requires forall i | 0 <= i < |a| :: a[i] in manifest
    requires forall i | 0 <= i < |b| :: b[i] in manifest
    ensures forall i | 0 <= i < |a + b| :: (a + b)[i] in manifest
    ensures RunComposed(manifest, a + b, acc) == RunComposed(manifest, b, RunComposed(manifest, a, acc))
    decreases |a|
  {
    if a != [] {
      var entry := manifest[a[0]];
      var next := if entry.Some? then entry.value(acc) else acc;
      assert (a + b)[0] == a[0] && (a + b)[1..] == a[1..] + b;
      RunComposedAppend(manifest, a[1..], b, next);
      assert RunComposed(manifest, a + b, acc) == RunComposed(manifest, a[1..] + b, next);
      assert RunComposed(manifest, a, acc) == RunComposed(manifest, a[1..], next);
    } else {
      assert a + b == b;
    }
  }

  /** Two defined steps chain in ascending order: the later one sees the earlier one's output. */
  lemma ComposedRunsInOrder(manifest: Manifest, state: Value, current: int, k1: int, k2: int)
    requires Truthy(state)
    requires Selected(manifest, InboundVersion(state), current) == {k1, k2} && k1 < k2
    requires manifest[k1].Some? && manifest[k2].Some?
    ensures ComposedMigrate(manifest, state, current) == manifest[k2].value(manifest[k1].value(state))
  {
    var lo := InboundVersion(state) + 1;
    var steps := Steps(manifest, lo - 1, current);
    assert k1 in Selected(manifest, lo - 1, current) && k2 in Selected(manifest, lo - 1, current);
    forall k | lo <= k <= current && k != k1 && k != k2
      ensures k !in manifest
    {
      assert k !in Selected(manifest, lo - 1, current);
    }
    PairOfVersions(manifest, lo, current, k1, k2);
    assert steps == [k1, k2];
    var s1 := manifest[k1].value(state);
    assert RunComposed(manifest, [k2], s1) == manifest[k2].value(s1) by {
      assert [k2][1..] == [];
    }
    assert RunComposed(manifest, [k1, k2], state) == RunComposed(manifest, [k2], s1) by {
      assert [k1, k2][1..] == [k2];
    }
  }

  /**
   * The discrepancy as written: a manifest with two versions that each add
   * one field keeps only the second version's field.
   */
  lemma AsWrittenDropsEarlierStep()
    ensures var state := Obj(map[]);
            var manifest: Manifest := map[
              0 := Some((v: Value) => Obj(Spread(v)["a" := Num(1)])),
              1 := Some((v: Value) => Obj(Spread(v)["b" := Num(2)]))];
            CreateMigrate(manifest, state, 1) == Obj(map["b" := Num(2)])
            && ComposedMigrate(manifest, state, 1) == Obj(map["a" := Num(1), "b" := Num(2)])
  {
    var state := Obj(map[]);
    var manifest: Manifest := map[
      0 := Some((v: Value) => Obj(Spread(v)["a" := Num(1)])),
      1 := Some((v: Value) => Obj(Spread(v)["b" := Num(2)]))];
    assert InboundVersion(state) == -1;
    assert Selected(manifest, -1, 1) == {0, 1};
    ComposedRunsInOrder(manifest, state, 1, 0, 1);
    MigrateAppliesOnlyLastStep(manifest, state, 1);
    var steps := Steps(manifest, -1, 1);
    assert steps == [0, 1] by {
      assert VersionsBetween(manifest, 1, 1) == [1];
    }
    assert Spread(Obj(map["a" := Num(1)])) == map["a" := Num(1)];
  }
}
