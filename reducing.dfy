/**
 * The host application's reducers as the persisted wrappers call them:
 * a leaf reducer, and Redux Toolkit's `combineReducers` over named
 * children.  Reading a field of the state, or its key count, goes through
 * the lazy view's traps when the state is a view of the wrapper's restore
 * closure, so a reducer run may restore the slice from storage.
 */
module Reducing {
  import opened Js
  import opened Host
  import opened Lazy
  import opened Slice

  const UNDEFINED_SLICE: string := "Error: a slice reducer returned undefined"

  /** No reducer in the tree handles the action: every leaf keeps its state. */
  predicate Idle(red: Reducer, a: Action)
    decreases red
  {
    match red
    case Leaf(_, step) => step(a).Keep?
    case Combined(ch) => forall k | k in ch :: Idle(ch[k], a)
  }

  /** `combination(state = {}, action)`: the state a combined reducer starts from. */
  function Defaulted(state: Value): Value
  {
    if state == Undef then Obj(map[]) else state
  }

  /**
   * How a reducer run reads the lazy views it meets: a view over a fixed
   * value reads as that value; a view of the restore closure `cell` reads
   * as what its supplier gives from `restored`, the state that closure has
   * cached.
   */
  datatype Lens = Lens(cell: object, restored: Option<Value>, keyed: bool)

  /** The lens of the restore closure `h` as it stands. */
  ghost function LensOf(h: Restorer): Lens
    reads h
  {
    Lens(h, h.reconciled, h.keyed)
  }

  /**
   * What a run reads `v` as.  A view of the closure resolves once the
   * closure has restored, when its supplier gives the same answer on the
   * restoring call and after, unless it is a whole-state view of a keyed
   * closure (whose whitelist may answer from the initial state instead).
   * Anything else reads as itself.
   */
  function Seen(lens: Lens, v: Value): Value
  {
    if !v.View? then v
    else if v.supplier.Fixed? then v.supplier.value
    else if v.supplier.cell == lens.cell && lens.restored.Some? && !(v.supplier.Restore? && lens.keyed) &&
            Supplied(v.supplier, lens.restored.value, false).Ok?
    then Supplied(v.supplier, lens.restored.value, false).value
    else v
  }

  /**
   * A combined level over `s` reads plainly: when `s` is a view, it resolves
   * to an object whose children's fields the get trap returns as they are.
   */
  predicate Level(red: Reducer, s: Value, lens: Lens)
    requires red.Combined?
  {
    s.View? ==>
      Seen(lens, s).Obj? && forall k | k in red.children :: GetTrap(Key(k), Seen(lens, s)) == Plain(Member(Seen(lens, s), k))
  }

  /**
   * Every combined level of the tree reads plainly through `lens`: a state
   * with no views at its combined levels, or with views over fixed values,
   * or with views of a closure that has restored.
   */
  predicate Readable(red: Reducer, state: Value, lens: Lens)
    decreases red
  {
    match red
    case Leaf(_, _) => true
    case Combined(ch) =>
      Level(red, Defaulted(state), lens) && ChildrenReadable(red, Defaulted(state), lens)
  }

  /** Every child of a combined reducer reads its field of `s` plainly. */
  predicate ChildrenReadable(red: Reducer, s: Value, lens: Lens)
    requires red.Combined?
    decreases red, 0
  {
    forall k | k in red.children :: Readable(red.children[k], Member(Seen(lens, s), k), lens)
  }

  /**
   * What an idle reducer tree returns, reading views through `lens`: a leaf
   * its state (its initial state for undefined); a combined reducer its
   * state, a view included, when no child result differs from the field it
   * read and the key counts agree, otherwise a new object of the children's
   * results.  None stands for a throw: a nullish combined state, or a child
   * returning undefined.
   */
  function Idled(red: Reducer, state: Value, lens: Lens): Option<Value>
    decreases red, 2
  {
    match red
    case Leaf(initial, _) => Some(if state == Undef then initial else state)
    case Combined(ch) =>
      var s := Defaulted(state);
      var t := Seen(lens, s);
      if Nullish(t) || exists k | k in ch :: !ChildIdled(ch[k], Member(t, k), lens) then None
      else
        var next := IdledChildren(red, t, lens);
        Some(if Changed(next, Fields(red, t), |OwnKeys(t)|) then Obj(next) else s)
  }

  /** The idle results of a combined reducer's children on their fields of `t`. */
  function IdledChildren(red: Reducer, t: Value, lens: Lens): map<string, Value>
    requires red.Combined?
    decreases red, 1
  {
    map k | k in red.children :: Idled(red.children[k], Member(t, k), lens).GetOr(Undef)
  }

  /** The fields of `t` a combined reducer's children read. */
  function Fields(red: Reducer, t: Value): map<string, Value>
    requires red.Combined?
  {
    map k | k in red.children :: Member(t, k)
  }

  /** `hasChanged`: some child result differs from the field it read, or the key counts differ. */
  predicate Changed(next: map<string, Value>, prevs: map<string, Value>, count: nat)
  {
    (exists k | k in next && k in prevs :: next[k] != prevs[k]) || |next| != count
  }

  /** A child's idle run succeeds with a defined value. */
  predicate ChildIdled(child: Reducer, prev: Value, lens: Lens)
    decreases child, 3
  {
    Idled(child, prev, lens).Some? && Idled(child, prev, lens).value != Undef
  }

  /**
   * `reducer(state, action)` with `h` answering for its views.  A leaf keeps
   * its state or computes from the state's value (forcing a view); a
   * combined reducer reads each child's field, runs the child, throws when a
   * child returns undefined, and returns a new object exactly when some
   * child result differs from the field it read or the key counts differ.
   * An idle run over a state that reads plainly through the closure as it
   * stands neither reads storage nor restores, and returns what Idled gives.
   */
  method Run(h: Restorer, red: Reducer, state: Value, a: Action) returns (r: Outcome<Value>)
    requires h.Valid()
    modifies h, h.persistoid, h.config.storage
    ensures h.Kept()
    ensures Idle(red, a) && Readable(red, state, old(LensOf(h))) ==>
      h.Quiet() && (r.Ok? <==> Idled(red, state, old(LensOf(h))).Some?) &&
      (r.Ok? ==> r.value == Idled(red, state, old(LensOf(h))).value)
    ensures red.Leaf? && red.step(a).Compute? && !h.Owns(Default(red, state)) ==>
      r == Ok(red.step(a).next(PlainValue(Default(red, state)))) && h.Quiet()
    ensures red.Combined? && state == Undef && r.Ok? ==> r.value.Obj? && r.value.fields.Keys == red.children.Keys
    ensures red.Combined? && Idle(red, a) && Readable(red, state, old(LensOf(h))) && Still(red, state, old(LensOf(h))) ==>
      h.Quiet() && r == Ok(Defaulted(state))
    decreases red, 3
  {
    match red
    case Leaf(initial, step) =>
      var s := if state == Undef then initial else state;
      if step(a).Keep? {
        r := Ok(s);
      } else {
        var forced := h.Force(s);
        if forced.Thrown? {
          return forced;
        }
        r := Ok(step(a).next(forced.value));
      }
    case Combined(ch) =>
      ghost var lens := LensOf(h);
      if Still(red, state, lens) {
        StillIdled(red, state, lens);
      }
      r := Combine(h, red, state, a, lens, Idle(red, a) && Readable(red, state, lens));
  }

  /**
   * Every child of a combined level over `state` runs idle and returns the
   * very field it read, and the level has as many keys as children: the
   * case in which combineReducers hands back the state it was given.
   */
  predicate Still(red: Reducer, state: Value, lens: Lens)
    requires red.Combined?
  {
    var t := Seen(lens, Defaulted(state));
    !Nullish(t) && |red.children| == |OwnKeys(t)| &&
    forall k | k in red.children ::
      ChildIdled(red.children[k], Member(t, k), lens) && Idled(red.children[k], Member(t, k), lens).value == Member(t, k)
  }

  /** A still level is idle and yields its (defaulted) state itself, a view included. */
  lemma StillIdled(red: Reducer, state: Value, lens: Lens)
    requires red.Combined? && Still(red, state, lens)
    ensures Idled(red, state, lens) == Some(Defaulted(state))
  {
    var t := Seen(lens, Defaulted(state));
    IdledLevel(red, state, lens);
    var next := IdledChildren(red, t, lens);
    assert next == Fields(red, t);
    assert next.Keys == red.children.Keys;
  }

  /** A leaf's state: its initial state for undefined. */
  function Default(red: Reducer, state: Value): Value
    requires red.Leaf?
  {
    if state == Undef then red.initial else state
  }

  /**
   * The `combineReducers` half of Run.  The ghost `ready` says that the
   * caller knows the run to be idle over a state readable through `lens`,
   * the closure as it stands; Combine, Children, Child and Count then state
   * their quiet results in terms of `lens`.
   */
  method Combine(h: Restorer, red: Reducer, state: Value, a: Action, ghost lens: Lens, ghost ready: bool)
    returns (r: Outcome<Value>)
    requires h.Valid() && red.Combined?
    requires ready ==> LensOf(h) == lens && Idle(red, a) && Readable(red, state, lens)
    modifies h, h.persistoid, h.config.storage
    ensures h.Kept()
    ensures ready ==>
      h.Quiet() && (r.Ok? <==> Idled(red, state, lens).Some?) && (r.Ok? ==> r.value == Idled(red, state, lens).value)
    ensures state == Undef && r.Ok? ==> r.value.Obj? && r.value.fields.Keys == red.children.Keys
    decreases red, 2
  {
    var s := Defaulted(state);
    ghost var t := Seen(lens, s);
    var next, prevs := Children(h, red, s, a, lens, t, ready);
    if next.Thrown? {
      r := Thrown(next.error);
    } else {
      var count := Count(h, s, lens, t, ready);
      if count.Thrown? {
        r := Thrown(count.error);
      } else {
        r := Ok(if Changed(next.value, prevs, count.value) then Obj(next.value) else s);
        if ready {
          IdledFromChildren(red, state, lens, next.value, prevs, count.value);
        }
      }
    }
    if ready && r.Thrown? {
      IdledThrows(red, state, lens);
    }
  }

  /**
   * `Object.keys(s).length` as combineReducers takes it: over a state whose
   * view resolves to an object, the count of what it resolves to, read
   * without touching storage.
   */
  method Count(h: Restorer, s: Value, ghost lens: Lens, ghost t: Value, ghost ready: bool) returns (r: Outcome<nat>)
    requires h.Valid()
    requires ready ==> LensOf(h) == lens && t == Seen(lens, s) && (s.View? ==> t.Obj?)
    modifies h, h.persistoid, h.config.storage
    ensures h.Kept()
    ensures !s.View? ==> h.Quiet() && r == (if Nullish(s) then Thrown(NULL_TO_OBJECT) else Ok(|OwnKeys(s)|))
    ensures ready ==> h.Quiet() && r == (if Nullish(t) then Thrown(NULL_TO_OBJECT) else Ok(|OwnKeys(t)|))
  {
    r := h.KeyCount(s);
  }

  /** Every child of a combined reducer runs idle on its field of `t`. */
  predicate ChildrenIdled(red: Reducer, t: Value, lens: Lens)
    requires red.Combined?
  {
    forall k | k in red.children :: Settles(red, t, k, lens)
  }

  /** Child k of a combined reducer runs idle on its field of `t` and returns v. */
  predicate Settled(red: Reducer, t: Value, k: string, v: Value, lens: Lens)
    requires red.Combined?
  {
    Settles(red, t, k, lens) && v == Idled(red.children[k], Member(t, k), lens).value
  }

  /** Child k of a combined reducer runs idle on its field of `t` without throwing. */
  predicate Settles(red: Reducer, t: Value, k: string, lens: Lens)
    requires red.Combined?
  {
    k in red.children && !Nullish(t) && ChildIdled(red.children[k], Member(t, k), lens)
  }

  /**
   * The loop of `combination`: each child's result and the field it read
   * (`previousStateForKey`), keyed by the child's name.
   */
  method Children(h: Restorer, red: Reducer, s: Value, a: Action, ghost lens: Lens, ghost t: Value, ghost ready: bool)
    returns (r: Outcome<map<string, Value>>, prevs: map<string, Value>)
    requires h.Valid() && red.Combined?
    requires ready ==> LensOf(h) == lens && t == Seen(lens, s) && Idle(red, a) && Level(red, s, lens) &&
                       ChildrenReadable(red, s, lens)
    modifies h, h.persistoid, h.config.storage
    ensures h.Kept()
    ensures r.Ok? ==> r.value.Keys == red.children.Keys && prevs.Keys == red.children.Keys
    ensures ready ==>
      h.Quiet() && (r.Ok? <==> ChildrenIdled(red, t, lens)) &&
      (r.Ok? ==> forall k | k in r.value :: Settled(red, t, k, r.value[k], lens)) &&
      (r.Ok? ==> forall k | k in prevs :: prevs[k] == Member(t, k))
    decreases red, 1
  {
    var ch := red.children;
    var next: map<string, Value> := map[];
    prevs := map[];
    var todo := ch.Keys;
    while todo != {}
      invariant todo <= ch.Keys && next.Keys == ch.Keys - todo && prevs.Keys == next.Keys
      invariant h.Valid() && h.Kept()
      invariant ready ==> h.Quiet()
      invariant ready ==> forall k | k in next :: Settled(red, t, k, next[k], lens)
      invariant ready ==> forall k | k in prevs :: prevs[k] == Member(t, k)
      decreases todo
    {
      var k :| k in todo;
      var out, prev := Child(h, red, s, k, a, lens, t, ready);
      if out.Thrown? {
        assert ready ==> !Settles(red, t, k, lens);
        return Thrown(out.error), prevs;
      }
      next := next[k := out.value];
      prevs := prevs[k := prev];
      todo := todo - {k};
    }
    if ready {
      forall k | k in ch ensures Settles(red, t, k, lens) {
        assert k in next && Settled(red, t, k, next[k], lens);
      }
    }
    r := Ok(next);
  }

  /**
   * One child of a combined reducer: its field of `s` read through the get
   * trap (`prev`), the child run on it, and undefined refused.
   */
  method Child(h: Restorer, red: Reducer, s: Value, k: string, a: Action,
               ghost lens: Lens, ghost t: Value, ghost ready: bool)
    returns (r: Outcome<Value>, prev: Value)
    requires h.Valid() && red.Combined? && k in red.children
    requires ready ==> LensOf(h) == lens && t == Seen(lens, s) && Idle(red.children[k], a) && Level(red, s, lens) &&
                       Readable(red.children[k], Member(t, k), lens)
    modifies h, h.persistoid, h.config.storage
    ensures h.Kept()
    ensures r.Ok? ==> r.value != Undef
    ensures ready ==>
      h.Quiet() && (r.Ok? <==> Settles(red, t, k, lens)) &&
      (r.Ok? ==> Settled(red, t, k, r.value, lens) && prev == Member(t, k))
    decreases red, 0
  {
    var got := h.Get(s, k);
    if got.Thrown? {
      return got, Undef;
    }
    prev := got.value;
    r := Run(h, red.children[k], prev, a);
    if r.Ok? && r.value == Undef {
      r := Thrown(UNDEFINED_SLICE);
    }
  }

  lemma IdledThrows(red: Reducer, state: Value, lens: Lens)
    requires red.Combined?
    requires var t := Seen(lens, Defaulted(state)); Nullish(t) || !ChildrenIdled(red, t, lens)
    ensures Idled(red, state, lens) == None
  {
  }

  /**
   * A combined reducer's result from its children's idle results `next`,
   * the fields `prevs` they read and the key count of the state it read.
   */
  lemma IdledFromChildren(red: Reducer, state: Value, lens: Lens, next: map<string, Value>,
                          prevs: map<string, Value>, count: nat)
    requires red.Combined? && next.Keys == red.children.Keys && prevs.Keys == red.children.Keys
    requires var t := Seen(lens, Defaulted(state));
      !Nullish(t) && count == |OwnKeys(t)| &&
      (forall k | k in next :: Settled(red, t, k, next[k], lens)) &&
      (forall k | k in prevs :: prevs[k] == Member(t, k))
    ensures Idled(red, state, lens) == Some(if Changed(next, prevs, count) then Obj(next) else Defaulted(state))
  {
    var t := Seen(lens, Defaulted(state));
    ReadFields(red, t, prevs);
    SettledChildren(red, t, lens, next);
    IdledLevel(red, state, lens);
  }

  /** The fields the children read, gathered one by one, are the level's fields. */
  lemma ReadFields(red: Reducer, t: Value, prevs: map<string, Value>)
    requires red.Combined? && prevs.Keys == red.children.Keys
    requires forall k | k in prevs :: prevs[k] == Member(t, k)
    ensures prevs == Fields(red, t)
  {
  }

  /** A combined level over a non-nullish state whose children all run idle. */
  lemma IdledLevel(red: Reducer, state: Value, lens: Lens)
    requires red.Combined?
    requires var t := Seen(lens, Defaulted(state));
      !Nullish(t) && forall k | k in red.children :: ChildIdled(red.children[k], Member(t, k), lens)
    ensures var t := Seen(lens, Defaulted(state)); var next := IdledChildren(red, t, lens);
      Idled(red, state, lens) == Some(if Changed(next, Fields(red, t), |OwnKeys(t)|) then Obj(next) else Defaulted(state))
  {
  }

  /** Children that all settle make the combined level idle, with `next` as their results. */
  lemma SettledChildren(red: Reducer, t: Value, lens: Lens, next: map<string, Value>)
    requires red.Combined? && next.Keys == red.children.Keys
    requires forall k | k in next :: Settled(red, t, k, next[k], lens)
    ensures forall k | k in red.children :: ChildIdled(red.children[k], Member(t, k), lens)
    ensures next == IdledChildren(red, t, lens)
  {
    var idled := IdledChildren(red, t, lens);
    forall k | k in next ensures next[k] == idled[k] && ChildIdled(red.children[k], Member(t, k), lens) {
      assert Settled(red, t, k, next[k], lens);
    }
    assert next.Keys == idled.Keys;
  }
}
