/**
 * persistableProxy: the older view factory.  A persistable proxy resolves to
 * what `getItem` returns, or to its initial state when that is null or
 * undefined; a combined proxy does the same for a whole state and hands out
 * one cached persistable proxy per field.
 *
 * Both proxies sit over an empty object of their own (`self`), which the
 * engine checks every trap result against.  Their `set` traps pass the proxy
 * itself as the receiver of `Reflect.set`, so a write lands on `self` and not
 * on the resolved object: `Set` models that, and `WriteThrough` models the
 * write to the resolved object that the traps evidently aim at.
 */
module PersistableProxy {
  import opened Js
  import opened Lazy
  import opened Slice

  const PERSISTED: Prop := Sym("persisted")
  const COMBINED: Prop := Sym("combined")

  const NOT_CALLABLE: string := "TypeError: getItem is not a function"
  const GET_ON_PRIMITIVE: string := "TypeError: Reflect.get called on non-object"
  const SET_ON_PRIMITIVE: string := "TypeError: Reflect.set called on non-object"
  const IN_ON_PRIMITIVE: string := "TypeError: Cannot use 'in' operator to search for a key in a primitive"
  const TRAP_INVARIANT: string := "TypeError: proxy trap result is inconsistent with the proxy target"

  /** A JavaScript object the proxies resolve to; writes through them change it in place. */
  class Box
  {
    var value: Value

    constructor (value: Value)
      ensures this.value == value
    {
      this.value := value;
    }
  }

  /** The `getItem` argument: a function returning what a box holds, or a value that is not a function. */
  datatype Fetcher = Stored(source: Box) | Uncallable
  {
    function Boxes(): set<Box>
    {
      if Stored? then {source} else {}
    }
  }

  /** Where a resolved state lives: a whole box, or field `name` of the object in a box. */
  datatype Place = Whole(box: Box) | FieldAt(box: Box, name: string)

  function Read(p: Place): Value
    reads p.box
  {
    match p
    case Whole(b) => b.value
    case FieldAt(b, name) => Member(b.value, name)
  }

  /** `getPersisted()` of a proxy with its own getItem: the fetched object, or the initial one when that is nullish. */
  function Resolve(f: Fetcher, initial: Box): (r: Outcome<Place>)
    reads f.Boxes(), initial
    ensures f.Uncallable? ==> r == Thrown(NOT_CALLABLE)
    ensures f.Stored? ==>
      r.Ok? && r.value.Whole? && Read(r.value) == (if Nullish(f.source.value) then initial.value else f.source.value)
  {
    match f
    case Uncallable => Thrown(NOT_CALLABLE)
    case Stored(s) => Ok(if Nullish(s.value) then Whole(initial) else Whole(s))
  }

  /** A property the set trap defined on the proxy's own `self` object; `locked` ones are neither writable nor configurable. */
  datatype Shadow = Shadow(value: Value, locked: bool)

  /** What a get trap returns: the resolver function, a value, or a persistable proxy. */
  datatype Reply = Resolver | Got(value: Value) | Proxied(view: PersistableView)

  /** The `getItem` of a persistable proxy: its own, or the combined proxy's `() => getPersisted()[prop]`. */
  datatype Getter = Top(fetcher: Fetcher) | Through(parent: CombinedView, name: string)

  /** `Reflect.get(target, prop)` on an object, getters aside. */
  function ReflectGet(t: Value, prop: Prop): Value
  {
    match prop
    case Key(k) => Member(t, k)
    case Sym(_) => Undef
  }

  /** `prop in t` on an object; createLazy views are not looked into. */
  function HasProp(t: Value, prop: Prop): bool
  {
    match HasTrap(prop, t)
    case Now(b) => b
    case Ask(_) => false
  }

  /** `Object.getOwnPropertyDescriptor(t, prop)` on a non-nullish value; createLazy views are not looked into. */
  function OwnOf(t: Value, prop: Prop): Option<Descriptor>
    requires !Nullish(t)
  {
    if t.View? then None else OwnDescriptor(prop, t)
  }

  /** `{ ...descriptor, configurable: true }`, completed: an absent property reads as an undefined, read-only one. */
  function Reconfigured(d: Option<Descriptor>): (r: Descriptor)
    ensures r.configurable
    ensures d.Some? ==> r.value == d.value.value && r.writable == d.value.writable && r.enumerable == d.value.enumerable
    ensures d.None? ==> r == Descriptor(Some(Undef), false, false, true)
  {
    match d
    case Some(x) => x.(configurable := true)
    case None => Descriptor(Some(Undef), false, false, true)
  }

  /**
   * The engine's check of a getOwnPropertyDescriptor trap result against
   * the proxy's own property: a locked property must be reported exactly,
   * and a property may be reported non-configurable only if it is a locked
   * one.
   */
  function Validated(reported: Option<Descriptor>, own: Option<Shadow>): (r: Outcome<Option<Descriptor>>)
    ensures r.Ok? ==> r.value == reported
    ensures own.None? ==> (r.Ok? <==> reported.None? || reported.value.configurable)
    ensures own.Some? && own.value.locked && reported.Some? && reported.value.configurable ==> r.Thrown?
    ensures own.Some? && own.value.locked && reported.None? ==> r.Thrown?
  {
    match own
    case None =>
      if reported.Some? && !reported.value.configurable then Thrown(TRAP_INVARIANT) else Ok(reported)
    case Some(s) =>
      if s.locked then
        if reported == Some(Descriptor(Some(s.value), false, false, false)) then Ok(reported) else Thrown(TRAP_INVARIANT)
      else if reported.Some? && !reported.value.configurable then Thrown(TRAP_INVARIANT)
      else Ok(reported)
  }

  function ShadowOf(shadow: map<string, Shadow>, prop: Prop): Option<Shadow>
  {
    if prop.Key? && prop.name in shadow then Some(shadow[prop.name]) else None
  }

  /** The engine's check of a get trap result: a locked property must be returned as it is. */
  function GetChecked(shadow: map<string, Shadow>, prop: Prop, reply: Reply): (r: Outcome<Reply>)
    ensures ShadowOf(shadow, prop).None? ==> r == Ok(reply)
    ensures r.Ok? ==> r.value == reply
  {
    match ShadowOf(shadow, prop)
    case Some(s) => if s.locked && reply != Got(s.value) then Thrown(TRAP_INVARIANT) else Ok(reply)
    case None => Ok(reply)
  }

  /** The engine's check of a has trap result: a locked property cannot be reported absent. */
  function HasChecked(shadow: map<string, Shadow>, prop: Prop, b: bool): Outcome<bool>
  {
    match ShadowOf(shadow, prop)
    case Some(s) => if s.locked && !b then Thrown(TRAP_INVARIANT) else Ok(b)
    case None => Ok(b)
  }

  /**
   * What `Reflect.set(target, k, v, proxy)` does once the target `t` is
   * resolved: a read-only own property refuses; otherwise the proxy's own
   * descriptor for k (its trap's `reported` one, checked against `self`)
   * decides: a read-only one refuses, a writable one gets its value
   * replaced on `self` (locked when `self` did not have k), and none at all
   * makes k an ordinary property of `self`.  None means refused.
   */
  function Assigned(t: Value, k: string, v: Value, reported: Option<Descriptor>, shadow: map<string, Shadow>): Outcome<Option<Shadow>>
    requires !Nullish(t)
  {
    var own := OwnOf(t, Key(k));
    if own.Some? && !own.value.writable then Ok(None)
    else
      match Validated(reported, ShadowOf(shadow, Key(k)))
      case Thrown(e) => Thrown(e)
      case Ok(existing) =>
        match existing
        case Some(e) =>
          if !e.writable then Ok(None)
          else Ok(Some(if k in shadow then Shadow(v, shadow[k].locked) else Shadow(v, true)))
        case None => Ok(Some(Shadow(v, false)))
  }

  /** `x[k] = v` on a plain object or an in-bounds array index; anything else is left as it is. */
  function Assign(x: Value, k: string, v: Value): (r: Value)
    ensures x.Obj? ==> r == Obj(x.fields[k := v])
  {
    match x
    case Obj(m) => Obj(m[k := v])
    case Arr(items) =>
      (match ParseIndex(k)
       case Some(i) => if i < |items| then Arr(items[i := v]) else x
       case None => x)
    case _ => x
  }

  // ---------------------------------------------------------------------
  // createPersistableProxy

  class PersistableView
  {
    const getter: Getter
    const initial: Box
    var shadow: map<string, Shadow>

    /** `createPersistableProxy(initialState, getItem)`; `self` holds only the PERSISTED tag. */
    constructor (getter: Getter, initial: Box)
      ensures this.getter == getter && this.initial == initial && shadow == map[] && AllLocked()
    {
      this.getter := getter;
      this.initial := initial;
      shadow := map[];
    }

    /** The objects its resolution reads. */
    function Boxes(): set<Box>
    {
      {initial} + match getter
        case Top(f) => f.Boxes()
        case Through(p, _) => {p.initial} + p.fetcher.Boxes()
    }

    /** A child's initial state is its own object, not one its parent resolves to. */
    predicate Valid()
    {
      getter.Through? ==> initial !in getter.parent.Boxes()
    }

    /** The set trap only ever leaves locked properties on `self`. */
    ghost predicate AllLocked()
      reads this
    {
      forall k | k in shadow :: shadow[k].locked
    }

    /** Where `getPersisted()` finds the state. */
    function Locate(): Outcome<Place>
      reads Boxes()
    {
      match getter
      case Top(f) => Resolve(f, initial)
      case Through(p, k) =>
        match p.Locate()
        case Thrown(e) => Thrown(e)
        case Ok(place) =>
          var t := Read(place);
          if Nullish(t) then Thrown(NULL_PROPERTY)
          else if Nullish(Member(t, k)) then Ok(Whole(initial))
          else Ok(FieldAt(place.box, k))
    }

    /** `getPersisted()` */
    function Persisted(): Outcome<Value>
      reads Boxes()
    {
      match Locate()
      case Thrown(e) => Thrown(e)
      case Ok(place) => Ok(Read(place))
    }

    /** The get trap: toJSON gives the resolver, PERSISTED the tag, anything else `Reflect.get` on the resolved state. */
    function Get(prop: Prop): Outcome<Reply>
      reads this, Boxes()
    {
      if prop == Key(TO_JSON) then GetChecked(shadow, prop, Resolver)
      else if prop == PERSISTED then GetChecked(shadow, prop, Got(Bool(true)))
      else match Persisted()
        case Thrown(e) => Thrown(e)
        case Ok(t) =>
          if !IsObject(t) then Thrown(GET_ON_PRIMITIVE) else GetChecked(shadow, prop, Got(ReflectGet(t, prop)))
    }

    /** The getOwnPropertyDescriptor trap: the resolved state's descriptor, made configurable. */
    function Describe(prop: Prop): Outcome<Option<Descriptor>>
      reads this, Boxes()
    {
      match Persisted()
      case Thrown(e) => Thrown(e)
      case Ok(t) =>
        if Nullish(t) then Thrown(NULL_TO_OBJECT)
        else Validated(Some(Reconfigured(OwnOf(t, prop))), ShadowOf(shadow, prop))
    }

    /** The has trap: `prop in getPersisted()`. */
    function Has(prop: Prop): Outcome<bool>
      reads this, Boxes()
    {
      match Persisted()
      case Thrown(e) => Thrown(e)
      case Ok(t) => if !IsObject(t) then Thrown(IN_ON_PRIMITIVE) else HasChecked(shadow, prop, HasProp(t, prop))
    }

    /**
     * The set trap as written: the resolved state never changes.  A write
     * to one of its own writable properties is defined, locked, on `self`;
     * a write to a property it lacks is refused, and so is any write to a
     * property already locked (the descriptor trap then contradicts `self`).
     */
    method Set(k: string, v: Value) returns (r: Outcome<bool>)
      requires AllLocked()
      modifies this
      ensures AllLocked() && Persisted() == old(Persisted())
      ensures old(Persisted()).Thrown? ==> r == Thrown(old(Persisted()).error) && shadow == old(shadow)
      ensures old(Persisted()).Ok? && !IsObject(old(Persisted()).value) ==> r == Thrown(SET_ON_PRIMITIVE) && shadow == old(shadow)
      ensures r == Ok(true) ==> k !in old(shadow) && shadow == old(shadow)[k := Shadow(v, true)]
      ensures r != Ok(true) ==> shadow == old(shadow)
      ensures old(Persisted()).Ok? && old(Persisted()).value.Obj? ==>
        (r == Ok(true) <==> k in old(Persisted()).value.fields && k !in old(shadow))
    {
      var place := Locate();
      if place.Thrown? {
        return Thrown(place.error);
      }
      var t := Read(place.value);
      if !IsObject(t) {
        return Thrown(SET_ON_PRIMITIVE);
      }
      var outcome := Assigned(t, k, v, Some(Reconfigured(OwnOf(t, Key(k)))), shadow);
      match outcome
      case Thrown(e) =>
        r := Thrown(e);
      case Ok(None) =>
        r := Ok(false);
      case Ok(Some(s)) =>
        shadow := shadow[k := s];
        r := Ok(true);
    }

    /**
     * The write the set trap evidently intends: `getPersisted()[k] = v` on
     * the resolved object itself, so the next read of k sees v.
     */
    method WriteThrough(k: string, v: Value) returns (r: Outcome<bool>)
      requires Valid()
      modifies Boxes()
      ensures old(Persisted()).Thrown? ==> r == Thrown(old(Persisted()).error)
      ensures old(Persisted()).Ok? && !IsObject(old(Persisted()).value) ==> r == Thrown(SET_ON_PRIMITIVE)
      ensures old(Persisted()).Ok? && old(Persisted()).value.Obj? ==>
        r == Ok(true) && Persisted() == Ok(Obj(old(Persisted()).value.fields[k := v]))
      ensures old(Persisted()).Ok? && old(Persisted()).value.Obj? && k != TO_JSON && ShadowOf(shadow, Key(k)).None? ==>
        Get(Key(k)) == Ok(Got(v))
    {
      var place := Locate();
      if place.Thrown? {
        return Thrown(place.error);
      }
      var t := Read(place.value);
      if !IsObject(t) {
        return Thrown(SET_ON_PRIMITIVE);
      }
      r := Ok(true);
      match place.value
      case Whole(b) =>
        b.value := Assign(t, k, v);
      case FieldAt(b, n) =>
        b.value := Assign(b.value, n, Assign(t, k, v));
      ReadsBack(k, v);
    }

    /** Once the resolved object holds v at k, the get trap reads v there, unless `self` shadows k. */
    lemma ReadsBack(k: string, v: Value)
      ensures Persisted().Ok? && Persisted().value.Obj? && k in Persisted().value.fields &&
              Persisted().value.fields[k] == v && k != TO_JSON && ShadowOf(shadow, Key(k)).None? ==>
        Get(Key(k)) == Ok(Got(v))
    {
    }
  }

  // ---------------------------------------------------------------------
  // createCombinedProxy

  class CombinedView
  {
    const fetcher: Fetcher
    const initial: Box
    /** The fields of the initial state that hold persistable proxies already (those are not values of this model). */
    const tagged: map<string, PersistableView>
    /** `proxies`: the child cache */
    var proxies: map<string, PersistableView>
    var shadow: map<string, Shadow>

    /** `createCombinedProxy(initialState, getItem)`: an empty cache; `self` holds only the two tags. */
    constructor (fetcher: Fetcher, initial: Box, tagged: map<string, PersistableView>)
      ensures this.fetcher == fetcher && this.initial == initial && this.tagged == tagged
      ensures proxies == map[] && shadow == map[]
    {
      this.fetcher := fetcher;
      this.initial := initial;
      this.tagged := tagged;
      proxies := map[];
      shadow := map[];
    }

    function Boxes(): set<Box>
    {
      {initial} + fetcher.Boxes()
    }

    function Locate(): Outcome<Place>
      reads Boxes()
    {
      Resolve(fetcher, initial)
    }

    /** `getPersisted()` */
    function Persisted(): Outcome<Value>
      reads Boxes()
    {
      match Locate()
      case Thrown(e) => Thrown(e)
      case Ok(place) => Ok(Read(place))
    }

    /** Every cached child reads field `k` of this proxy, or is the initial state's own proxy for k. */
    ghost predicate CacheValid()
      reads this
    {
      forall k | k in proxies ::
        if k in tagged then proxies[k] == tagged[k]
        else proxies[k].getter == Through(this, k) && proxies[k].initial !in Boxes()
    }

    /**
     * The get trap.  toJSON gives the resolver; COMBINED and PERSISTED the
     * tags; another symbol `Reflect.get` on the resolved state.  A string
     * property gives its cached child; on the first read the child is made
     * and cached: the initial state's own proxy for it, if it has one, or a
     * new persistable proxy reading `getPersisted()[prop]` and falling back
     * to the initial field.
     */
    method Get(prop: Prop) returns (r: Outcome<Reply>)
      requires CacheValid()
      modifies this
      ensures CacheValid() && shadow == old(shadow)
      ensures prop == Key(TO_JSON) ==> r == GetChecked(shadow, prop, Resolver) && proxies == old(proxies)
      ensures prop == COMBINED || prop == PERSISTED ==> r == Ok(Got(Bool(true))) && proxies == old(proxies)
      ensures prop.Sym? ==> proxies == old(proxies)
      ensures prop.Key? && prop.name != TO_JSON && prop.name in old(proxies) ==>
        r == GetChecked(shadow, prop, Proxied(old(proxies)[prop.name])) && proxies == old(proxies)
      ensures prop.Key? && prop.name != TO_JSON && prop.name !in old(proxies) && !Nullish(initial.value) ==>
        prop.name in proxies && proxies == old(proxies)[prop.name := proxies[prop.name]] &&
        r == GetChecked(shadow, prop, Proxied(proxies[prop.name])) &&
        (prop.name in tagged ==> proxies[prop.name] == tagged[prop.name]) &&
        (prop.name !in tagged ==>
           fresh(proxies[prop.name]) && fresh(proxies[prop.name].initial) &&
           proxies[prop.name].initial.value == Member(initial.value, prop.name) && proxies[prop.name].Valid())
      ensures prop.Key? && prop.name != TO_JSON && prop.name !in old(proxies) && Nullish(initial.value) ==>
        r == Thrown(NULL_PROPERTY) && proxies == old(proxies)
    {
      if prop == Key(TO_JSON) {
        return GetChecked(shadow, prop, Resolver);
      }
      if prop == COMBINED || prop == PERSISTED {
        return Ok(Got(Bool(true)));
      }
      match prop
      case Sym(_) =>
        var t := Persisted();
        if t.Thrown? {
          return Thrown(t.error);
        }
        if !IsObject(t.value) {
          return Thrown(GET_ON_PRIMITIVE);
        }
        r := Ok(Got(Undef));
      case Key(k) =>
        if k in proxies {
          return GetChecked(shadow, prop, Proxied(proxies[k]));
        }
        if Nullish(initial.value) {
          return Thrown(NULL_PROPERTY);
        }
        if k in tagged {
          proxies := proxies[k := tagged[k]];
        } else {
          var field := new Box(Member(initial.value, k));
          var child := new PersistableView(Through(this, k), field);
          proxies := proxies[k := child];
        }
        r := GetChecked(shadow, prop, Proxied(proxies[k]));
    }

    /** The getOwnPropertyDescriptor trap: the resolved state's descriptor as it is. */
    function Describe(prop: Prop): Outcome<Option<Descriptor>>
      reads this, Boxes()
    {
      match Persisted()
      case Thrown(e) => Thrown(e)
      case Ok(t) =>
        if Nullish(t) then Thrown(NULL_TO_OBJECT) else Validated(OwnOf(t, prop), ShadowOf(shadow, prop))
    }

    /** The has trap: `prop in getPersisted()`. */
    function Has(prop: Prop): Outcome<bool>
      reads this, Boxes()
    {
      match Persisted()
      case Thrown(e) => Thrown(e)
      case Ok(t) => if !IsObject(t) then Thrown(IN_ON_PRIMITIVE) else HasChecked(shadow, prop, HasProp(t, prop))
    }

    /**
     * The set trap as written: the resolved state never changes.  A write
     * to a property the resolved state lacks becomes an ordinary property of
     * `self`; a write to one it has is defined on `self`, locked the first
     * time.
     */
    method Set(k: string, v: Value) returns (r: Outcome<bool>)
      modifies this
      ensures Persisted() == old(Persisted()) && proxies == old(proxies)
      ensures old(Persisted()).Thrown? ==> r == Thrown(old(Persisted()).error) && shadow == old(shadow)
      ensures old(Persisted()).Ok? && !IsObject(old(Persisted()).value) ==> r == Thrown(SET_ON_PRIMITIVE) && shadow == old(shadow)
      ensures r == Ok(true) ==> k in shadow && shadow == old(shadow)[k := shadow[k]] && shadow[k].value == v
      ensures r != Ok(true) ==> shadow == old(shadow)
      ensures old(Persisted()).Ok? && old(Persisted()).value.Obj? && k !in old(shadow) ==>
        r == Ok(true) && shadow[k].locked == (k in old(Persisted()).value.fields)
    {
      var place := Locate();
      if place.Thrown? {
        return Thrown(place.error);
      }
      var t := Read(place.value);
      if !IsObject(t) {
        return Thrown(SET_ON_PRIMITIVE);
      }
      var outcome := Assigned(t, k, v, OwnOf(t, Key(k)), shadow);
      match outcome
      case Thrown(e) =>
        r := Thrown(e);
      case Ok(None) =>
        r := Ok(false);
      case Ok(Some(s)) =>
        shadow := shadow[k := s];
        r := Ok(true);
    }

    /** The write the set trap evidently intends: `getPersisted()[k] = v` on the resolved object itself. */
    method WriteThrough(k: string, v: Value) returns (r: Outcome<bool>)
      modifies Boxes()
      ensures old(Persisted()).Thrown? ==> r == Thrown(old(Persisted()).error)
      ensures old(Persisted()).Ok? && !IsObject(old(Persisted()).value) ==> r == Thrown(SET_ON_PRIMITIVE)
      ensures old(Persisted()).Ok? && old(Persisted()).value.Obj? ==>
        r == Ok(true) && Persisted() == Ok(Obj(old(Persisted()).value.fields[k := v]))
    {
      var place := Locate();
      if place.Thrown? {
        return Thrown(place.error);
      }
      var t := Read(place.value);
      if !IsObject(t) {
        return Thrown(SET_ON_PRIMITIVE);
      }
      place.value.box.value := Assign(t, k, v);
      r := Ok(true);
    }
  }

  // ---------------------------------------------------------------------
  // Properties

  /** A proxy given directly to isPersisted, or any other value. */
  datatype Candidate = AValue(value: Value) | APersistable(view: PersistableView) | ACombined(combined: CombinedView)

  /** `isPersisted(obj)`: `obj[PERSISTED] === true`, which throws for null and undefined. */
  function IsPersisted(c: Candidate): (r: Outcome<bool>)
    reads if c.APersistable? then {c.view} + c.view.Boxes() else {}
  {
    match c
    case AValue(v) => if Nullish(v) then Thrown(NULL_PROPERTY) else Ok(false)
    case APersistable(p) => Ok(p.Get(PERSISTED) == Ok(Got(Bool(true))))
    case ACombined(_) => Ok(true)
  }

  /** Both kinds of proxy carry the PERSISTED tag; a persistable proxy never answers COMBINED with true. */
  lemma Tags(c: Candidate)
    ensures !c.AValue? ==> IsPersisted(c) == Ok(true)
    ensures c.AValue? ==> IsPersisted(c) == (if Nullish(c.value) then Thrown(NULL_PROPERTY) else Ok(false))
    ensures c.APersistable? ==> c.view.Get(COMBINED) != Ok(Got(Bool(true)))
  {
  }

  /**
   * getPersisted: an uncallable getItem throws; otherwise the fetched state
   * unless it is null or undefined, and then the initial state.
   */
  lemma FallsBack(p: PersistableView)
    requires p.getter.Top?
    ensures p.getter.fetcher.Uncallable? ==> p.Persisted() == Thrown(NOT_CALLABLE)
    ensures p.getter.fetcher.Stored? ==>
      p.Persisted() == Ok(Coalesce(p.getter.fetcher.source.value, p.initial.value))
  {
  }

  /**
   * A child reads field `prop` of its parent's resolved state, and falls
   * back to its own initial value when that field is null or undefined;
   * a nullish parent state throws.
   */
  lemma ChildFallsBack(c: CombinedView, child: PersistableView, k: string)
    requires child.getter == Through(c, k)
    ensures c.Persisted().Thrown? ==> child.Persisted() == c.Persisted()
    ensures c.Persisted().Ok? && Nullish(c.Persisted().value) ==> child.Persisted() == Thrown(NULL_PROPERTY)
    ensures c.Persisted().Ok? && !Nullish(c.Persisted().value) ==>
      child.Persisted() == Ok(Coalesce(Member(c.Persisted().value, k), child.initial.value))
  {
  }

  /** toJSON gives the resolver on both kinds of proxy, unless `self` holds a locked toJSON. */
  lemma ToJsonIsResolver(p: PersistableView)
    requires TO_JSON !in p.shadow
    ensures p.Get(Key(TO_JSON)) == Ok(Resolver)
  {
  }

  /**
   * After a successful write as written to a field whose value was not
   * already v, reading that field throws: `self` now holds it locked with
   * a value the get trap does not return.
   */
  lemma LockedFieldUnreadable(p: PersistableView, k: string, v: Value)
    requires k != TO_JSON && k in p.shadow && p.shadow[k] == Shadow(v, true)
    requires p.Persisted().Ok? && p.Persisted().value.Obj? && Member(p.Persisted().value, k) != v
    ensures p.Get(Key(k)) == Thrown(TRAP_INVARIANT)
  {
  }
}
