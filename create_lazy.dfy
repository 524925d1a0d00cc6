/**
 * createLazy: a Proxy over an empty target whose traps call a supplier.
 *
 * The traps are pure once the supplier has answered, so each one is a
 * function of the property asked for and of the value the supplier returned
 * (`got`).  Calling the supplier may restore a slice from storage; that
 * effect belongs to the restore helper (module Slice), which evaluates the
 * supplier and then applies these functions.
 */
module Lazy {
  import opened Js

  /** A property key: a string, or a symbol named by its description. */
  datatype Prop = Key(name: string) | Sym(description: string)

  const TO_JSON: string := "toJSON"
  const VALUE_OF: string := "valueOf"
  const TO_PRIMITIVE: Prop := Sym("Symbol.toPrimitive")

  /** `key && ...`: the empty string is the only falsy key. */
  predicate PropTruthy(p: Prop)
  {
    p.Sym? || p.name != ""
  }

  /**
   * What a `get` on a view yields.  A reply that still needs a supplier call
   * is returned as data: ForceView is `valueOf` of a nested view (its own
   * supplier called with no key), Forward is the same read on a view the
   * supplier returned.
   */
  datatype Reply =
      /** `() => getValue()` */
    | Thunk
      /** `toPrimitive(value)` */
    | Coercer(primitive: Value)
    | Plain(value: Value)
    | ForceView(view: Value)
    | Forward(view: Value, prop: Prop)

  /** A trap's answer, or the view whose own trap has to answer instead. */
  datatype Answer<T> = Now(value: T) | Ask(view: Value)

  /** A property descriptor; `value` is None for a method. */
  datatype Descriptor = Descriptor(value: Option<Value>, writable: bool, enumerable: bool, configurable: bool)

  // ---------------------------------------------------------------------
  // notSupported

  /** `notSupported(trap)()`: throws in development, otherwise reports failure. */
  function NotSupported(trap: string, dev: bool): (r: Outcome<bool>)
  {
    if dev then Thrown(trap + " is not supported") else Ok(false)
  }

  /** The set trap. */
  function SetTrap(dev: bool): Outcome<bool>
  {
    NotSupported("set", dev)
  }

  /** The defineProperty trap. */
  function DefinePropertyTrap(dev: bool): Outcome<bool>
  {
    NotSupported("defineProperty", dev)
  }

  /** The deleteProperty trap. */
  function DeletePropertyTrap(dev: bool): Outcome<bool>
  {
    NotSupported("deleteProperty", dev)
  }

  /**
   * No writing trap ever reports success: in development each throws an
   * error naming the trap, otherwise each returns false.
   */
  lemma WritesNeverSucceed(dev: bool)
    ensures SetTrap(dev) != Ok(true) && DefinePropertyTrap(dev) != Ok(true) && DeletePropertyTrap(dev) != Ok(true)
    ensures dev ==> SetTrap(dev).Thrown? && DefinePropertyTrap(dev).Thrown? && DeletePropertyTrap(dev).Thrown?
    ensures !dev ==> SetTrap(dev) == Ok(false) && DefinePropertyTrap(dev) == Ok(false) && DeletePropertyTrap(dev) == Ok(false)
  {
  }

  /** In development the error names the trap. */
  lemma DevelopmentMessages()
    ensures SetTrap(true) == Thrown("set is not supported")
    ensures DefinePropertyTrap(true) == Thrown("defineProperty is not supported")
    ensures DeletePropertyTrap(true) == Thrown("deleteProperty is not supported")
  {
    assert "set" + " is not supported" == "set is not supported";
    assert "defineProperty" + " is not supported" == "defineProperty is not supported";
    assert "deleteProperty" + " is not supported" == "deleteProperty is not supported";
  }

  // ---------------------------------------------------------------------
  // toPrimitive, with numbers restricted to integers

  datatype Hint = NumberHint | StringHint | DefaultHint

  /** The outcome of a coercion; `Number(None)` is NaN. */
  datatype Primitive = Number(n: Option<int>) | Text(s: string) | AsIs(v: Value)

  /** `Number(v)` for the primitives the model has; a text that is not an integer is NaN. */
  function ToNumber(v: Value): Option<int>
  {
    match v
    case Null => Some(0)
    case Bool(b) => Some(if b then 1 else 0)
    case Num(n) => Some(n)
    case Str(s) => if s == "" then Some(0) else ParseDecimal(s)
    case _ => None
  }

  /** `String(v)` for primitives. */
  function ToText(v: Value): string
  {
    match v
    case Undef => "undefined"
    case Null => "null"
    case Bool(b) => if b then "true" else "false"
    case Num(n) => IntToString(n)
    case Str(s) => s
    case _ => "[object Object]"
  }

  /** `toPrimitive(value)(hint)` */
  function ToPrimitive(value: Value, hint: Hint): Primitive
  {
    match hint
    case NumberHint => Number(ToNumber(value))
    case StringHint => Text(ToText(value))
    case DefaultHint => AsIs(value)
  }

  /** A number coerced to a string and back is the same number; a string coerced to a string is itself. */
  lemma CoercionRoundTrip(n: int, s: string)
    ensures ToPrimitive(Str(ToPrimitive(Num(n), StringHint).s), NumberHint) == Number(Some(n))
    ensures ToPrimitive(Str(s), StringHint) == Text(s)
    ensures ToPrimitive(Num(n), DefaultHint) == AsIs(Num(n))
  {
    DecimalRoundTrip(n);
    NatToStringShape(if n < 0 then -n else n);
  }

  // ---------------------------------------------------------------------
  // valueOf and asLazy

  /** `valueOf(v)`: falsy values and plain objects as they are, a wrapper unboxed, a view forced. */
  function Unwrap(v: Value): Reply
  {
    if !Truthy(v) then Plain(v)
    else match v
      case Boxed(inner) => Plain(inner)
      case View(_, _) => ForceView(v)
      case _ => Plain(v)
  }

  /** `typeof value?.valueOf === 'function'`: every value but nullish ones and objects with their own `valueOf` field. */
  predicate HasValueOfMethod(v: Value)
  {
    !Nullish(v) && !(v.Obj? && VALUE_OF in v.fields)
  }

  /** `asLazy(value)` */
  function AsLazy(v: Value): Value
  {
    if HasValueOfMethod(v) then v else Boxed(v)
  }

  /**
   * asLazy and valueOf are inverse: unwrapping what asLazy returns gives the
   * value back (a view gives its own supplier's value), and asLazy never
   * wraps twice.
   */
  lemma UnwrapAsLazy(v: Value)
    ensures !v.View? && !v.Boxed? ==> Unwrap(AsLazy(v)) == Plain(v)
    ensures v.View? ==> AsLazy(v) == v && Unwrap(AsLazy(v)) == ForceView(v)
    ensures AsLazy(AsLazy(v)) == AsLazy(v)
    ensures HasValueOfMethod(AsLazy(v))
  {
  }

  /** `isPersistable(v)`: membership of the registry of views createLazy made. */
  predicate IsPersistable(v: Value)
  {
    v.View?
  }

  /** Makes a view over a fresh target; it is registered, so isPersistable holds of it. */
  method CreateLazy(supplier: Supplier) returns (v: Value)
    ensures v.View? && v.supplier == supplier && IsPersistable(v)
    ensures fresh(v.target) && v.target.props == map[] && v.target.extensible
  {
    var target := new ProxyTarget();
    v := View(target, supplier);
  }

  // ---------------------------------------------------------------------
  // The reading traps

  /** The `get` trap never calls the supplier for these two names. */
  predicate CallsSupplier(prop: Prop)
  {
    prop != Key(TO_JSON) && prop != Key(VALUE_OF)
  }

  /** The `get` trap, given the supplier's value `got` for `prop` (unused when !CallsSupplier(prop)). */
  function GetTrap(prop: Prop, got: Value): (r: Reply)
  {
    if !CallsSupplier(prop) then Thunk
    else if Nullish(got) then Plain(Undef)
    else if !IsObject(got) then (if prop == TO_PRIMITIVE then Coercer(got) else Plain(got))
    else if got.View? then Forward(got, prop)
    else match prop
      case Key(k) => Unwrap(Member(got, k))
      case Sym(_) => Plain(Undef)
  }

  /** `has`: `prop in value` for objects, false otherwise. */
  function HasTrap(prop: Prop, got: Value): Answer<bool>
  {
    if Nullish(got) || !IsObject(got) then Now(false)
    else match got
      case View(_, _) => Ask(got)
      case Boxed(_) => Now(prop == Key(VALUE_OF))
      case _ => Now(prop.Key? && prop.name in PropertyNames(got))
  }

  /** `ownKeys`: `Reflect.ownKeys(value)` for objects, no keys otherwise. */
  function OwnKeysTrap(got: Value): Answer<set<string>>
  {
    if Nullish(got) || !IsObject(got) then Now({})
    else match got
      case View(_, _) => Ask(got)
      case Boxed(_) => Now({VALUE_OF})
      case _ => Now(PropertyNames(got))
  }

  /** `Object.getOwnPropertyDescriptor(value, prop)` as the engine finds it. */
  function OwnDescriptor(prop: Prop, got: Value): Option<Descriptor>
    requires !Nullish(got) && !got.View?
  {
    if prop.Sym? then None
    else
      var k := prop.name;
      match got
      case Obj(m) => if k in m then Some(Descriptor(Some(m[k]), true, true, true)) else None
      case Arr(items) =>
        if k == "length" then Some(Descriptor(Some(Num(|items|)), true, false, false))
        else if k in IndexKeys(|items|) then Some(Descriptor(Some(Member(got, k)), true, true, true))
        else None
      case Str(s) =>
        if k == "length" then Some(Descriptor(Some(Num(|s|)), false, false, false))
        else if k in IndexKeys(|s|) then Some(Descriptor(Some(Member(got, k)), false, true, false))
        else None
      case Boxed(_) => if k == VALUE_OF then Some(Descriptor(None, true, true, true)) else None
      case _ => None
  }

  /** `getOwnPropertyDescriptor`: undefined for a nullish value, otherwise the value's own descriptor made configurable. */
  function DescriptorTrap(prop: Prop, got: Value): Answer<Option<Descriptor>>
  {
    if Nullish(got) then Now(None)
    else if got.View? then Ask(got)
    else
      match OwnDescriptor(prop, got)
      case None => Now(None)
      case Some(d) => Now(Some(d.(configurable := true)))
  }

  /** Whether `Object.keys` keeps the name `k` the ownKeys trap listed: the descriptor trap reports it enumerable. */
  predicate Enumerable(k: string, got: Value)
  {
    match DescriptorTrap(Key(k), got)
    case Now(d) => d.Some? && d.value.enumerable
    case Ask(_) => false
  }

  /**
   * `Object.keys(view)` once the supplier returned `got`: the names the
   * ownKeys trap lists that the descriptor trap calls enumerable, going
   * through nested views over fixed values.  Through the view an object or
   * array lists the keys `Object.keys` gives for itself, a primitive none
   * and a boxed field its one `valueOf`.
   */
  function KeySetThrough(got: Value): (r: set<string>)
    ensures Nullish(got) || !IsObject(got) ==> r == {}
    ensures got.Boxed? ==> r == {VALUE_OF}
    ensures got.Obj? || got.Arr? ==> r == OwnKeys(got)
    ensures got.View? && got.supplier.Fixed? ==> r == KeySetThrough(got.supplier.value)
  {
    match OwnKeysTrap(got)
    case Now(keys) =>
      ListedKeys(got);
      set k | k in keys && Enumerable(k, got)
    case Ask(_) =>
      if got.View? && got.supplier.Fixed? then KeySetThrough(got.supplier.value) else {}
  }

  /** `Object.keys(view).length` once the supplier returned `got`. */
  function KeysThrough(got: Value): (r: nat)
    ensures Nullish(got) || !IsObject(got) ==> r == 0
    ensures got.Boxed? ==> r == 1
    ensures got.Obj? || got.Arr? ==> r == |OwnKeys(got)|
    ensures got.View? && got.supplier.Fixed? ==> r == KeysThrough(got.supplier.value)
  {
    |KeySetThrough(got)|
  }

  /** The names Object.keys keeps from the ownKeys trap of a value that is not a view. */
  lemma ListedKeys(got: Value)
    requires !got.View?
    ensures OwnKeysTrap(got).Now?
    ensures got.Obj? || got.Arr? ==> (set k | k in OwnKeysTrap(got).value && Enumerable(k, got)) == OwnKeys(got)
    ensures got.Boxed? ==> (set k | k in OwnKeysTrap(got).value && Enumerable(k, got)) == {VALUE_OF}
    ensures Nullish(got) || !IsObject(got) ==> OwnKeysTrap(got).value == {}
  {
    if got.Arr? {
      var listed := set k | k in OwnKeysTrap(got).value && Enumerable(k, got);
      forall k | k in OwnKeys(got)
        ensures k in listed
      {
        IndexKeyIff(|got.items|, k);
        assert ParseIndex("length").None?;
      }
    }
  }

  /** A nullish supplier value reads as undefined, has nothing, lists nothing and describes nothing. */
  lemma NullishViewIsEmpty(prop: Prop, got: Value)
    requires Nullish(got) && CallsSupplier(prop)
    ensures GetTrap(prop, got) == Plain(Undef)
    ensures HasTrap(prop, got) == Now(false)
    ensures OwnKeysTrap(got) == Now({})
    ensures DescriptorTrap(prop, got) == Now(None)
  {
  }

  /**
   * A primitive supplier value answers every string read with itself, and
   * Symbol.toPrimitive with a coercer; it has no properties for `has` and
   * `ownKeys`.
   */
  lemma PrimitiveViewReads(prop: Prop, got: Value)
    requires !Nullish(got) && !IsObject(got) && CallsSupplier(prop)
    ensures prop == TO_PRIMITIVE ==> GetTrap(prop, got) == Coercer(got)
    ensures prop.Key? ==> GetTrap(prop, got) == Plain(got)
    ensures HasTrap(prop, got) == Now(false) && OwnKeysTrap(got) == Now({})
  {
  }

  /**
   * An object supplier value answers a read with `valueOf` of its member:
   * a field boxed by asLazy comes back unboxed, a nested view is forced.
   */
  lemma ObjectViewReads(k: string, fields: map<string, Value>)
    requires CallsSupplier(Key(k))
    ensures k !in fields ==> GetTrap(Key(k), Obj(fields)) == Plain(Undef)
    ensures k in fields && fields[k].Boxed? ==> GetTrap(Key(k), Obj(fields)) == Plain(fields[k].inner)
    ensures k in fields && fields[k].View? ==> GetTrap(Key(k), Obj(fields)) == ForceView(fields[k])
    ensures k in fields && !fields[k].Boxed? && !fields[k].View? ==> GetTrap(Key(k), Obj(fields)) == Plain(fields[k])
  {
  }

  /** Every descriptor the trap reports is configurable. */
  lemma DescriptorsConfigurable(prop: Prop, got: Value)
    ensures DescriptorTrap(prop, got).Now? && DescriptorTrap(prop, got).value.Some? ==>
      DescriptorTrap(prop, got).value.value.configurable
  {
  }

  /**
   * For an object supplier value, `has`, `ownKeys` and
   * `getOwnPropertyDescriptor` agree: a name is listed exactly when it has a
   * descriptor, and found by `has` exactly then.
   */
  lemma ObjectTrapsAgree(k: string, got: Value)
    requires got.Obj? || got.Arr? || got.Boxed?
    ensures OwnKeysTrap(got).Now? && HasTrap(Key(k), got).Now? && DescriptorTrap(Key(k), got).Now?
    ensures k in OwnKeysTrap(got).value <==> DescriptorTrap(Key(k), got).value.Some?
    ensures HasTrap(Key(k), got).value <==> DescriptorTrap(Key(k), got).value.Some?
  {
  }

  // ---------------------------------------------------------------------
  // preventExtensions

  /**
   * The names preventExtensions copies onto the target: none for a nullish
   * value, `Reflect.ownKeys(value)` otherwise, which throws for a primitive.
   */
  function FrozenNames(got: Value): Answer<Outcome<set<string>>>
  {
    if Nullish(got) then Now(Ok({}))
    else if !IsObject(got) then Now(Thrown("TypeError: Reflect.ownKeys called on non-object"))
    else match OwnKeysTrap(got)
      case Now(names) => Now(Ok(names))
      case Ask(v) => Ask(v)
  }

  /**
   * The preventExtensions trap, given the names of the supplier's value:
   * sets each name to undefined on the target, then makes the target
   * non-extensible, so that later `ownKeys` answers match the target.
   */
  method PreventExtensions(target: ProxyTarget, names: Outcome<set<string>>) returns (r: Outcome<bool>)
    modifies target
    ensures names.Thrown? ==> r == Thrown(names.error) && target.props == old(target.props) && target.extensible == old(target.extensible)
    ensures names.Ok? ==> r == Ok(true) && !target.extensible
    ensures names.Ok? ==> target.props.Keys == old(target.props.Keys) + names.value
    ensures names.Ok? ==> forall k | k in names.value :: target.props[k] == Undef
    ensures names.Ok? ==> forall k | k in old(target.props) && k !in names.value :: target.props[k] == old(target.props[k])
  {
    if names.Thrown? {
      return Thrown(names.error);
    }
    var todo := names.value;
    while todo != {}
      invariant todo <= names.value
      invariant target.props.Keys == old(target.props.Keys) + (names.value - todo)
      invariant forall k | k in names.value - todo :: target.props[k] == Undef
      invariant forall k | k in old(target.props) && k !in names.value - todo :: target.props[k] == old(target.props[k])
      invariant target.extensible == old(target.extensible)
      decreases todo
    {
      var key :| key in todo;
      target.props := target.props[key := Undef];
      todo := todo - {key};
    }
    target.extensible := false;
    r := Ok(true);
  }

  /**
   * For an object value, preventExtensions copies exactly the names `ownKeys`
   * reports, so a frozen fresh target agrees with later `ownKeys` answers;
   * for a primitive, `ownKeys` reports no names while preventExtensions throws.
   */
  lemma FrozenNamesAreOwnKeys(got: Value)
    requires !Nullish(got) && !got.View?
    ensures IsObject(got) ==> OwnKeysTrap(got).Now? && FrozenNames(got) == Now(Ok(OwnKeysTrap(got).value))
    ensures !IsObject(got) ==> FrozenNames(got).Now? && FrozenNames(got).value.Thrown? && OwnKeysTrap(got) == Now({})
  {
  }
}
