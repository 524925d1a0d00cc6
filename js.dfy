/**
 * The small slice of JavaScript values the persistence engine works on:
 * primitives, plain objects, arrays, the lazy views made by createLazy and
 * the `{ valueOf }` wrappers made by asLazy.  Numbers are integers.
 */
module Js {

  datatype Option<T> = None | Some(value: T)
  {
    function GetOr(default: T): T
    {
      if Some? then value else default
    }
  }

  /** The outcome of a JavaScript expression that may throw. */
  datatype Outcome<T> = Ok(value: T) | Thrown(error: string)

  /**
   * The target object behind each Proxy, `{}` when created; its identity is
   * the proxy's identity.  Only the preventExtensions trap writes it.
   */
  class ProxyTarget
  {
    var props: map<string, Value>
    var extensible: bool

    constructor ()
      ensures props == map[] && extensible
    {
      props := map[];
      extensible := true;
    }
  }

  datatype Value =
    | Undef
    | Null
    | Bool(b: bool)
    | Num(n: int)
    | Str(s: string)
    | Obj(fields: map<string, Value>)
    | Arr(items: seq<Value>)
      /** A view made by createLazy: the proxy (identified by its target) and the supplier it calls. */
    | View(target: ProxyTarget, supplier: Supplier)
      /** The `{ valueOf: () => inner }` object built by asLazy. */
    | Boxed(inner: Value)

  /**
   * The suppliers handed to createLazy, as data.  A supplier that reads a
   * restore closure names that closure's state object (`cell`).
   */
  datatype Supplier =
      /** `() => nextState` */
    | Fixed(value: Value)
      /** `restoreItem(initialState)` */
    | Restore(cell: object, initial: Value)
      /** `createPropProxy(key)`: the field `key` of the restored state, falling back to the initial one */
    | Field(cell: object, initial: Value, key: string)

  predicate Nullish(v: Value)
  {
    v.Undef? || v.Null?
  }

  /** `!!v` */
  predicate Truthy(v: Value)
  {
    match v
    case Undef => false
    case Null => false
    case Bool(b) => b
    case Num(n) => n != 0
    case Str(s) => s != ""
    case _ => true
  }

  /** `typeof v === 'object'` (false for null) */
  predicate IsObject(v: Value)
  {
    v.Obj? || v.Arr? || v.View? || v.Boxed?
  }

  /** `a ?? b` */
  function Coalesce(a: Value, b: Value): Value
  {
    if Nullish(a) then b else a
  }

  /** `Array.prototype.includes` on a list of property names. */
  predicate Includes(list: seq<string>, k: string)
  {
    k in list
  }

  // ---------------------------------------------------------------------
  // Property names of array elements and string characters.

  predicate IsDigit(c: char)
  {
    '0' <= c <= '9'
  }

  predicate AllDigits(s: string)
  {
    forall i | 0 <= i < |s| :: IsDigit(s[i])
  }

  function Digit(d: nat): char
    requires d < 10
  {
    "0123456789"[d]
  }

  /** The decimal text of a natural number, as `String(n)` writes it. */
  function NatToString(n: nat): string
    decreases n
  {
    if n < 10 then [Digit(n)] else NatToString(n / 10) + [Digit(n % 10)]
  }

  /** The value of a run of decimal digits. */
  function DigitsValue(s: string): nat
    requires AllDigits(s)
  {
    if s == [] then 0 else 10 * DigitsValue(s[..|s| - 1]) + (s[|s| - 1] as int - '0' as int)
  }

  /** A canonical array index: digits, no leading zero except for "0" itself. */
  function ParseIndex(s: string): Option<nat>
  {
    if s != [] && AllDigits(s) && (s[0] != '0' || |s| == 1) then Some(DigitsValue(s)) else None
  }

  lemma {:induction false} NatToStringShape(n: nat)
    ensures |NatToString(n)| >= 1 && AllDigits(NatToString(n))
    ensures NatToString(n)[0] == '0' ==> n == 0 && |NatToString(n)| == 1
    ensures DigitsValue(NatToString(n)) == n
    decreases n
  {
    if n >= 10 {
      var s := NatToString(n);
      NatToStringShape(n / 10);
      assert s[..|s| - 1] == NatToString(n / 10);
      assert s[0] == NatToString(n / 10)[0];
    }
  }

  /** Reading an index back from its text gives the index. */
  lemma ParseIndexRoundTrip(n: nat)
    ensures ParseIndex(NatToString(n)) == Some(n)
  {
    NatToStringShape(n);
  }

  /** `String(n)` for an integer. */
  function IntToString(n: int): string
  {
    if n < 0 then "-" + NatToString(-n) else NatToString(n)
  }

  /** `Number(s)` for the decimal texts the model reads: an optional minus sign and digits. */
  function ParseDecimal(s: string): Option<int>
  {
    if s != [] && s[0] == '-' && |s| > 1 && AllDigits(s[1..]) then Some(0 - DigitsValue(s[1..]) as int)
    else if s != [] && AllDigits(s) then Some(DigitsValue(s))
    else None
  }

  /** `Number(String(n)) === n` */
  lemma DecimalRoundTrip(n: int)
    ensures ParseDecimal(IntToString(n)) == Some(n)
  {
    if n < 0 {
      NatToStringShape(-n);
      ParseNegative(NatToString(-n));
    } else {
      NatToStringShape(n);
      ParseDigits(NatToString(n));
    }
  }

  lemma ParseDigits(s: string)
    requires s != [] && AllDigits(s)
    ensures ParseDecimal(s) == Some(DigitsValue(s))
  {
    assert IsDigit(s[0]);
  }

  lemma ParseNegative(digits: string)
    requires digits != [] && AllDigits(digits)
    ensures ParseDecimal("-" + digits) == Some(0 - DigitsValue(digits) as int)
  {
    var s := "-" + digits;
    assert s[0] == '-' && s[1..] == digits;
  }

  /** A leading digit other than '0' makes a positive value. */
  lemma {:induction false} LeadingNonZeroPositive(s: string)
    requires s != [] && AllDigits(s) && s[0] != '0'
    ensures DigitsValue(s) > 0
    decreases |s|
  {
    if |s| > 1 {
      var front := s[..|s| - 1];
      assert front[0] == s[0];
      LeadingNonZeroPositive(front);
    }
  }

  /** A canonical digit string is the text of its value. */
  lemma {:induction false} CanonicalDigits(s: string)
    requires s != [] && AllDigits(s) && (s[0] != '0' || |s| == 1)
    ensures NatToString(DigitsValue(s)) == s
    decreases |s|
  {
    var front := s[..|s| - 1];
    var d := s[|s| - 1] as int - '0' as int;
    assert IsDigit(s[|s| - 1]);
    assert Digit(d) == s[|s| - 1];
    if |s| > 1 {
      assert front[0] == s[0];
      LeadingNonZeroPositive(front);
      CanonicalDigits(front);
      var n := DigitsValue(s);
      assert n == 10 * DigitsValue(front) + d;
      assert n / 10 == DigitsValue(front) && n % 10 == d;
      assert s == front + [s[|s| - 1]];
    } else {
      assert s == [s[0]];
    }
  }

  /** The property names `0`, `1`, ... of a sequence of length n. */
  function IndexKeys(n: nat): set<string>
  {
    set i | 0 <= i < n :: NatToString(i)
  }

  // ---------------------------------------------------------------------
  // Property access.  A view's properties come from its traps, which call
  // its supplier; those are modelled in module Lazy, so here a view (and an
  // asLazy wrapper, whose only property is a function) has no data properties.

  /** `v[k]` on a value that is not a lazy view. */
  function Member(v: Value, k: string): Value
  {
    match v
    case Obj(m) => if k in m then m[k] else Undef
    case Arr(items) =>
      if k == "length" then Num(|items|)
      else (match ParseIndex(k)
            case Some(i) => if i < |items| then items[i] else Undef
            case None => Undef)
    case Str(s) =>
      if k == "length" then Num(|s|)
      else (match ParseIndex(k)
            case Some(i) => if i < |s| then Str([s[i]]) else Undef
            case None => Undef)
    case _ => Undef
  }

  /** `Object.keys(v)`: the enumerable own property names. */
  function OwnKeys(v: Value): set<string>
  {
    match v
    case Obj(m) => m.Keys
    case Arr(items) => IndexKeys(|items|)
    case Str(s) => IndexKeys(|s|)
    case _ => {}
  }

  /** `Reflect.ownKeys(v)` / `Object.getOwnPropertyNames(v)`: own names, including `length`. */
  function PropertyNames(v: Value): set<string>
  {
    match v
    case Arr(items) => IndexKeys(|items|) + {"length"}
    case Str(s) => IndexKeys(|s|) + {"length"}
    case _ => OwnKeys(v)
  }

  /** A name is an index name of a sequence of length n exactly when it parses to an index below n. */
  lemma IndexKeyIff(n: nat, k: string)
    ensures k in IndexKeys(n) <==> ParseIndex(k).Some? && ParseIndex(k).value < n
  {
    if k in IndexKeys(n) {
      var i :| 0 <= i < n && k == NatToString(i);
      ParseIndexRoundTrip(i);
    }
    if ParseIndex(k).Some? && ParseIndex(k).value < n {
      CanonicalDigits(k);
      assert k == NatToString(ParseIndex(k).value);
    }
  }

  /** `{ ...v }`: the enumerable own properties, copied. */
  function Spread(v: Value): map<string, Value>
  {
    map k | k in OwnKeys(v) :: Member(v, k)
  }

  /** Every own key of an object is readable through Member. */
  lemma SpreadOfObject(m: map<string, Value>)
    ensures Spread(Obj(m)) == m
  {
  }
}
