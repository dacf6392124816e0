/**
 * The part of JavaScript's value semantics that the request handlers touch: values of a
 * parsed request body, truthiness, property reads, and the relational operator `>=`.
 * Numbers are integers; NaN is kept as a value of its own.
 */
module JsValue {
  import opened Wrappers
  import opened Text

  /** A value of a parsed JSON or multipart request body. */
  datatype Value =
    | Undefined
    | Null
    | Bool(b: bool)
    | Num(n: int)
    | NaN
    | Str(s: string)
    | Arr(elems: seq<Value>)
    | Obj(props: map<string, Value>)

  /** The six falsy values of JavaScript (ToBoolean). */
  const FalsyValues: set<Value> := {Undefined, Null, Bool(false), Num(0), NaN, Str("")}

  /** JavaScript truthiness, as used by `!x` and `x || y`. */
  function Truthy(v: Value): (r: bool)
    ensures r <==> v !in FalsyValues
  {
    match v
    case Undefined => false
    case Null => false
    case NaN => false
    case Bool(b) => b
    case Num(n) => n != 0
    case Str(s) => s != ""
    case Arr(_) => true
    case Obj(_) => true
  }

  /** `v` is `null` or `undefined`; reading a property of such a value throws a TypeError. */
  predicate Nullish(v: Value) {
    v.Undefined? || v.Null?
  }

  /**
   * `v.key` for a value that is not nullish. The keys the handlers read are neither array
   * indices nor names of built-in properties, so only an own property of an object is found.
   */
  function Prop(v: Value, key: string): Value
    requires !Nullish(v)
  {
    match v
    case Obj(m) => if key in m then m[key] else Undefined
    case _ => Undefined
  }

  /** A primitive value, the result of ToPrimitive. */
  datatype Primitive = PUndefined | PNull | PBool(b: bool) | PNum(n: int) | PNaN | PStr(s: string)

  /** A JavaScript number restricted to the integers, or NaN. */
  datatype Number = Finite(n: int) | NotANumber

  /** The numeral of an integer, as Number::toString writes it for magnitudes below 10^21. */
  function IntString(n: int): string {
    if n < 0 then "-" + DecimalString(-n) else DecimalString(n)
  }

  /** Array.prototype.join with the default separator ",". */
  function JoinWithCommas(parts: seq<string>): string {
    if parts == [] then ""
    else if |parts| == 1 then parts[0]
    else parts[0] + "," + JoinWithCommas(parts[1..])
  }

  /** Where the objects of a parsed body find `toString` and `valueOf`. */
  datatype Prototype =
    | ObjectPrototype  // JSON.parse builds ordinary objects that inherit Object.prototype
    | NoPrototype      // the multipart form parser builds them with Object.create(null)

  /**
   * Converting an object from a request body to a primitive (ToPrimitive or ToString).
   * Without a prototype there is no `toString` or `valueOf` to call, so it throws a TypeError.
   * With Object.prototype it throws when the object has an own `toString` key: that value is
   * not callable, and the inherited `valueOf` returns the object itself. Otherwise the
   * inherited `toString` gives "[object Object]".
   */
  function ObjectString(proto: Prototype, m: map<string, Value>): Option<string> {
    if proto == NoPrototype || "toString" in m then None else Some("[object Object]")
  }

  /**
   * What an array element becomes in Array.prototype.join: nullish elements become "".
   * None when converting the element throws.
   */
  function JoinElement(proto: Prototype, v: Value): Option<string> {
    match v
    case Undefined => Some("")
    case Null => Some("")
    case Bool(b) => Some(if b then "true" else "false")
    case Num(n) => Some(IntString(n))
    case NaN => Some("NaN")
    case Str(s) => Some(s)
    case Arr(es) =>
      var parts := seq(|es|, i requires 0 <= i < |es| => JoinElement(proto, es[i]));
      if forall i | 0 <= i < |parts| :: parts[i].Some? then
        Some(JoinWithCommas(seq(|parts|, i requires 0 <= i < |parts| && parts[i].Some? => parts[i].value)))
      else None
    case Obj(m) => ObjectString(proto, m)
  }

  /** ToString, as `String(v)` or `parseInt(v)` applies it; None when it throws. */
  function ToJsString(proto: Prototype, v: Value): Option<string> {
    match v
    case Undefined => Some("undefined")
    case Null => Some("null")
    case _ => JoinElement(proto, v)
  }

  /**
   * ToString of an object throws exactly when it has no prototype or an own `toString` key,
   * and an array holding such an object throws too.
   */
  lemma ToJsStringThrows(proto: Prototype, m: map<string, Value>, es: seq<Value>)
    ensures ToJsString(proto, Obj(m)).None? <==> proto == NoPrototype || "toString" in m
    ensures (exists i :: 0 <= i < |es| && es[i] == Obj(m)) && ToJsString(proto, Obj(m)).None?
            ==> ToJsString(proto, Arr(es)).None?
  {
    if (exists i :: 0 <= i < |es| && es[i] == Obj(m)) && ToJsString(proto, Obj(m)).None? {
      var i :| 0 <= i < |es| && es[i] == Obj(m);
      var parts := seq(|es|, j requires 0 <= j < |es| => JoinElement(proto, es[j]));
      assert parts[i].None?;
    }
  }

  /** ToString of a string is the string, and of an array of strings their comma-joined text. */
  lemma ToJsStringOfStrings(s: string, es: seq<Value>, proto: Prototype)
    requires forall i :: 0 <= i < |es| ==> es[i].Str?
    ensures ToJsString(proto, Str(s)) == Some(s)
    ensures ToJsString(proto, Arr(es)) == Some(JoinWithCommas(seq(|es|, i requires 0 <= i < |es| => es[i].s)))
  {
    var parts := seq(|es|, i requires 0 <= i < |es| => JoinElement(proto, es[i]));
    assert forall i | 0 <= i < |parts| :: parts[i] == Some(es[i].s);
    assert seq(|parts|, i requires 0 <= i < |parts| && parts[i].Some? => parts[i].value)
           == seq(|es|, i requires 0 <= i < |es| => es[i].s);
  }

  /**
   * ToPrimitive with hint "number" on a value JSON.parse produced: arrays become their joined
   * string, objects "[object Object]"; None when the conversion throws a TypeError.
   */
  function ToPrimitive(v: Value): Option<Primitive> {
    match v
    case Undefined => Some(PUndefined)
    case Null => Some(PNull)
    case Bool(b) => Some(PBool(b))
    case Num(n) => Some(PNum(n))
    case NaN => Some(PNaN)
    case Str(s) => Some(PStr(s))
    case Arr(_) =>
      if JoinElement(ObjectPrototype, v).Some? then Some(PStr(JoinElement(ObjectPrototype, v).value)) else None
    case Obj(m) =>
      if ObjectString(ObjectPrototype, m).Some? then Some(PStr(ObjectString(ObjectPrototype, m).value)) else None
  }

  /** The white space and line terminators that StringToNumber trims. */
  predicate IsJsSpace(c: char) {
    c in {'\t', '\n', '\U{000B}', '\U{000C}', '\r', ' ', '\U{00A0}', '\U{1680}', '\U{2028}',
          '\U{2029}', '\U{202F}', '\U{205F}', '\U{3000}', '\U{FEFF}'}
    || '\U{2000}' <= c <= '\U{200A}'
  }

  function TrimStart(s: string): string {
    if s != [] && IsJsSpace(s[0]) then TrimStart(s[1..]) else s
  }

  function TrimEnd(s: string): string {
    if s != [] && IsJsSpace(s[|s| - 1]) then TrimEnd(s[..|s| - 1]) else s
  }

  /**
   * StringToNumber on the strings that denote integers in decimal: optional surrounding white
   * space, an optional sign and at least one digit; the empty (or all-space) string is 0.
   * Every other string is read as NaN.
   */
  function StringToNumber(s: string): Number {
    var t := TrimEnd(TrimStart(s));
    if t == "" then Finite(0)
    else if AllDigits(t) then Finite(ParseDecimal(t))
    else if t[0] == '+' && |t| > 1 && AllDigits(t[1..]) then Finite(ParseDecimal(t[1..]))
    else if t[0] == '-' && |t| > 1 && AllDigits(t[1..]) then Finite(0 - ParseDecimal(t[1..]) as int)
    else NotANumber
  }

  function ToNumber(p: Primitive): Number {
    match p
    case PUndefined => NotANumber
    case PNull => Finite(0)
    case PBool(b) => Finite(if b then 1 else 0)
    case PNum(n) => Finite(n)
    case PNaN => NotANumber
    case PStr(s) => StringToNumber(s)
  }

  /** `a < b` on two strings: lexicographic by character, a proper prefix is smaller. */
  function StringLess(a: string, b: string): bool {
    if b == [] then false
    else if a == [] then true
    else if a[0] != b[0] then a[0] < b[0]
    else StringLess(a[1..], b[1..])
  }

  /** `>=` on two primitives: two strings compare lexicographically, anything else numerically. */
  function PrimitiveGreaterOrEqual(pa: Primitive, pb: Primitive): bool {
    if pa.PStr? && pb.PStr? then !StringLess(pa.s, pb.s)
    else
      match (ToNumber(pa), ToNumber(pb))
      case (Finite(x), Finite(y)) => x >= y
      case _ => false
  }

  /**
   * `a >= b`: both operands go through ToPrimitive, left first; a NaN on either side makes the
   * result false. None when a conversion throws.
   */
  function GreaterOrEqual(a: Value, b: Value): Option<bool> {
    match (ToPrimitive(a), ToPrimitive(b))
    case (Some(pa), Some(pb)) => Some(PrimitiveGreaterOrEqual(pa, pb))
    case _ => None
  }

  /** On numbers `>=` is the integer order. */
  lemma NumberComparison(x: int, y: int)
    ensures GreaterOrEqual(Num(x), Num(y)) == Some(x >= y)
  {
  }

  /** A missing property (undefined) never makes `>=` true, on either side. */
  lemma UndefinedNeverGreaterOrEqual(v: Value)
    ensures GreaterOrEqual(Undefined, v) != Some(true) && GreaterOrEqual(v, Undefined) != Some(true)
  {
  }

  /** An object with an own `toString` key makes `>=` throw, on either side. */
  lemma OwnToStringThrows(m: map<string, Value>, v: Value)
    requires "toString" in m
    ensures GreaterOrEqual(Obj(m), v).None? && GreaterOrEqual(v, Obj(m)).None?
  {
  }

  /** The same holds for an object inside an array operand, which join converts, on either side. */
  lemma OwnToStringInArrayThrows(m: map<string, Value>, es: seq<Value>, i: nat, v: Value)
    requires i < |es| && es[i] == Obj(m) && "toString" in m
    ensures GreaterOrEqual(Arr(es), v).None? && GreaterOrEqual(v, Arr(es)).None?
  {
    var parts := seq(|es|, j requires 0 <= j < |es| => JoinElement(ObjectPrototype, es[j]));
    assert parts[i].None?;
    assert JoinElement(ObjectPrototype, Arr(es)).None?;
  }

  /** Two strings compare as text: "10" >= "5" is false, whatever their numeric values. */
  lemma StringsCompareAsText()
    ensures GreaterOrEqual(Str("10"), Str("5")) == Some(false)
  {
    assert StringLess("10", "5");
  }

  /** `StringLess` is a strict order: irreflexive. */
  lemma {:induction false} StringLessIrreflexive(s: string)
    ensures !StringLess(s, s)
  {
    if s != [] {
      StringLessIrreflexive(s[1..]);
    }
  }

  /** Equal strings always satisfy `>=`, so a range whose bounds are the same string is inverted. */
  lemma EqualStringsGreaterOrEqual(s: string)
    ensures GreaterOrEqual(Str(s), Str(s)) == Some(true)
  {
    StringLessIrreflexive(s);
  }
}
