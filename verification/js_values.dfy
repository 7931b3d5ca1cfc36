/**
 * The JavaScript values that reach the relay's logic: parsed JSON request
 * bodies and parsed provider replies, plus `undefined`.  Only the parts of
 * JavaScript semantics the relay relies on are modelled: truthiness, property
 * access during destructuring, and the string conversion a template literal
 * applies.
 */
module JsValues {
  import opened Wrappers

  /**
   * A JavaScript value.  `Num` holds integral numbers only (see README:
   * fractional numbers and infinities are not part of this model); `NaN` is
   * kept apart because it is falsy.
   */
  datatype JsValue =
    | Undefined
    | Null
    | Bool(b: bool)
    | Num(n: int)
    | NaN
    | Str(s: string)
    | Arr(items: seq<JsValue>)
    | Obj(fields: map<string, JsValue>)

  /** JavaScript truthiness: `undefined`, `null`, `false`, `0`, `NaN` and `""` are falsy. */
  predicate Truthy(v: JsValue) {
    match v
    case Undefined => false
    case Null => false
    case Bool(b) => b
    case Num(n) => n != 0
    case NaN => false
    case Str(s) => s != ""
    case Arr(_) => true
    case Obj(_) => true
  }

  /** `v.name` for a value that is neither `undefined` nor `null`. */
  function Property(v: JsValue, name: string): (r: JsValue)
    requires !v.Undefined? && !v.Null?
    ensures !v.Obj? ==> r == Undefined
    ensures v.Obj? && name !in v.fields ==> r == Undefined
    ensures v.Obj? && name in v.fields ==> r == v.fields[name]
  {
    if v.Obj? && name in v.fields then v.fields[name] else Undefined
  }

  /** `body || {}`: a falsy body is replaced by an empty object. */
  function OrEmptyObject(body: JsValue): (r: JsValue)
    ensures !r.Undefined? && !r.Null?
    ensures Truthy(body) ==> r == body
    ensures !Truthy(body) ==> r == Obj(map[])
  {
    if Truthy(body) then body else Obj(map[])
  }

  /** Decimal digits of a natural number, most significant first. */
  function Digits(n: nat): (r: string)
    ensures |r| >= 1
    ensures forall i :: 0 <= i < |r| ==> '0' <= r[i] <= '9'
  {
    if n < 10 then [DigitChar(n)] else Digits(n / 10) + [DigitChar(n % 10)]
  }

  function DigitChar(d: nat): (c: char)
    requires d < 10
    ensures '0' <= c <= '9'
  {
    ['0', '1', '2', '3', '4', '5', '6', '7', '8', '9'][d]
  }

  /**
   * Whether `String(v)` throws a TypeError.  An object converts through its
   * `toString` member; one parsed from JSON that has its own `toString`
   * member holds no function there, and its inherited `valueOf` returns the
   * object itself, so no primitive is found.  An array converts by joining
   * its items, so it throws when any item does.
   */
  predicate ToStringThrows(v: JsValue) {
    match v
    case Obj(fields) => "toString" in fields
    case Arr(items) => exists i :: 0 <= i < |items| && ToStringThrows(items[i])
    case _ => false
  }

  /** `String(v)`, the conversion a template literal applies to `${v}`; `None` when it throws. */
  function ToJsString(v: JsValue): (r: Option<string>)
    ensures r.None? <==> ToStringThrows(v)
    decreases v, 1
  {
    match v
    case Undefined => Some("undefined")
    case Null => Some("null")
    case Bool(b) => Some(if b then "true" else "false")
    case Num(n) => Some(if n < 0 then "-" + Digits(-n) else Digits(n))
    case NaN => Some("NaN")
    case Str(s) => Some(s)
    case Arr(items) => JoinItems(v, items)
    case Obj(fields) => if "toString" in fields then None else Some("[object Object]")
  }

  /**
   * `Array.prototype.join(",")` over a prefix of an array's items:
   * `undefined` and `null` items become the empty string, and the join
   * throws when converting an item throws.
   */
  function JoinItems(ghost whole: JsValue, items: seq<JsValue>): (r: Option<string>)
    requires whole.Arr? && items <= whole.items
    ensures r.None? <==> exists i :: 0 <= i < |items| && ToStringThrows(items[i])
    decreases whole, 0, |items|
  {
    if items == [] then Some("")
    else
      var last := items[|items| - 1];
      assert last in whole.items;
      var text := if last.Undefined? || last.Null? then Some("") else ToJsString(last);
      if text.None? then None
      else if |items| == 1 then text
      else
        var init := items[..|items| - 1];
        assert forall i :: 0 <= i < |init| ==> init[i] == items[i];
        match JoinItems(whole, init)
        case None => None
        case Some(prefix) => Some(prefix + "," + text.value)
  }
}
