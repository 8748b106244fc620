/**
 * The values a parsed JSON request body can hold, as JavaScript sees them,
 * and the two JavaScript conversions the registry relies on: truthiness
 * (`if (!name)`) and the conversion of a value to a property name
 * (`acc[p.category]`).
 */
module Json {

  datatype Option<T> = None | Some(value: T)

  /** A JavaScript value read from a parsed JSON body. A property the body
      does not have reads as `Undefined`. A number is kept as the text
      JavaScript prints for it (Number::toString), so "0" is zero; nothing in
      the registry does arithmetic on a body's numbers. Of an object's own
      properties only one matters to the registry: whether it has its own
      `toString`, which the conversion to a property name looks up. */
  datatype Value =
    | Undefined
    | Null
    | Bool(b: bool)
    | Number(text: string)
    | Str(s: string)
    | Arr(items: seq<Value>)
    | Obj(ownToString: bool)

  /** ToBoolean: false, zero, NaN, the empty string, null and undefined are
      falsy; every array and object is truthy, even an empty one. */
  predicate Truthy(v: Value) {
    match v
    case Undefined => false
    case Null => false
    case Bool(b) => b
    case Number(t) => t != "0" && t != "NaN"
    case Str(s) => s != ""
    case Arr(_) => true
    case Obj(_) => true
  }

  /** The property name a value becomes when it indexes an object
      (ToPropertyKey, which is ToString for everything a JSON body holds),
      or None when the conversion throws a TypeError. An object converts
      through its `toString` and then its `valueOf`, keeping the first that
      is callable and returns a primitive. An own `toString` from JSON is
      never callable, and the inherited `valueOf` returns the object
      itself, so such an object has no property name; without one, the
      inherited `toString` gives "[object Object]". An array becomes its
      elements joined by commas, null and undefined elements contributing
      nothing. */
  function PropertyKey(v: Value): Option<string>
    decreases v
  {
    match v
    case Undefined => Some("undefined")
    case Null => Some("null")
    case Bool(b) => Some(if b then "true" else "false")
    case Number(t) => Some(t)
    case Str(s) => Some(s)
    case Arr(items) => JoinKeys(v, 0)
    case Obj(ownToString) => if ownToString then None else Some("[object Object]")
  }

  /** Array.prototype.join(",") over the elements of the array `a` from
      index `from` on; it throws when the conversion of an element does. */
  function JoinKeys(a: Value, from: nat): Option<string>
    requires a.Arr? && from <= |a.items|
    decreases a, |a.items| - from
  {
    if from == |a.items| then Some("")
    else
      var e := a.items[from];
      var text := if e.Undefined? || e.Null? then Some("") else PropertyKey(e);
      if text.None? then None
      else if from + 1 == |a.items| then text
      else match JoinKeys(a, from + 1)
        case None => None
        case Some(rest) => Some(text.value + "," + rest)
  }

  /** The values whose conversion to a property name throws: an object with
      its own `toString`, or an array holding one at any depth. */
  predicate KeyThrows(v: Value)
    decreases v
  {
    match v
    case Obj(ownToString) => ownToString
    case Arr(items) => exists i | 0 <= i < |items| :: KeyThrows(items[i])
    case _ => false
  }

  /** The conversion fails exactly on the values `KeyThrows` names. */
  lemma {:induction false} PropertyKeyFails(v: Value)
    ensures PropertyKey(v).None? <==> KeyThrows(v)
    decreases v, 1
  {
    if v.Arr? {
      JoinKeysFails(v, 0);
    }
  }

  /** The join from index `from` on fails exactly when one of the elements
      from there on has no property name. */
  lemma {:induction false} JoinKeysFails(a: Value, from: nat)
    requires a.Arr? && from <= |a.items|
    ensures JoinKeys(a, from).None? <==> exists i | from <= i < |a.items| :: KeyThrows(a.items[i])
    decreases a, 0, |a.items| - from
  {
    if from < |a.items| {
      var e := a.items[from];
      PropertyKeyFails(e);
      JoinKeysFails(a, from + 1);
    }
  }

  /** A string is truthy exactly when it is not empty; a string is its own
      property name. */
  lemma StringConversions(s: string)
    ensures Truthy(Str(s)) <==> |s| > 0
    ensures PropertyKey(Str(s)) == Some(s)
  {
  }
}
