/** The JavaScript values the checker inspects, and the one mutable object it changes. */
module JsValues {

  datatype Option<+T> = None | Some(value: T)

  /** A JavaScript value. Numbers are exact reals (both zeros are 0.0); all
      non-callable objects (plain objects, arrays, the export slot) are `Object`,
      told apart by identity only; a callable carries its `.name` property. */
  datatype JsValue =
    | Undefined
    | Null
    | Bool(b: bool)
    | Number(n: real)
    | NaN
    | BigInt(i: int)
    | Str(s: string)
    | Object(id: nat)
    | Function(id: nat, name: string)

  /** ToBoolean: what `if (v)` and `v ? a : b` take as true. Every object is
      truthy, an empty one included. */
  predicate Truthy(v: JsValue)
  {
    match v
    case Undefined => false
    case Null => false
    case Bool(b) => b
    case Number(n) => n != 0.0
    case NaN => false
    case BigInt(i) => i != 0
    case Str(s) => s != ""
    case Object(_) => true
    case Function(_, _) => true
  }

  /** `typeof v === 'function'` */
  predicate IsFunction(v: JsValue)
  {
    v.Function?
  }

  /** The falsy values are exactly those of the language definition: seven
      here, the two zeros being one `Number(0.0)`. */
  lemma FalsyValues(v: JsValue)
    ensures !Truthy(v) <==>
      v in {Undefined, Null, Bool(false), Number(0.0), NaN, BigInt(0), Str("")}
  {
  }

  /** A JavaScript array, which `pop()` shortens in place. */
  class JsArray {
    var elems: seq<JsValue>

    constructor (elems: seq<JsValue>)
      ensures this.elems == elems
    {
      this.elems := elems;
    }

    /** `Array.prototype.pop`: removes and returns the last element; on an
        empty array it returns `undefined` and changes nothing. */
    method Pop() returns (last: JsValue)
      modifies this
      ensures old(elems) == [] ==> last == Undefined && elems == []
      ensures old(elems) != [] ==> elems + [last] == old(elems)
    {
      if elems == [] {
        last := Undefined;
      } else {
        last := elems[|elems| - 1];
        elems := elems[..|elems| - 1];
      }
    }
  }
}
