/**
 * The shapes a context value can take.  The merge policy distinguishes plain
 * records, Maps, Sets and arrays by runtime probes (`isPlainObject`,
 * `instanceof Map`, `instanceof Set`, `Array.isArray`); here each shape is a
 * constructor, so classifying a value is a pattern match.
 */
module Values {
  import opened OrderedMap

  /** JavaScript's primitive values.  Numbers are modelled as integers. */
  datatype Primitive =
    | Undefined
    | Null
    | Boolean(b: bool)
    | Number(n: int)
    | BigInt(i: int)
    | Str(s: string)
    | Symbol(id: nat)

  datatype Value =
    | Prim(p: Primitive)
      /** An object created as `{...}` (prototype `Object.prototype`); its own fields in property order. */
    | Record(fields: seq<(string, Value)>)
      /** A `Map`, or an instance of a subclass such as `AsyncContextStore`; its entries in insertion order. */
    | MapOf(entries: seq<(Value, Value)>)
      /** A `Set` or an instance of a subclass; its elements in insertion order. */
    | SetOf(elements: seq<Value>)
      /** An array or an instance of a subclass of `Array`. */
    | ArrayOf(items: seq<Value>)
      /** Any other object (a function, a `Date`, an instance of another class, an object without prototype, ...), known only by identity. */
    | Opaque(id: nat)

  /**
   * What JavaScript guarantees of every record, Map and Set at its top level:
   * no field name, key or element occurs twice.
   */
  predicate Canonical(v: Value) {
    match v
    case Record(fields) => Unique(fields)
    case MapOf(entries) => Unique(entries)
    case SetOf(elements) => Distinct(elements)
    case _ => true
  }

  /**
   * `isPlainObject(v)`, that is `v.constructor === Object`: a record whose
   * `constructor` is the one inherited from `Object.prototype`.  An own
   * `constructor` field shadows it, and the record is then not plain.
   */
  predicate Plain(v: Value) {
    v.Record? && "constructor" !in Keys(v.fields)
  }

  /** Both values are plain records, both Maps, both Sets or both arrays: the shapes the merge policy combines. */
  predicate SameShape(a: Value, b: Value) {
    || (Plain(a) && Plain(b))
    || (a.MapOf? && b.MapOf?)
    || (a.SetOf? && b.SetOf?)
    || (a.ArrayOf? && b.ArrayOf?)
  }

  /**
   * The members a collection is made of, as the merge diagnostics enumerate
   * them: a record's field names, a Map's keys, a Set's or an array's elements.
   */
  function Members(v: Value): seq<Value> {
    match v
    case Record(fields) => seq(|fields|, i requires 0 <= i < |fields| => Prim(Str(fields[i].0)))
    case MapOf(entries) => Keys(entries)
    case SetOf(elements) => elements
    case ArrayOf(items) => items
    case _ => []
  }
}
