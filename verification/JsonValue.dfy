/** JSON documents as data: the agent's configuration, markers and manifests.
    Text syntax is not modelled, a document is its value. */
module JsonValue {
  import opened Options

  datatype Json =
    | Null
    | Bool(b: bool)
    | Int(i: int)
    | Real(r: real)
    | Str(s: string)
    | Arr(items: seq<Json>)
    | Obj(fields: map<string, Json>)
  {
    predicate IsNumber() { Int? || Real? }

    /** The number as a double, rounding aside. */
    function AsReal(): real
      requires IsNumber()
    {
      if Int? then i as real else r
    }

    /** Conversion of a number to an integer: truncation toward zero. */
    function AsInt(): int
      requires IsNumber()
    {
      if Int? then i else if r < 0.0 then -((-r).Floor) else r.Floor
    }

    /** contains(key) on a document; false for anything that is not an object. */
    predicate Has(key: string) {
      Obj? && key in fields
    }

    /** A field and its type test in one step. */
    function Text(key: string): Option<string> {
      if Has(key) && fields[key].Str? then Some(fields[key].s) else None
    }
  }

  // value(key, default): a field of the wrong type is an error

  predicate TextOk(j: map<string, Json>, key: string) {
    key in j ==> j[key].Str?
  }

  predicate NumberOk(j: map<string, Json>, key: string) {
    key in j ==> j[key].IsNumber() || j[key].Bool?
  }

  function TextOr(j: map<string, Json>, key: string, default: string): string
    requires TextOk(j, key)
  {
    if key in j then j[key].s else default
  }

  function NumberOr(j: map<string, Json>, key: string, default: int): int
    requires NumberOk(j, key)
  {
    if key !in j then default
    else if j[key].Bool? then if j[key].b then 1 else 0
    else j[key].AsInt()
  }
}
