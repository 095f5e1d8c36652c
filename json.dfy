/** JSON values as a request body carries them, with JavaScript's notion of truthiness. */
module Json {

  /** A JSON value. Numbers are integers here. */
  datatype Json =
    | Null
    | Bool(b: bool)
    | Num(n: int)
    | Str(s: string)
    | Arr(items: seq<Json>)
    | Obj(members: map<string, Json>)

  /** A JSON object, such as `req.body`; a key it lacks reads as `undefined`. */
  type Object = map<string, Json>

  /** JavaScript truthiness: `null`, `false`, `0` and `''` are falsy; arrays and objects,
      even empty ones, are truthy. */
  predicate Truthy(v: Json)
  {
    match v
    case Null => false
    case Bool(b) => b
    case Num(n) => n != 0
    case Str(s) => s != ""
    case Arr(_) => true
    case Obj(_) => true
  }

  /** `o[key]` is truthy (an absent key reads as `undefined`, which is falsy). */
  predicate Present(o: Object, key: string)
  {
    key in o && Truthy(o[key])
  }

  /** `o[key] || fallback`. */
  function OrElse(o: Object, key: string, fallback: Json): Json
  {
    if Present(o, key) then o[key] else fallback
  }
}
