/** The JavaScript values the modelled code handles: parsed JSON from the upstream services and
    the settings file, the `undefined` that an out-of-range array read yields, and the exceptions
    that a call on the wrong kind of value throws. */
module Json {

  datatype Option<+T> = None | Some(value: T)

  /** A parsed JSON value. Numbers are integers here: the modelled code only indexes and compares them. */
  datatype Json =
    | JNull
    | JBool(b: bool)
    | JNum(n: int)
    | JStr(s: string)
    | JArr(items: seq<Json>)
    | JObj(fields: map<string, Json>)

  /** A JavaScript value as a caller receives it: `undefined`, or a JSON value (`null` is `Def(JNull)`). */
  datatype Value = Undefined | Def(json: Json)

  datatype ErrorKind = TypeError | SyntaxError

  /** How a JavaScript call completes: it returns a value or it throws. */
  datatype Outcome<+T> = Returns(value: T) | Throws(error: ErrorKind)

  /** Reading `items[k]` of a JavaScript array: `undefined` outside the bounds. */
  function At(items: seq<Json>, k: int): (v: Value)
    ensures v.Def? <==> 0 <= k < |items|
    ensures v.Def? ==> v.json == items[k]
  {
    if 0 <= k < |items| then Def(items[k]) else Undefined
  }
}
