/** The JavaScript values a Node-RED message can carry in `msg.topic` and `msg.payload`. */
module Values {

  /**
   * A JSON-like JavaScript value. `Undefined` stands for an absent property.
   * Numbers are integers here; an `Obj` maps its own enumerable keys to their values.
   */
  datatype JsValue =
    | Undefined
    | Null
    | Bool(b: bool)
    | Num(n: int)
    | Str(s: string)
    | Arr(elems: seq<JsValue>)
    | Obj(fields: map<string, JsValue>)

  /** A Node-RED message as the query node receives it: the SQL text in `topic`, the named parameters in `payload`. */
  datatype Message = Message(topic: JsValue, payload: JsValue)
}
