/**
 * JSON values and an abstract JSON codec.
 *
 * The model never looks inside JSON text: `Codec.parse` stands for
 * `json.loads` (None when the text is not valid JSON) and `Codec.dump` for
 * `json.dumps`. The only fact assumed about them is `Lawful`: parsing what was
 * dumped gives the value back, and the empty text does not parse.
 */
module Json {
  import opened Wrappers

  /** A parsed JSON document. Floating-point numbers are not distinguished. */
  datatype JValue =
    | JNull
    | JBool(b: bool)
    | JNum(n: int)
    | JStr(s: string)
    | JArr(elems: seq<JValue>)
    | JObj(fields: map<string, JValue>)

  datatype Codec = Codec(parse: string -> Option<JValue>, dump: JValue -> string)

  /**
   * `json.loads(json.dumps(p)) == p` for every payload, JSON text is never
   * empty, and `json.loads("")` raises.
   */
  ghost predicate Lawful(c: Codec) {
    && (forall p: JValue {:trigger c.dump(p)} :: c.dump(p) != "" && c.parse(c.dump(p)) == Some(p))
    && c.parse("") == None
  }

  /** The text is valid JSON. */
  predicate Parses(c: Codec, text: string) {
    c.parse(text).Some?
  }
}

/**
 * The entity contract of myning/objects/object.py: every persisted object has a
 * `file_name` and a `to_dict()`. This is what the store sees of an object when
 * it saves or deletes it.
 */
module Objects {
  import opened Json

  datatype Entity = Entity(fileName: string, dict: JValue)
}
