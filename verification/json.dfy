/**
 * The value `json.loads` returns, as far as the mask generator inspects it.
 * Numbers are integers here: the coordinates the generator uses are whole
 * pixel positions.
 */
module Json {

  datatype JValue =
    | JNull
    | JBool(b: bool)
    | JNum(n: int)
    | JStr(s: string)
    | JList(items: seq<JValue>)
    | JObject(fields: map<string, JValue>)
}
