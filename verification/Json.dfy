/** JSON values up to what Python equality sees: objects are maps (key order is not
    part of the value) and numbers are real numbers (their spelling is not either). */
module JsonValues {

  datatype Json =
    | JNull
    | JBool(b: bool)
    | JNum(n: real)
    | JStr(s: string)
    | JArr(items: seq<Json>)
    | JObj(fields: map<string, Json>)

  /** A leaf map: the state of a scene, of a snapshot, or of a client's shadow. */
  type State = map<string, Json>
}
