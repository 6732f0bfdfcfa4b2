/**
 * JSON values with integer numbers: the values the quiz data uses. Floating
 * point numbers are not modelled.
 * The text form is not modelled: json.dumps and json.loads are a pair of
 * collaborators passed in as a Codec.
 */
module Json {
  import opened Wrappers

  datatype Json =
    | Null
    | Bool(b: bool)
    | Num(n: int)
    | Str(s: string)
    | Arr(items: seq<Json>)
    | Obj(fields: map<string, Json>)

  /** json.dumps and json.loads; loads answers None where it raises JSONDecodeError. */
  datatype Codec = Codec(dumps: Json -> string, loads: string -> Option<Json>)

  /**
   * What the json module guarantees for the values the program stores:
   * loads undoes dumps, and dumps never produces the empty text.
   */
  ghost predicate WellBehaved(c: Codec)
  {
    forall j :: c.loads(c.dumps(j)) == Some(j) && c.dumps(j) != ""
  }
}
