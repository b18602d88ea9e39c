/** JSON values as Foundation's `JSONSerialization` hands them to Swift code,
    and the conditional casts (`as? String`, `as? Bool`, `as? [String: Any]`,
    `as? [[String: Any]]`) the app applies to them. Numbers are integers. */
module Json {
  import opened Common

  datatype Json =
    | Null
    | Bool(b: bool)
    | Number(n: int)
    | Str(s: string)
    | Array(items: seq<Json>)
    | Object(fields: map<string, Json>)

  /** A JSON file on disk: missing, present but unreadable or not JSON, or a
      parsed document. `JSONSerialization` without `.fragmentsAllowed`
      rejects a file whose top level is a scalar, so such a file is
      `Malformed` and a `Document` holds an array or an object. */
  datatype JsonFile = Absent | Malformed(message: string) | Document(value: Json)

  /** `value as? String` */
  function AsString(v: Json): Option<string> {
    if v.Str? then Some(v.s) else None
  }

  /** `value as? Bool`: a JSON boolean, or a number that is exactly 0 or 1
      (Foundation bridges both through NSNumber). */
  function AsBool(v: Json): (r: Option<bool>)
    ensures v.Bool? ==> r == Some(v.b)
    ensures v.Str? || v.Null? || v.Array? || v.Object? ==> r.None?
  {
    match v
    case Bool(b) => Some(b)
    case Number(n) => if n == 0 then Some(false) else if n == 1 then Some(true) else None
    case _ => None
  }

  predicate AllObjects(items: seq<Json>) {
    forall i :: 0 <= i < |items| ==> items[i].Object?
  }

  /** `value as? [[String: Any]]`: an array all of whose elements are objects. */
  function AsObjectArray(v: Json): (r: Option<seq<map<string, Json>>>)
    ensures r.Some? <==> v.Array? && AllObjects(v.items)
    ensures r.Some? ==> |r.value| == |v.items|
    ensures r.Some? ==> forall i :: 0 <= i < |r.value| ==> v.items[i] == Object(r.value[i])
  {
    if v.Array? && AllObjects(v.items) then
      Some(seq(|v.items|, i requires 0 <= i < |v.items| => v.items[i].fields))
    else None
  }

  function StringAt(m: map<string, Json>, key: string): Option<string> {
    if key in m then AsString(m[key]) else None
  }

  function BoolAt(m: map<string, Json>, key: string): Option<bool> {
    if key in m then AsBool(m[key]) else None
  }

  function ObjectAt(m: map<string, Json>, key: string): Option<map<string, Json>> {
    if key in m && m[key].Object? then Some(m[key].fields) else None
  }
}
