/** What comes back from an HTTP request, as the services see it: either the
    request failed in URLSession, or a status code arrived with a body that
    `JSONSerialization` could or could not read. The text the app itself
    sends is not modelled; only the decisions taken on the reply are. */
module Wire {
  import opened Common
  import opened Json

  /** The body of a reply: not JSON (with Foundation's error text), or a
      parsed JSON value. `JSONSerialization` without `.fragmentsAllowed`
      rejects a body whose top level is a scalar, so such a body is
      `NotJson` and a `Parsed` value is an array or an object. */
  datatype Payload = NotJson(message: string) | Parsed(value: Json)

  datatype Reply =
    | Unreachable(message: string)
    | Answered(status: int, payload: Payload)

  /** A plain-text reply: `String(data:encoding: .utf8)` either fails or gives
      the text. */
  datatype TextReply =
    | TextUnreachable(message: string)
    | NotUtf8
    | Text(body: string)

  /** `jsonObject(with:) as? [String: Any]` applied to a reply that arrived:
      an object gives its fields, any other JSON value gives `None`. */
  function ObjectOf(p: Payload): (r: Option<map<string, Json>>)
    ensures r.Some? <==> p.Parsed? && p.value.Object?
    ensures r.Some? ==> p.value == Object(r.value)
  {
    if p.Parsed? && p.value.Object? then Some(p.value.fields) else None
  }
}
