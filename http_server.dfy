/** The local HTTP endpoint of the app: the method and target are taken from
    the request line, `GET /notes` answers with every stored note encoded as
    JSON, and anything else gets a fixed 404. The listener, the connections
    and the byte transport are left out; the store's fetch and the JSON
    serialiser are inputs. */
module HttpServer {
  import opened Common
  import opened Json
  import opened Notes

  const Port: nat := 14339

  const Crlf: string := "\r\n"

  // ---------------------------------------------------------------------
  // Request line

  /** Whether `s` holds a carriage return followed by a line feed. */
  predicate HasCrlf(s: string) {
    exists i :: 0 <= i < |s| - 1 && s[i] == '\r' && s[i + 1] == '\n'
  }

  /** The first of the pieces `components(separatedBy: "\r\n")` gives: the
      text up to the first CRLF, or all of it when there is none. */
  function FirstLine(s: string): (r: string)
    ensures |r| <= |s| && r == s[..|r|]
    ensures !HasCrlf(r)
    ensures r == s || (|r| + 2 <= |s| && s[|r|..|r| + 2] == Crlf)
    decreases |s|
  {
    if |s| < 2 then s
    else if s[0] == '\r' && s[1] == '\n' then ""
    else
      var rest := FirstLine(s[1..]);
      assert s == [s[0]] + s[1..];
      assert rest != s[1..] ==> s[1 + |rest|..1 + |rest| + 2] == s[1..][|rest|..|rest| + 2];
      [s[0]] + rest
  }

  datatype RequestLine = RequestLine(verb: string, path: string)

  /** The connection handler's split: the method (`verb` here) is the first space-separated
      token of the first line, the path the second, or empty when the line
      has no space. */
  function ParseRequestLine(request: string): (r: RequestLine)
    ensures ' ' !in r.verb && ' ' !in r.path
  {
    var parts := Components(FirstLine(request), ' ');
    ComponentsJoin(FirstLine(request), ' ');
    RequestLine(parts[0], if |parts| > 1 then parts[1] else "")
  }

  /** The first line of a text that has no carriage return before a CRLF is
      that text. */
  lemma {:induction false} FirstLineOf(line: string, rest: string)
    requires '\r' !in line
    ensures FirstLine(line + Crlf + rest) == line
    decreases |line|
  {
    var s := line + Crlf + rest;
    if |line| == 0 {
      assert s[0] == '\r' && s[1] == '\n';
    } else {
      assert s[0] == line[0] && s[1..] == line[1..] + Crlf + rest;
      FirstLineOf(line[1..], rest);
      assert line == [line[0]] + line[1..];
    }
  }

  /** A request line `method SP target SP version CRLF` (section 3 of RFC
      9112) is read back as its verb and its target. */
  lemma RequestLineRoundTrip(verb: string, target: string, version: string, rest: string)
    requires ' ' !in verb && ' ' !in target
    requires '\r' !in verb && '\r' !in target && '\r' !in version
    ensures ParseRequestLine(verb + " " + target + " " + version + Crlf + rest) == RequestLine(verb, target)
  {
    var line := verb + " " + target + " " + version;
    assert line + Crlf + rest == verb + " " + target + " " + version + Crlf + rest;
    FirstLineOf(line, rest);
    assert line == verb + [' '] + (target + [' '] + version);
    ComponentsAppend(verb, ' ', target + [' '] + version);
    ComponentsAppend(target, ' ', version);
    ComponentsWithout(verb, ' ');
    ComponentsWithout(target, ' ');
  }

  /** A first line without a space is all verb, and the path is empty. */
  lemma RequestLineWithoutTarget(verb: string, rest: string)
    requires ' ' !in verb && '\r' !in verb
    ensures ParseRequestLine(verb + Crlf + rest) == RequestLine(verb, "")
  {
    FirstLineOf(verb, rest);
    ComponentsWithout(verb, ' ');
  }

  // ---------------------------------------------------------------------
  // UTF-8 length

  /** The number of bytes UTF-8 spends on one Unicode scalar value. */
  function Utf8Width(c: char): (n: nat)
    ensures 1 <= n <= 4
    ensures n == 1 <==> (c as int) < 0x80
  {
    if (c as int) < 0x80 then 1
    else if (c as int) < 0x800 then 2
    else if (c as int) < 0x1_0000 then 3
    else 4
  }

  /** `s.utf8.count` */
  function Utf8Length(s: string): nat
    decreases |s|
  {
    if |s| == 0 then 0 else Utf8Length(s[..|s| - 1]) + Utf8Width(s[|s| - 1])
  }

  predicate IsAscii(s: string) {
    forall i :: 0 <= i < |s| ==> (s[i] as int) < 0x80
  }

  /** A text takes between one and four bytes per character, and exactly one
      per character when it is ASCII. */
  lemma {:induction false} Utf8LengthBounds(s: string)
    ensures |s| <= Utf8Length(s) <= 4 * |s|
    ensures Utf8Length(s) == |s| <==> IsAscii(s)
    decreases |s|
  {
    if |s| > 0 {
      var init := s[..|s| - 1];
      Utf8LengthBounds(init);
      if IsAscii(s) {
        assert IsAscii(init) by {
          forall i | 0 <= i < |init| ensures (init[i] as int) < 0x80 {
            assert init[i] == s[i];
          }
        }
      }
    }
  }

  /** The byte count of two texts together is the sum of their counts. */
  lemma {:induction false} Utf8LengthAppend(a: string, b: string)
    ensures Utf8Length(a + b) == Utf8Length(a) + Utf8Length(b)
    decreases |b|
  {
    if |b| > 0 {
      var b' := b[..|b| - 1];
      assert (a + b)[..|a + b| - 1] == a + b';
      assert (a + b)[|a + b| - 1] == b[|b| - 1];
      Utf8LengthAppend(a, b');
    } else {
      assert a + b == a;
    }
  }

  // ---------------------------------------------------------------------
  // Responses

  const NotFoundResponse: string := "HTTP/1.1 404 Not Found\r\n\r\n"
  const OkStatus: string := "HTTP/1.1 200 OK"
  const JsonContentType: string := "Content-Type: application/json"
  const ContentLengthName: string := "Content-Length: "

  /** `note.encode()` of every note, in order. */
  function EncodeAll(notes: seq<Note>): (r: seq<map<string, Json>>)
    ensures |r| == |notes|
    ensures forall i :: 0 <= i < |r| ==> r[i] == Encode(notes[i])
    decreases |notes|
  {
    if |notes| == 0 then [] else EncodeAll(notes[..|notes| - 1]) + [Encode(notes[|notes| - 1])]
  }

  /** `getAllNotes()`: what the store's fetch gives, or no notes when the
      fetch throws. */
  function AllNotes(fetched: Option<seq<Note>>): seq<Note> {
    fetched.GetOr([])
  }

  /** The JSON text of the encoded notes, or `[]` when serialisation or the
      UTF-8 decoding of its bytes fails. */
  function NotesBody(fetched: Option<seq<Note>>, serialize: seq<map<string, Json>> -> Option<string>): string {
    serialize(EncodeAll(AllNotes(fetched))).GetOr("[]")
  }

  /** The 200 response framing a JSON body, its length counted in bytes. */
  function OkResponse(body: string): string {
    OkStatus + Crlf + JsonContentType + Crlf + ContentLengthName + NatToString(Utf8Length(body)) + Crlf + Crlf + body
  }

  /** `handleRequest(verb:path:connection:)` */
  function HandleRequest(verb: string, path: string, fetched: Option<seq<Note>>,
                         serialize: seq<map<string, Json>> -> Option<string>): string
  {
    if verb == "GET" && path == "/notes" then OkResponse(NotesBody(fetched, serialize))
    else NotFoundResponse
  }

  /** The response to a request as it arrives on the connection. */
  function Respond(request: string, fetched: Option<seq<Note>>,
                   serialize: seq<map<string, Json>> -> Option<string>): string {
    var line := ParseRequestLine(request);
    HandleRequest(line.verb, line.path, fetched, serialize)
  }

  // ---------------------------------------------------------------------
  // Reading a response back (section 2.1 of RFC 9112)

  /** A message head as a client reads it: the start line and the field
      lines, each ended by CRLF, then an empty line; what follows is the
      body. `None` when the text ends before the empty line. */
  function ReadHead(s: string): (r: Option<(seq<string>, string)>)
    decreases |s|
  {
    var line := FirstLine(s);
    if line == s then None
    else
      var rest := s[|line| + 2..];
      if line == "" then Some(([], rest))
      else
        match ReadHead(rest)
        case None => None
        case Some((lines, body)) => Some(([line] + lines, body))
  }

  /** Lines written one after the other, each ended by CRLF, then the empty
      line that ends a head. */
  function Frame(lines: seq<string>): string
    decreases |lines|
  {
    if |lines| == 0 then Crlf else lines[0] + Crlf + Frame(lines[1..])
  }

  /** A head written from non-empty lines without carriage returns is read
      back as those lines, and the rest as the body. */
  lemma {:induction false} ReadFrame(lines: seq<string>, body: string)
    requires forall i :: 0 <= i < |lines| ==> lines[i] != "" && '\r' !in lines[i]
    ensures ReadHead(Frame(lines) + body) == Some((lines, body))
    decreases |lines|
  {
    var s := Frame(lines) + body;
    if |lines| == 0 {
      assert s == "" + Crlf + body;
      FirstLineOf("", body);
      assert s[2..] == body;
    } else {
      var rest := Frame(lines[1..]) + body;
      assert s == lines[0] + Crlf + rest;
      FirstLineOf(lines[0], rest);
      assert s[|lines[0]| + 2..] == rest;
      ReadFrame(lines[1..], body);
      assert [lines[0]] + lines[1..] == lines;
    }
  }

  /** The value of the first `Content-Length` field line, if it is a
      decimal number. */
  function ContentLength(fields: seq<string>): Option<nat>
    decreases |fields|
  {
    if |fields| == 0 then None
    else
      var f := fields[0];
      if |f| >= |ContentLengthName| && f[..|ContentLengthName|] == ContentLengthName then
        ParseNat(f[|ContentLengthName|..])
      else ContentLength(fields[1..])
  }

  /** The start line and the field lines of the 200 response. */
  function OkHead(body: string): seq<string> {
    [OkStatus, JsonContentType, ContentLengthName + NatToString(Utf8Length(body))]
  }

  lemma OkResponseFrame(body: string)
    ensures OkResponse(body) == Frame(OkHead(body)) + body
  {
    var head := OkHead(body);
    assert head[1..][1..][1..] == [];
    assert Frame(head[1..][1..]) == head[2] + Crlf + Crlf;
    assert Frame(head[1..]) == JsonContentType + Crlf + (head[2] + Crlf + Crlf);
    assert Frame(head) == OkStatus + Crlf + (JsonContentType + Crlf + (head[2] + Crlf + Crlf));
  }

  /** The declared length of the 200 response is the body's byte count. */
  lemma OkContentLength(body: string)
    ensures ContentLength(OkHead(body)) == Some(Utf8Length(body))
  {
    var head := OkHead(body);
    var n := NatToString(Utf8Length(body));
    assert head[2][..|ContentLengthName|] == ContentLengthName && head[2][|ContentLengthName|..] == n;
    assert |OkStatus| < |ContentLengthName|;
    assert JsonContentType[8] != ContentLengthName[8];
    assert head[1..][0] == JsonContentType && head[1..][1..][0] == head[2];
    assert ContentLength(head[1..][1..]) == ParseNat(n);
    NatRoundTrip(Utf8Length(body));
  }

  /** What a client reads from the response: for `GET /notes`, the 200
      status line, the JSON content type and a `Content-Length` equal to the
      UTF-8 byte count of the body (section 8.6 of RFC 9110), followed by the
      encoded notes or `[]`; for any other verb and path, the 404 status
      line alone with no body. */
  lemma ResponseFraming(verb: string, path: string, fetched: Option<seq<Note>>,
                        serialize: seq<map<string, Json>> -> Option<string>)
    ensures var r := ReadHead(HandleRequest(verb, path, fetched, serialize));
      && r.Some?
      && (verb == "GET" && path == "/notes" ==>
            var body := NotesBody(fetched, serialize);
            && r.value == (OkHead(body), body)
            && ContentLength(r.value.0) == Some(Utf8Length(body)))
      && (verb != "GET" || path != "/notes" ==>
            r.value == (["HTTP/1.1 404 Not Found"], ""))
  {
    if verb == "GET" && path == "/notes" {
      var body := NotesBody(fetched, serialize);
      OkResponseFrame(body);
      NatToStringDigits(Utf8Length(body));
      var head := OkHead(body);
      assert '\r' !in head[2] by {
        var n := NatToString(Utf8Length(body));
        assert head[2] == ContentLengthName + n;
        assert forall i :: 0 <= i < |n| ==> n[i] != '\r';
      }
      ReadFrame(head, body);
      OkContentLength(body);
    } else {
      assert NotFoundResponse == Frame(["HTTP/1.1 404 Not Found"]) + "";
      ReadFrame(["HTTP/1.1 404 Not Found"], "");
    }
  }

  /** A well-formed `GET /notes` request is answered with the notes; the
      same request line with another verb or target gets the 404. */
  lemma RoutesRequest(verb: string, target: string, version: string, rest: string,
                      fetched: Option<seq<Note>>, serialize: seq<map<string, Json>> -> Option<string>)
    requires ' ' !in verb && ' ' !in target
    requires '\r' !in verb && '\r' !in target && '\r' !in version
    ensures var r := Respond(verb + " " + target + " " + version + Crlf + rest, fetched, serialize);
      && (verb == "GET" && target == "/notes" ==> r == OkResponse(NotesBody(fetched, serialize)))
      && (verb != "GET" || target != "/notes" ==> r == NotFoundResponse)
  {
    RequestLineRoundTrip(verb, target, version, rest);
  }
}
