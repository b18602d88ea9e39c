/** The token client (Service/GoogleApiClient.swift): the `key=value` reply
    format of the Android auth endpoint, the success/failure decisions of the
    two token requests, the notes request's result shape, the access-token
    cache rule and the replace-all note sync. The requests themselves are
    not modelled; their replies are parameters. */
module GoogleApi {
  import opened Common
  import opened Json
  import opened Wire
  import opened Notes
  import opened Accounts
  import opened Store

  // ---------------------------------------------------------------------
  // The key=value reply

  predicate AllEquals(s: string) {
    forall i :: 0 <= i < |s| ==> s[i] == '='
  }

  /** The text after its leading `'='` characters. */
  function DropLeadingEquals(s: string): (r: string)
    ensures |r| <= |s| && s == s[..|s| - |r|] + r && AllEquals(s[..|s| - |r|])
    ensures |r| > 0 ==> r[0] != '='
    decreases |s|
  {
    if |s| > 0 && s[0] == '=' then DropLeadingEquals(s[1..]) else s
  }

  /** Position of the first `'='`. */
  function FirstEquals(s: string): (r: Option<nat>)
    ensures r.Some? ==> r.value < |s| && s[r.value] == '=' && '=' !in s[..r.value]
    ensures r.None? ==> '=' !in s
    decreases |s|
  {
    if |s| == 0 then None
    else if s[0] == '=' then Some(0)
    else
      match FirstEquals(s[1..])
      case None => None
      case Some(j) => assert s[..j + 1] == [s[0]] + s[1..][..j]; Some(j + 1)
  }

  /** `line.split(separator: "=", maxSplits: 1)`: empty pieces are omitted
      and do not use up the one split, so leading `'='`s are skipped; the
      key runs to the next `'='` and everything after it, `'='`s included,
      is the second piece when it is not empty. */
  function SplitOnce(line: string): seq<string> {
    var t := DropLeadingEquals(line);
    match FirstEquals(t)
    case None => if t == "" then [] else [t]
    case Some(j) => if j + 1 == |t| then [t[..j]] else [t[..j], t[j + 1..]]
  }

  /** The entry a line contributes: only lines that split into two pieces. */
  function ParseLine(line: string): Option<(string, string)> {
    var parts := SplitOnce(line);
    if |parts| == 2 then Some((parts[0], parts[1])) else None
  }

  /** The `reduce(into:)` over the lines: each entry overwrites an earlier
      one with the same key. */
  function ParseLines(lines: seq<string>): map<string, string>
    decreases |lines|
  {
    if |lines| == 0 then map[]
    else
      var m := ParseLines(lines[..|lines| - 1]);
      match ParseLine(lines[|lines| - 1])
      case None => m
      case Some(kv) => m[kv.0 := kv.1]
  }

  /** `parseResponse`: split the text on `"\n"` (empty lines omitted) and
      collect the entries. */
  function ParseResponse(text: string): map<string, string> {
    ParseLines(SplitOmitting(text, '\n'))
  }

  /** Every entry has a non-empty key free of `'='` and a non-empty value:
      lines such as `Token=` or `Token` add nothing. */
  lemma {:induction false} EntriesNonEmpty(lines: seq<string>)
    ensures forall k :: k in ParseLines(lines) ==> k != "" && '=' !in k && ParseLines(lines)[k] != ""
    decreases |lines|
  {
    if |lines| > 0 {
      EntriesNonEmpty(lines[..|lines| - 1]);
      ParseLineParts(lines[|lines| - 1]);
    }
  }

  /** `line` is some `'='`s, the non-empty key `k` free of `'='`, one `'='`,
      and the non-empty value `v`. */
  predicate LineShape(line: string, k: string, v: string) {
    && k != "" && '=' !in k && v != ""
    && |k| + |v| + 1 <= |line|
    && AllEquals(line[..|line| - |k| - |v| - 1])
    && line == line[..|line| - |k| - |v| - 1] + k + "=" + v
  }

  /** A line yields an entry only when it has that shape. */
  lemma ParseLineParts(line: string)
    ensures ParseLine(line).Some? ==> LineShape(line, ParseLine(line).value.0, ParseLine(line).value.1)
  {
    var t := DropLeadingEquals(line);
    var n := |line| - |t|;
    var j := FirstEquals(t);
    if j.Some? && j.value + 1 < |t| {
      var k, v := t[..j.value], t[j.value + 1..];
      assert ParseLine(line) == Some((k, v));
      assert k != "" by {
        assert t[0] != '=';
      }
      SplitAtEquals(line[..n], t, j.value);
    }
  }

  /** A text after a run of `'='`s, split at one of its `'='`s. */
  lemma SplitAtEquals(pre: string, t: string, j: nat)
    requires j < |t| && t[j] == '='
    ensures pre + t == pre + t[..j] + "=" + t[j + 1..]
  {
    assert t == t[..j] + "=" + t[j + 1..];
  }

  /** Conversely, every such line yields exactly that entry: a value may
      itself contain `'='`. */
  lemma ParseLineComplete(pre: string, k: string, v: string)
    requires AllEquals(pre) && k != "" && '=' !in k && v != ""
    ensures ParseLine(pre + k + "=" + v) == Some((k, v))
  {
    var t := k + "=" + v;
    assert pre + k + "=" + v == pre + t;
    assert t[0] == k[0];
    DropEqualsPrefix(pre, t);
    FirstEqualsAfter(k, v);
    assert t[..|k|] == k && t[|k| + 1..] == v;
  }

  lemma {:induction false} FirstEqualsAfter(k: string, v: string)
    requires '=' !in k
    ensures FirstEquals(k + "=" + v) == Some(|k|)
    decreases |k|
  {
    if |k| > 0 {
      assert (k + "=" + v)[1..] == k[1..] + "=" + v;
      assert (k + "=" + v)[0] == k[0];
      FirstEqualsAfter(k[1..], v);
    }
  }

  lemma {:induction false} DropEqualsPrefix(pre: string, rest: string)
    requires AllEquals(pre) && (|rest| == 0 || rest[0] != '=')
    ensures DropLeadingEquals(pre + rest) == rest
    decreases |pre|
  {
    if |pre| > 0 {
      assert (pre + rest)[1..] == pre[1..] + rest;
      DropEqualsPrefix(pre[1..], rest);
    } else {
      assert pre + rest == rest;
    }
  }

  /** The lines of two texts joined by a newline give the entries of the
      first overridden by those of the second. */
  lemma ParseResponseAppend(a: string, b: string)
    ensures ParseResponse(a + "\n" + b) == ParseResponse(a) + ParseResponse(b)
  {
    assert a + "\n" + b == a + ['\n'] + b;
    SplitOmittingAppend(a, '\n', b);
    ParseLinesAppend(SplitOmitting(a, '\n'), SplitOmitting(b, '\n'));
  }

  lemma {:induction false} ParseLinesAppend(x: seq<string>, y: seq<string>)
    ensures ParseLines(x + y) == ParseLines(x) + ParseLines(y)
    decreases |y|
  {
    if |y| == 0 {
      assert x + y == x;
    } else {
      var y0, last := y[..|y| - 1], y[|y| - 1];
      AppendInit(x, y);
      ParseLinesAppend(x, y0);
      match ParseLine(last)
      case None =>
      case Some(kv) =>
        UpdateUnion(ParseLines(x), ParseLines(y0), kv.0, kv.1);
    }
  }

  lemma UpdateUnion(a: map<string, string>, b: map<string, string>, k: string, v: string)
    ensures (a + b)[k := v] == a + b[k := v]
  {
  }

  /** A text of one line without newlines is that line alone. */
  lemma SingleLine(line: string)
    requires line != "" && '\n' !in line
    ensures SplitOmitting(line, '\n') == [line]
  {
    ComponentsWithout(line, '\n');
    assert NonEmptyPieces([line]) == [line] + NonEmptyPieces([]);
  }

  lemma ParseOneLine(line: string, k: string, v: string)
    requires ParseLine(line) == Some((k, v))
    ensures ParseLines([line]) == map[k := v]
  {
    assert [line][..0] == [];
  }

  /** The entries of a one-line text. */
  lemma OneEntry(pre: string, k: string, v: string)
    requires AllEquals(pre) && k != "" && '=' !in k && v != ""
    requires '\n' !in pre + k + "=" + v
    ensures ParseResponse(pre + k + "=" + v) == map[k := v]
  {
    var line := pre + k + "=" + v;
    ParseLineComplete(pre, k, v);
    SingleLine(line);
    ParseOneLine(line, k, v);
  }

  /** Of two lines with the same key, the later one wins. */
  lemma LaterDuplicateWins(a: string, k: string, v: string)
    requires k != "" && '=' !in k && v != "" && '\n' !in k + "=" + v
    ensures var m := ParseResponse(a + "\n" + k + "=" + v); k in m && m[k] == v
  {
    var line := k + "=" + v;
    assert a + "\n" + k + "=" + v == a + "\n" + line;
    ParseResponseAppend(a, line);
    LineEntry(k, v);
  }

  /** The entries of a one-line text without leading `'='`s. */
  lemma LineEntry(k: string, v: string)
    requires k != "" && '=' !in k && v != "" && '\n' !in k + "=" + v
    ensures ParseResponse(k + "=" + v) == map[k := v]
  {
    assert "" + k + "=" + v == k + "=" + v;
    OneEntry("", k, v);
  }

  lemma EmptyReply()
    ensures ParseResponse("") == map[]
  {
    assert NonEmptyPieces([""]) == [];
  }

  /** A reply that is one `Token=<tok>` line, newline-terminated, yields
      exactly that entry; `tok` may itself contain `'='`. */
  lemma TokenLine(tok: string)
    requires tok != "" && '\n' !in tok
    ensures ParseResponse("Token=" + tok + "\n") == map["Token" := tok]
  {
    var line := "Token=" + tok;
    TokenLineEntry(tok);
    ParseResponseAppend(line, "");
    EmptyReply();
    assert line + "\n" + "" == "Token=" + tok + "\n";
    assert map["Token" := tok] + map[] == map["Token" := tok];
  }

  lemma TokenLineEntry(tok: string)
    requires tok != "" && '\n' !in tok
    ensures ParseResponse("Token=" + tok) == map["Token" := tok]
  {
    NoNewlineInTokenLine(tok);
    LineEntry("Token", tok);
    assert "Token" + "=" + tok == "Token=" + tok;
  }

  lemma NoNewlineInTokenLine(tok: string)
    requires '\n' !in tok
    ensures '\n' !in "Token" + "=" + tok
  {
    var line := "Token" + "=" + tok;
    forall i | 0 <= i < |line| ensures line[i] != '\n' {
      if i >= 6 {
        assert line[i] == tok[i - 6];
      }
    }
  }

  // ---------------------------------------------------------------------
  // The two token requests

  /** The `Error` entry, or `"Unknown error"`. */
  function ErrorText(d: map<string, string>): string {
    if "Error" in d then d["Error"] else "Unknown error"
  }

  /** `fetchMasterToken`: exactly the `Token` entry of the reply. */
  function FetchMasterToken(reply: TextReply): (r: Result<string, Error>)
    ensures r.Success? <==> reply.Text? && "Token" in ParseResponse(reply.body)
    ensures r.Success? ==> r.value == ParseResponse(reply.body)["Token"] && r.value != ""
    ensures reply.Text? && r.Failure? ==>
      r.error == ApiFailure("Failed to get master token: " + ErrorText(ParseResponse(reply.body)))
    ensures reply.NotUtf8? ==> r == Failure(ApiFailure("No data received"))
  {
    match reply
    case TextUnreachable(m) => Failure(Transport(m))
    case NotUtf8 => Failure(ApiFailure("No data received"))
    case Text(t) =>
      var d := ParseResponse(t);
      EntriesNonEmpty(SplitOmitting(t, '\n'));
      if "Token" in d then Success(d["Token"])
      else Failure(ApiFailure("Failed to get master token: " + ErrorText(d)))
  }

  /** `"Token=abc123\n"` gives `"abc123"`, and any other one-line token
      reply likewise gives its token. */
  lemma MasterTokenFromLine(tok: string)
    requires tok != "" && '\n' !in tok
    ensures FetchMasterToken(Text("Token=" + tok + "\n")) == Success(tok)
  {
    TokenLine(tok);
  }

  /** The expiry instant `fetchAccessToken` picks, in milliseconds: `now`
      plus `ExpiresInDurationSec` seconds when that entry reads as a number,
      else the `Expiry` epoch second when that does, else the epoch itself. */
  function ExpiryOf(d: map<string, string>, now: int): int {
    if "ExpiresInDurationSec" in d && ParseSigned(d["ExpiresInDurationSec"]).Some? then
      now + 1000 * ParseSigned(d["ExpiresInDurationSec"]).value
    else if "Expiry" in d && ParseSigned(d["Expiry"]).Some? then
      1000 * ParseSigned(d["Expiry"]).value
    else 0
  }

  /** `fetchAccessToken`: succeeds exactly when the reply has an `Auth`
      entry, with that token and the expiry above. */
  function FetchAccessToken(reply: TextReply, now: int): (r: Result<(string, int), Error>)
    ensures r.Success? <==> reply.Text? && "Auth" in ParseResponse(reply.body)
    ensures r.Success? ==> var d := ParseResponse(reply.body);
      r.value == (d["Auth"], ExpiryOf(d, now)) && r.value.0 != ""
    ensures reply.Text? && r.Failure? ==>
      r.error == ApiFailure("Failed to get access token: " + ErrorText(ParseResponse(reply.body)))
  {
    match reply
    case TextUnreachable(m) => Failure(Transport(m))
    case NotUtf8 => Failure(ApiFailure("No data received"))
    case Text(t) =>
      var d := ParseResponse(t);
      EntriesNonEmpty(SplitOmitting(t, '\n'));
      if "Auth" in d then Success((d["Auth"], ExpiryOf(d, now)))
      else Failure(ApiFailure("Failed to get access token: " + ErrorText(d)))
  }

  // ---------------------------------------------------------------------
  // The notes request

  /** `fetchKeepNotes`: the `nodes` array of the reply, `[]` when the reply
      is JSON without such an array, and an error only when the request
      fails or the reply is not JSON. */
  function FetchKeepNotes(reply: Reply): (r: Result<seq<map<string, Json>>, Error>)
    ensures r.Failure? <==> reply.Unreachable? || reply.payload.NotJson?
    ensures r.Success? && |r.value| > 0 ==>
      var obj := ObjectOf(reply.payload);
      obj.Some? && "nodes" in obj.value && AsObjectArray(obj.value["nodes"]) == Some(r.value)
    ensures r.Success? && (ObjectOf(reply.payload).None? || "nodes" !in ObjectOf(reply.payload).value) ==>
      r.value == []
  {
    match reply
    case Unreachable(m) => Failure(Transport(m))
    case Answered(_, NotJson(m)) => Failure(Transport(m))
    case Answered(_, p) =>
      match ObjectOf(p)
      case None => Success([])
      case Some(json) =>
        if "nodes" in json && AsObjectArray(json["nodes"]).Some? then
          Success(AsObjectArray(json["nodes"]).value)
        else Success([])
  }

  // ---------------------------------------------------------------------
  // The access-token cache

  /** `getAccessToken` fetches unless the cached token is non-empty and
      not expired. */
  predicate NeedsRefresh(a: AccountRecord, now: int) {
    ExpiredAt(a.accessTokenExpiry, now) || a.accessToken == ""
  }

  /** `getAccessToken(for:)`: returns the cached token without a request
      when it is usable; otherwise fetches one and, on success, stores the
      token and its expiry on the account. A failed fetch changes nothing. */
  method GetAccessToken(account: Account, now: int, reply: TextReply)
    returns (r: Result<string, Error>, fetched: bool)
    modifies account
    ensures fetched == NeedsRefresh(old(account.Value()), now)
    ensures !fetched ==> r == Success(old(account.accessToken)) && account.Value() == old(account.Value())
    ensures fetched ==>
      match FetchAccessToken(reply, now)
      case Success((t, e)) =>
        r == Success(t) &&
        account.Value() == old(account.Value()).(accessToken := t, accessTokenExpiry := FormatInstant(e))
      case Failure(err) => r == Failure(err) && account.Value() == old(account.Value())
    ensures r.Success? ==> r.value != ""
  {
    if !account.IsAccessTokenExpired(now) && account.accessToken != "" {
      return Success(account.accessToken), false;
    }
    fetched := true;
    match FetchAccessToken(reply, now)
    case Failure(err) =>
      r := Failure(err);
    case Success((token, expiry)) =>
      account.accessToken := token;
      account.SetAccessTokenExpiry(expiry);
      r := Success(token);
  }

  /** A token just fetched with a duration of `secs` seconds is reused,
      without a request, by every later call up to `secs` seconds on. */
  lemma RefreshedTokenIsReused(a: AccountRecord, reply: TextReply, now: int, later: int, secs: int)
    requires reply.Text?
    requires var d := ParseResponse(reply.body);
      "Auth" in d && "ExpiresInDurationSec" in d && ParseSigned(d["ExpiresInDurationSec"]) == Some(secs)
    requires now <= later <= now + 1000 * secs
    ensures var (t, e) := FetchAccessToken(reply, now).value;
      !NeedsRefresh(a.(accessToken := t, accessTokenExpiry := FormatInstant(e)), later)
  {
    var (t, e) := FetchAccessToken(reply, now).value;
    ExpiryRoundTrip(e, later);
  }

  // ---------------------------------------------------------------------
  // Replace-all sync

  /** Every node parsed, in order, as a note of the account. */
  function ParseNodes(nodes: seq<map<string, Json>>, email: string): (r: seq<Note>)
    ensures |r| == |nodes|
    ensures forall i :: 0 <= i < |r| ==> r[i].email == email
  {
    if |nodes| == 0 then [] else [Parse(nodes[0], email)] + ParseNodes(nodes[1..], email)
  }

  /** The `i`-th note is the `i`-th node parsed. */
  lemma {:induction false} ParseNodesAt(nodes: seq<map<string, Json>>, email: string, i: nat)
    requires i < |nodes|
    ensures ParseNodes(nodes, email)[i] == Parse(nodes[i], email)
  {
    if i > 0 {
      ParseNodesAt(nodes[1..], email, i - 1);
    }
  }

  /** The account after `getAccessToken`: a fetched token and its expiry
      are stored only when a fetch was needed and succeeded. */
  function TokenAfter(a: AccountRecord, now: int, tokenReply: TextReply): (r: AccountRecord)
    ensures r.email == a.email && r.profileName == a.profileName && r.masterToken == a.masterToken
    ensures !NeedsRefresh(a, now) ==> r == a
  {
    if NeedsRefresh(a, now) && FetchAccessToken(tokenReply, now).Success? then
      var (t, e) := FetchAccessToken(tokenReply, now).value;
      a.(accessToken := t, accessTokenExpiry := FormatInstant(e))
    else a
  }

  /** What `syncNotes` ends in: the token fetch's error when a fetch was
      needed and failed, else the notes request's error, else success. */
  function SyncOutcome(a: AccountRecord, now: int, tokenReply: TextReply, notesReply: Reply): (r: Option<Error>)
    ensures r.None? <==> (!NeedsRefresh(a, now) || FetchAccessToken(tokenReply, now).Success?)
                         && FetchKeepNotes(notesReply).Success?
  {
    if NeedsRefresh(a, now) && FetchAccessToken(tokenReply, now).Failure? then Some(FetchAccessToken(tokenReply, now).error)
    else if FetchKeepNotes(notesReply).Failure? then Some(FetchKeepNotes(notesReply).error)
    else None
  }

  /** A sync with a usable cached token depends on the notes reply alone,
      and a sync whose token reply carries `Auth` stores a token that the
      next sync reuses without a request. */
  lemma SyncAfterRefreshReusesToken(a: AccountRecord, now: int, tokenReply: TextReply, notesReply: Reply,
                                    other: TextReply, secs: int)
    requires tokenReply.Text?
    requires var d := ParseResponse(tokenReply.body);
      "Auth" in d && "ExpiresInDurationSec" in d && ParseSigned(d["ExpiresInDurationSec"]) == Some(secs) && secs >= 0
    ensures SyncOutcome(TokenAfter(a, now, tokenReply), now, other, notesReply).None? <==>
      FetchKeepNotes(notesReply).Success?
  {
    var b := TokenAfter(a, now, tokenReply);
    if NeedsRefresh(a, now) {
      RefreshedTokenIsReused(a, tokenReply, now, now, secs);
    }
  }

  /** `syncNotes(for:modelContext:)`: after a successful sync the account's
      stored notes are exactly the parsed nodes and every other account's
      notes are untouched; a token or notes failure leaves the notes as
      they were. The account keeps its links and, when the cached token was
      not usable, takes the fetched token. */
  method SyncNotes(account: Account, ctx: ModelContext, now: int, tokenReply: TextReply, notesReply: Reply)
    returns (err: Option<Error>)
    modifies account, ctx
    ensures err == SyncOutcome(old(account.Value()), now, tokenReply, notesReply)
    ensures account.Value() == TokenAfter(old(account.Value()), now, tokenReply)
    ensures ctx.accounts == old(ctx.accounts)
    ensures account.profileName == old(account.profileName) && account.masterToken == old(account.masterToken)
    ensures err.Some? ==> ctx.notes == old(ctx.notes)
    ensures err.None? ==> FetchKeepNotes(notesReply).Success?
    ensures err.None? ==>
      ctx.notes == Without(old(ctx.notes), account.email) + ParseNodes(FetchKeepNotes(notesReply).value, account.email)
    ensures err.None? ==>
      NotesOf(ctx.notes, account.email) == ParseNodes(FetchKeepNotes(notesReply).value, account.email)
    ensures err.None? ==> forall other :: other != account.email ==>
      NotesOf(ctx.notes, other) == NotesOf(old(ctx.notes), other)
  {
    var token, _ := GetAccessToken(account, now, tokenReply);
    if token.Failure? {
      return Some(token.error);
    }
    var fetched := FetchKeepNotes(notesReply);
    if fetched.Failure? {
      return Some(fetched.error);
    }
    ReplaceAccountNotes(ctx, account.email, ParseNodes(fetched.value, account.email));
    err := None;
  }

  // ---------------------------------------------------------------------
  // Client session id

  /** `generateClientSessionId()` for the clock in milliseconds and a random
      32-bit number. */
  function ClientSessionId(millis: int, random: nat): string
    requires random < 0x1_0000_0000
  {
    "s--" + IntToString(millis) + "--" + NatToString(random)
  }

  /** Split on `'-'`, a session id taken after 1970 gives back its
      timestamp and its random number. */
  lemma ClientSessionIdParts(millis: nat, random: nat)
    requires random < 0x1_0000_0000
    ensures Components(ClientSessionId(millis, random), '-') ==
      ["s", "", NatToString(millis), "", NatToString(random)]
    ensures ParseNat(Components(ClientSessionId(millis, random), '-')[2]) == Some(millis)
    ensures ParseNat(Components(ClientSessionId(millis, random), '-')[4]) == Some(random)
  {
    var a, b := NatToString(millis), NatToString(random);
    NoDashInNumber(millis);
    NoDashInNumber(random);
    NatRoundTrip(millis);
    NatRoundTrip(random);
    assert ClientSessionId(millis, random) == "s--" + a + "--" + b;
    SessionIdPieces(a, b);
  }

  lemma NoDashInNumber(n: nat)
    ensures '-' !in NatToString(n)
  {
    var a := NatToString(n);
    NatToStringDigits(n);
    forall i | 0 <= i < |a| ensures a[i] != '-' {
      assert IsDigit(a[i]);
    }
  }

  lemma SessionIdPieces(a: string, b: string)
    requires '-' !in a && '-' !in b
    ensures Components("s--" + a + "--" + b, '-') == ["s", "", a, "", b]
  {
    var x := "" + ['-'] + b;
    var y := a + ['-'] + x;
    var z := "" + ['-'] + y;
    var w := "s" + ['-'] + z;
    assert w == "s--" + a + "--" + b;
    ComponentsWithout(b, '-');
    ComponentsWithout(a, '-');
    ComponentsWithout("s", '-');
    ComponentsAppend("", '-', b);
    ComponentsAppend(a, '-', x);
    ComponentsAppend("", '-', y);
    ComponentsAppend("s", '-', z);
  }
}
