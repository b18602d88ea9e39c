/** The Google sign-in flow in a visible browser
    (Service/ChromePlayService.swift): `startLogin` opens the embedded
    sign-in page, and a monitor polls the page's cookies (W3C WebDriver Get
    All Cookies, section 14.1) until an `oauth_token` cookie appears, then
    reads the signed-in email with a script and reports both. One iteration
    of the monitor loop is `Tick`. */
module ChromePlay {
  import opened Common
  import opened Json
  import opened Wire
  import opened ChromeDriver

  const LoginUrl: string := "https://accounts.google.com/EmbeddedSetup"

  /** The JSON object of a reply that came back with status 200. */
  function OkObject(reply: Reply): (r: Option<map<string, Json>>)
    ensures r.Some? <==> reply.Answered? && reply.status == 200 && ObjectOf(reply.payload).Some?
    ensures r.Some? ==> r == ObjectOf(reply.payload)
  {
    if reply.Answered? && reply.status == 200 then ObjectOf(reply.payload) else None
  }

  /** `getCookies(sessionId:)`: the `value` array, only when the status is
      200 and `value` is an array of objects. */
  function CookiesOf(reply: Reply): (r: Option<seq<map<string, Json>>>)
    ensures r.Some? <==> OkObject(reply).Some? && "value" in OkObject(reply).value
                         && AsObjectArray(OkObject(reply).value["value"]).Some?
    ensures r.Some? ==> r == AsObjectArray(OkObject(reply).value["value"])
  {
    match OkObject(reply)
    case None => None
    case Some(json) => if "value" in json then AsObjectArray(json["value"]) else None
  }

  /** `executeScript(sessionId:script:)`: the `value` string, only when the
      status is 200 and the string is not empty. */
  function ScriptResultOf(reply: Reply): (r: Option<string>)
    ensures r.Some? <==> OkObject(reply).Some? && StringAt(OkObject(reply).value, "value").Some?
                         && StringAt(OkObject(reply).value, "value").value != ""
    ensures r.Some? ==> r.value != "" && r == StringAt(OkObject(reply).value, "value")
  {
    match OkObject(reply)
    case None => None
    case Some(json) =>
      match StringAt(json, "value")
      case None => None
      case Some(v) => if v == "" then None else Some(v)
  }

  /** A cookie named `oauth_token` whose value is a string. */
  predicate IsTokenCookie(cookie: map<string, Json>) {
    StringAt(cookie, "name") == Some("oauth_token") && StringAt(cookie, "value").Some?
  }

  /** The token the scan picks: the value of the first token cookie. */
  function FirstToken(cookies: seq<map<string, Json>>): (r: Option<string>)
    ensures r.None? <==> forall i :: 0 <= i < |cookies| ==> !IsTokenCookie(cookies[i])
    ensures r.Some? ==> exists i :: 0 <= i < |cookies| && IsTokenCookie(cookies[i])
                          && Some(r.value) == StringAt(cookies[i], "value")
                          && forall j :: 0 <= j < i ==> !IsTokenCookie(cookies[j])
    decreases |cookies|
  {
    if |cookies| == 0 then None
    else if IsTokenCookie(cookies[0]) then StringAt(cookies[0], "value")
    else
      var rest := FirstToken(cookies[1..]);
      assert forall i :: 1 <= i < |cookies| ==> cookies[i] == cookies[1..][i - 1];
      if rest.Some? then
        ghost var k :| 0 <= k < |cookies[1..]| && IsTokenCookie(cookies[1..][k])
                       && Some(rest.value) == StringAt(cookies[1..][k], "value")
                       && forall j :: 0 <= j < k ==> !IsTokenCookie(cookies[1..][j]);
        assert IsTokenCookie(cookies[k + 1]) && forall j :: 0 <= j < k + 1 ==> !IsTokenCookie(cookies[j]);
        rest
      else rest
  }

  /** What one monitor iteration ends in. */
  datatype TickOutcome = Continue | Stopped | LoggedIn(email: string, token: string)

  class PlayService {
    /** Whether a monitor task is installed (`monitorTask != nil`). */
    var monitoring: bool
    var currentSessionId: Option<string>
    /** The calls made to `onLoginSuccess`, in order. */
    var loginCallbacks: seq<(string, string)>

    constructor ()
      ensures !monitoring && currentSessionId.None? && loginCallbacks == []
    {
      monitoring := false;
      currentSessionId := None;
      loginCallbacks := [];
    }

    /** `stopMonitoring()` */
    method StopMonitoring()
      modifies this`monitoring, this`currentSessionId
      ensures !monitoring && currentSessionId.None?
    {
      monitoring := false;
      currentSessionId := None;
    }

    /** `startLogin()`: stop any earlier monitor, delete every driver
        session, open the sign-in page and, once that succeeded, remember
        its session and start monitoring. The launch ends as
        `launchChrome` does for the driver's state on entry. */
    method StartLogin(driver: DriverService, sessionsReply: Reply, replies: LaunchReplies)
      returns (r: Result<string, Error>)
      modifies this`monitoring, this`currentSessionId, driver
      ensures r == LaunchOutcome(driver.host, old(driver.hasProcess), LoginUrl, replies)
      ensures driver.hasProcess == HoldsAfterStart(driver.host, old(driver.hasProcess), replies.processAlive, replies.probe, replies.spawnError)
      ensures r.Success? ==> monitoring && currentSessionId == Some(r.value)
      ensures r.Failure? ==> !monitoring && currentSessionId.None?
      ensures loginCallbacks == old(loginCallbacks)
      ensures |driver.events| >= |old(driver.events)| + 1 + |SessionIdsOf(sessionsReply)|
      ensures driver.events[..|old(driver.events)| + 1 + |SessionIdsOf(sessionsReply)|]
              == old(driver.events) + [Request("GET", "/sessions", None)] + DeleteRequests(SessionIdsOf(sessionsReply))
      ensures r.Success? ==>
        driver.events[|driver.events| - 1] == Request("POST", "/session/" + r.value + "/url", Some(Object(map["url" := Str(LoginUrl)])))
    {
      StopMonitoring();
      var _ := driver.DeleteAllSessions(sessionsReply);
      r := driver.LaunchChrome(LoginUrl, false, "Default", replies);
      if r.Failure? {
        return;
      }
      currentSessionId := Some(r.value);
      monitoring := true;
    }

    /** One iteration of the monitor loop, after its one-second pause. With
        no session or no cookies the monitor stops; without a token cookie
        nothing changes; with one, the monitor stops, and only when the page
        names an email is the driver cleaned up and `onLoginSuccess` called
        once, with that email and the first token. */
    method Tick(driver: DriverService, cookieReply: Reply, emailReply: Reply, sessionsReply: Reply, processAlive: bool)
      returns (outcome: TickOutcome)
      requires monitoring
      modifies this`monitoring, this`currentSessionId, this`loginCallbacks, driver`events, driver`hasProcess
      ensures old(currentSessionId).None? || CookiesOf(cookieReply).None? ==>
        outcome == Stopped && !monitoring && currentSessionId.None?
      ensures old(currentSessionId).Some? && CookiesOf(cookieReply).Some? && FirstToken(CookiesOf(cookieReply).value).None? ==>
        outcome == Continue && monitoring && currentSessionId == old(currentSessionId)
      ensures old(currentSessionId).Some? && CookiesOf(cookieReply).Some? && FirstToken(CookiesOf(cookieReply).value).Some? ==>
        !monitoring && currentSessionId.None?
        && outcome == (if ScriptResultOf(emailReply).None? then Stopped
                       else LoggedIn(ScriptResultOf(emailReply).value, FirstToken(CookiesOf(cookieReply).value).value))
      ensures outcome.LoggedIn? ==>
        && loginCallbacks == old(loginCallbacks) + [(outcome.email, outcome.token)]
        && driver.events == old(driver.events) + CleanupEvents(SessionIdsOf(sessionsReply), old(driver.hasProcess) && processAlive)
      ensures !outcome.LoggedIn? ==>
        loginCallbacks == old(loginCallbacks) && driver.events == old(driver.events) && driver.hasProcess == old(driver.hasProcess)
    {
      if currentSessionId.None? {
        StopMonitoring();
        return Stopped;
      }
      var cookies := CookiesOf(cookieReply);
      if cookies.None? {
        StopMonitoring();
        return Stopped;
      }
      var i := 0;
      while i < |cookies.value|
        invariant 0 <= i <= |cookies.value|
        invariant FirstToken(cookies.value[i..]) == FirstToken(cookies.value)
      {
        var cookie := cookies.value[i];
        if IsTokenCookie(cookie) {
          var token := StringAt(cookie, "value").value;
          assert FirstToken(cookies.value[i..]) == Some(token);
          var email := ScriptResultOf(emailReply);
          StopMonitoring();
          if email.None? {
            return Stopped;
          }
          driver.Cleanup(sessionsReply, processAlive);
          loginCallbacks := loginCallbacks + [(email.value, token)];
          return LoggedIn(email.value, token);
        }
        assert cookies.value[i..][1..] == cookies.value[i + 1..];
        i := i + 1;
      }
      outcome := Continue;
    }
  }
}
