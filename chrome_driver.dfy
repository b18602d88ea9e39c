/** The ChromeDriver client (Service/ChromeDriverService.swift): Chrome's
    argument list, the cached version string, the start-up decision with
    its bounded status poll, and what the service takes from the W3C
    WebDriver replies (New Session, section 8.1; Navigate To, section 10.1;
    Get Page Source, section 13.1). Requests and process actions are
    recorded in an event log; replies, process liveness and the status
    probe answers are parameters. */
module ChromeDriver {
  import opened Common
  import opened Json
  import opened Wire

  const DriverPort: nat := 9515

  /** What the service finds on the machine. */
  datatype Host = Host(
    chromedriverPath: Option<string>,  // the bundled `chromedriver` binary
    chromePath: Option<string>,        // `getChromePath()`
    dataDir: Option<string>,           // `getChromeDataDir()?.path`
    bundleVersion: Option<string>)     // `CFBundleShortVersionString` of Chrome's Info.plist

  /** Something the service did that the outside world can see. */
  datatype Event =
    | Request(verb: string, path: string, body: Option<Json>)
    | Spawned(arguments: seq<string>)
    | Terminated
    | KillAll(name: string)

  /** The replies one `launchChrome` call receives. */
  datatype LaunchReplies = LaunchReplies(
    processAlive: bool,       // whether a held chromedriver process still runs
    probe: nat -> bool,       // whether the k-th `/status` probe got an answer
    spawnError: Option<string>,
    newSession: Reply,
    navigate: Reply)

  const FixedFlags: seq<string> := [
    "--disable-blink-features=AutomationControlled",
    "--no-default-browser-check",
    "--disable-infobars",
    "--no-first-run",
    "--test-type"
  ]

  // ---------------------------------------------------------------------
  // Chrome's arguments and version

  /** The version `getChromeVersion` derives from the bundle version: the
      first dot-separated component followed by `.0.0.0`. */
  function MajorVersion(version: string): Option<string> {
    var parts := SplitOmitting(version, '.');
    if |parts| >= 1 then Some(parts[0] + ".0.0.0") else None
  }

  /** `"128.0.6613.84"` and every other `major.rest` version reads as
      `major.0.0.0`. */
  lemma MajorVersionOf(major: string, rest: string)
    requires major != "" && '.' !in major
    ensures MajorVersion(major + "." + rest) == Some(major + ".0.0.0")
  {
    assert major + "." + rest == major + ['.'] + rest;
    SplitOmittingAppend(major, '.', rest);
    ComponentsWithout(major, '.');
    assert NonEmptyPieces([major]) == [major] + NonEmptyPieces([]);
  }

  /** A version with no digits between its dots gives no version at all. */
  lemma NoComponentNoVersion(version: string)
    requires forall i :: 0 <= i < |version| ==> version[i] == '.'
    ensures MajorVersion(version) == None
  {
    DotsOnly(version);
  }

  lemma {:induction false} DotsOnly(s: string)
    requires forall i :: 0 <= i < |s| ==> s[i] == '.'
    ensures SplitOmitting(s, '.') == []
    decreases |s|
  {
    if |s| > 0 {
      DotsOnly(s[1..]);
      assert s == "" + ['.'] + s[1..];
      SplitOmittingAppend("", '.', s[1..]);
      assert NonEmptyPieces([""]) == [];
    } else {
      assert NonEmptyPieces([""]) == [];
    }
  }

  /** The version `getChromeVersion` answers with the cache in the state
      `cached`: the cache when filled, otherwise whatever Info.plist gives. */
  function VersionLookup(cached: Option<string>, host: Host): Option<string> {
    if cached.Some? then cached
    else if host.chromePath.None? || host.bundleVersion.None? then None
    else MajorVersion(host.bundleVersion.value)
  }

  /** `buildChromeArgs`: the fixed flags; then, headless only, the headless
      flag and a user agent when a version is known; then, when there is a
      data directory, the data directory and the profile. */
  function ChromeArgs(headless: bool, version: Option<string>, dataDir: Option<string>, profile: string): seq<string> {
    FixedFlags
    + (if headless then ["--headless=new"] else [])
    + (if headless && version.Some? then ["--user-agent=Chrome/" + version.value] else [])
    + (if dataDir.Some? then ["--user-data-dir=" + dataDir.value, "--profile-directory=" + profile] else [])
  }

  /** Where each flag lands in the argument list. */
  lemma ChromeArgsLayout(headless: bool, version: Option<string>, dataDir: Option<string>, profile: string)
    ensures var args := ChromeArgs(headless, version, dataDir, profile);
      && args[..5] == FixedFlags
      && ("--headless=new" in args <==> headless)
      && |args| == 5 + (if headless then 1 else 0) + (if headless && version.Some? then 1 else 0) + (if dataDir.Some? then 2 else 0)
      && (headless ==> args[5] == "--headless=new")
      && (headless && version.Some? ==> args[6] == "--user-agent=Chrome/" + version.value)
      && (dataDir.Some? ==> args[|args| - 2..] == ["--user-data-dir=" + dataDir.value, "--profile-directory=" + profile])
  {
    var args := ChromeArgs(headless, version, dataDir, profile);
    if !headless {
      assert "--headless=new" !in args by {
        forall i | 0 <= i < |args| ensures args[i] != "--headless=new" {
          if i < 5 {
            assert args[i] == FixedFlags[i];
          } else {
            assert args[i][..3] == "--u" || args[i][..3] == "--p";
          }
        }
      }
    }
  }

  // ---------------------------------------------------------------------
  // Reading replies

  /** `sendRequest`: a failed request or a body that is not JSON throws; a
      JSON body that is not an object reads as `[:]`. */
  function ResponseObject(reply: Reply): (r: Result<map<string, Json>, Error>)
    ensures r.Failure? <==> reply.Unreachable? || reply.payload.NotJson?
    ensures r.Success? && reply.payload.value.Object? ==> r.value == reply.payload.value.fields
    ensures r.Success? && !reply.payload.value.Object? ==> r.value == map[]
  {
    match reply
    case Unreachable(m) => Failure(Transport(m))
    case Answered(_, NotJson(m)) => Failure(Transport(m))
    case Answered(_, Parsed(v)) => Success(if v.Object? then v.fields else map[])
  }

  /** The New Session reply: `value.sessionId` when it is a string. */
  function SessionIdOf(response: map<string, Json>): (r: Result<string, Error>)
    ensures r.Success? <==> ObjectAt(response, "value").Some? && StringAt(ObjectAt(response, "value").value, "sessionId").Some?
    ensures r.Failure? ==> r.error == SessionCreationFailed
  {
    match ObjectAt(response, "value")
    case None => Failure(SessionCreationFailed)
    case Some(value) =>
      match StringAt(value, "sessionId")
      case None => Failure(SessionCreationFailed)
      case Some(id) => Success(id)
  }

  /** The Get Page Source reply: `value` when it is a string. */
  function PageSourceOf(response: map<string, Json>): (r: Result<string, Error>)
    ensures r.Success? <==> StringAt(response, "value").Some?
    ensures r.Success? ==> response["value"] == Str(r.value)
    ensures r.Failure? ==> r.error == SessionCreationFailed
  {
    match StringAt(response, "value")
    case None => Failure(SessionCreationFailed)
    case Some(s) => Success(s)
  }

  /** `compactMap { $0["id"] as? String }` */
  function StringIds(items: seq<map<string, Json>>): (r: seq<string>)
    ensures |r| <= |items|
    ensures forall id :: id in r <==> exists i :: 0 <= i < |items| && StringAt(items[i], "id") == Some(id)
    decreases |items|
  {
    if |items| == 0 then []
    else
      var rest := StringIds(items[1..]);
      assert forall id :: (exists i :: 1 <= i < |items| && StringAt(items[i], "id") == Some(id)) <==>
        (exists i :: 0 <= i < |items[1..]| && StringAt(items[1..][i], "id") == Some(id)) by {
        forall i | 0 <= i < |items[1..]| ensures items[1..][i] == items[i + 1] { }
      }
      match StringAt(items[0], "id")
      case None => rest
      case Some(id) => [id] + rest
  }

  /** `getAllSessions`: the string ids of the `value` entries, or `[]` when
      the request fails or `value` is not an array of objects. */
  function SessionIdsOf(reply: Reply): seq<string> {
    match ResponseObject(reply)
    case Failure(_) => []
    case Success(response) =>
      if "value" in response && AsObjectArray(response["value"]).Some? then
        StringIds(AsObjectArray(response["value"]).value)
      else []
  }

  /** The request body of New Session. */
  function SessionRequestBody(chromePath: string, args: seq<string>): Json {
    Object(map[
      "capabilities" := Object(map[
        "alwaysMatch" := Object(map[
          "goog:chromeOptions" := Object(map[
            "binary" := Str(chromePath),
            "args" := Array(seq(|args|, i requires 0 <= i < |args| => Str(args[i]))),
            "excludeSwitches" := Array([Str("enable-automation")])
          ])
        ])
      ])
    ])
  }

  function StatusProbe(): Event {
    Request("GET", "/status", None)
  }

  function Probes(n: nat): (r: seq<Event>)
    ensures |r| == n && forall i :: 0 <= i < n ==> r[i] == StatusProbe()
  {
    seq(n, _ => StatusProbe())
  }

  function DeleteRequests(ids: seq<string>): (r: seq<Event>)
    ensures |r| == |ids|
    ensures forall i :: 0 <= i < |ids| ==> r[i] == Request("DELETE", "/session/" + ids[i], None)
  {
    seq(|ids|, i requires 0 <= i < |ids| => Request("DELETE", "/session/" + ids[i], None))
  }

  function KillEvents(): seq<Event> {
    [KillAll("chromedriver"), KillAll("Google Chrome for Testing")]
  }

  /** What `cleanup()` does: list and delete the sessions, terminate the
      held driver process when it runs, then kill every driver and browser
      process. */
  function CleanupEvents(ids: seq<string>, terminated: bool): seq<Event> {
    [Request("GET", "/sessions", None)] + DeleteRequests(ids) + (if terminated then [Terminated] else []) + KillEvents()
  }

  // ---------------------------------------------------------------------
  // What a launch ends in

  /** The error `startChromeDriver` throws for a service that holds
      (`hasProcess`) or does not hold a spawned process: none when the held
      process still runs or `/status` answers, the spawn error when the
      driver has to be spawned and cannot be, and `chromedriverNotFound`
      before anything else. */
  function StartError(host: Host, hasProcess: bool, processAlive: bool, probe: nat -> bool,
                      spawnError: Option<string>): Option<Error> {
    if host.chromedriverPath.None? then Some(ChromedriverNotFound)
    else if (hasProcess && processAlive) || probe(0) then None
    else if spawnError.Some? then Some(Transport(spawnError.value))
    else None
  }

  /** Whether the service holds a process after `startChromeDriver`: it
      keeps what it held unless it spawned a new one. */
  function HoldsAfterStart(host: Host, hasProcess: bool, processAlive: bool, probe: nat -> bool,
                           spawnError: Option<string>): bool {
    if host.chromedriverPath.Some? && !(hasProcess && processAlive) && !probe(0) && spawnError.None? then true
    else hasProcess
  }

  /** What `createChromeSession` returns for the New Session reply. */
  function SessionOutcome(host: Host, reply: Reply): Result<string, Error> {
    if host.chromePath.None? then Failure(ChromeNotFound)
    else
      match ResponseObject(reply)
      case Failure(e) => Failure(e)
      case Success(response) => SessionIdOf(response)
  }

  /** What `launchChrome` returns: the start error, else the session error,
      else, when `url` is not empty, a failed navigation's error, else the
      new session's id. */
  function LaunchOutcome(host: Host, hasProcess: bool, url: string, replies: LaunchReplies): (r: Result<string, Error>)
    ensures r.Success? ==> SessionOutcome(host, replies.newSession) == r
    ensures r.Success? ==> host.chromedriverPath.Some? && host.chromePath.Some?
  {
    match StartError(host, hasProcess, replies.processAlive, replies.probe, replies.spawnError)
    case Some(e) => Failure(e)
    case None =>
      match SessionOutcome(host, replies.newSession)
      case Failure(e) => Failure(e)
      case Success(id) =>
        if url != "" && ResponseObject(replies.navigate).Failure? then Failure(ResponseObject(replies.navigate).error)
        else Success(id)
  }

  /** The New Session reply carrying the session id `id`. */
  function SessionReply(id: string): Reply {
    Answered(200, Parsed(Object(map["value" := Object(map["sessionId" := Str(id)])])))
  }

  /** With both binaries present, a driver that answers `/status`, a New
      Session reply naming a session and a navigation that gets any JSON
      reply, the launch opens that session, whatever the driver held; and
      when a binary is missing the launch fails with that binary's error. */
  lemma LaunchSucceedsOnGoodReplies(host: Host, hasProcess: bool, url: string, replies: LaunchReplies, id: string)
    ensures host.chromedriverPath.Some? && host.chromePath.Some? && replies.probe(0)
            && replies.newSession == SessionReply(id) && replies.navigate.Answered? && replies.navigate.payload.Parsed? ==>
      LaunchOutcome(host, hasProcess, url, replies) == Success(id)
    ensures host.chromedriverPath.None? ==> LaunchOutcome(host, hasProcess, url, replies) == Failure(ChromedriverNotFound)
    ensures host.chromedriverPath.Some? && host.chromePath.None?
            && StartError(host, hasProcess, replies.processAlive, replies.probe, replies.spawnError).None? ==>
      LaunchOutcome(host, hasProcess, url, replies) == Failure(ChromeNotFound)
  {
  }

  // ---------------------------------------------------------------------
  // The service

  class DriverService {
    const host: Host
    /** Whether the service holds a chromedriver process it spawned. */
    var hasProcess: bool
    var cachedChromeVersion: Option<string>
    var events: seq<Event>

    constructor (host: Host)
      ensures this.host == host && !hasProcess && cachedChromeVersion.None? && events == []
    {
      this.host := host;
      hasProcess := false;
      cachedChromeVersion := None;
      events := [];
    }

    /** `getChromeVersion()`: answers from the cache once it is filled and
        fills it only with a successful result. */
    method GetChromeVersion() returns (v: Option<string>)
      modifies this`cachedChromeVersion
      ensures v == VersionLookup(old(cachedChromeVersion), host)
      ensures old(cachedChromeVersion).Some? ==> v == old(cachedChromeVersion)
      ensures cachedChromeVersion == v
    {
      if cachedChromeVersion.Some? {
        return cachedChromeVersion;
      }
      if host.chromePath.None? || host.bundleVersion.None? {
        return None;
      }
      var parts := SplitOmitting(host.bundleVersion.value, '.');
      if |parts| >= 1 {
        v := Some(parts[0] + ".0.0.0");
        cachedChromeVersion := v;
        return v;
      }
      return None;
    }

    /** `buildChromeArgs(headless:profileDirectory:)`; the version is only
        looked up for a headless browser. */
    method BuildChromeArgs(headless: bool, profileDirectory: string) returns (args: seq<string>)
      modifies this`cachedChromeVersion
      ensures args == ChromeArgs(headless, if headless then VersionLookup(old(cachedChromeVersion), host) else None,
                                 host.dataDir, profileDirectory)
      ensures !headless ==> cachedChromeVersion == old(cachedChromeVersion)
    {
      args := FixedFlags;
      var agent: seq<string> := [];
      if headless {
        args := args + ["--headless=new"];
        var version := GetChromeVersion();
        if version.Some? {
          agent := ["--user-agent=Chrome/" + version.value];
          args := args + agent;
        }
      }
      if host.dataDir.Some? {
        args := args + ["--user-data-dir=" + host.dataDir.value];
        args := args + ["--profile-directory=" + profileDirectory];
      }
    }

    /** `startChromeDriver()`: fails with `chromedriverNotFound` before
        doing anything when the binary is missing; does nothing more when
        the held process runs or `/status` answers; otherwise spawns the
        driver and polls `/status` until it answers, at most 50 times.
        Running out of polls is not an error. */
    method StartChromeDriver(processAlive: bool, probe: nat -> bool, spawnError: Option<string>)
      returns (err: Option<Error>, polls: nat)
      modifies this`hasProcess, this`events
      ensures host.chromedriverPath.None? ==>
        err == Some(ChromedriverNotFound) && events == old(events) && hasProcess == old(hasProcess)
      ensures host.chromedriverPath.Some? && old(hasProcess) && processAlive ==>
        err.None? && events == old(events) && hasProcess
      ensures host.chromedriverPath.Some? && !(old(hasProcess) && processAlive) && probe(0) ==>
        err.None? && events == old(events) + [StatusProbe()] && hasProcess == old(hasProcess)
      ensures host.chromedriverPath.Some? && !(old(hasProcess) && processAlive) && !probe(0) && spawnError.Some? ==>
        err == Some(Transport(spawnError.value)) && events == old(events) + [StatusProbe()] && hasProcess == old(hasProcess)
      ensures host.chromedriverPath.Some? && !(old(hasProcess) && processAlive) && !probe(0) && spawnError.None? ==>
        && err.None? && hasProcess
        && 1 <= polls <= 50
        && (forall k :: 1 <= k < polls ==> !probe(k))
        && (polls < 50 ==> probe(polls))
        && events == old(events) + [StatusProbe(), Spawned(["--port=" + NatToString(DriverPort)])] + Probes(polls)
      ensures polls <= 50
      ensures err == StartError(host, old(hasProcess), processAlive, probe, spawnError)
      ensures hasProcess == HoldsAfterStart(host, old(hasProcess), processAlive, probe, spawnError)
    {
      polls := 0;
      if host.chromedriverPath.None? {
        return Some(ChromedriverNotFound), 0;
      }
      if hasProcess && processAlive {
        return None, 0;
      }
      events := events + [StatusProbe()];
      if probe(0) {
        return None, 0;
      }
      if spawnError.Some? {
        return Some(Transport(spawnError.value)), 0;
      }
      events := events + [Spawned(["--port=" + NatToString(DriverPort)])];
      hasProcess := true;
      ghost var before := events;
      var answered := false;
      while polls < 50 && !answered
        invariant 0 <= polls <= 50
        invariant forall k :: 1 <= k < polls ==> !probe(k)
        invariant answered ==> 1 <= polls && probe(polls)
        invariant !answered ==> forall k :: 1 <= k <= polls ==> !probe(k)
        invariant events == before + Probes(polls)
        invariant hasProcess
        decreases 50 - polls, !answered
      {
        events := events + [StatusProbe()];
        polls := polls + 1;
        answered := probe(polls);
      }
      assert events == old(events) + [StatusProbe(), Spawned(["--port=" + NatToString(DriverPort)])] + Probes(polls);
      err := None;
    }

    /** `sendRequest`: records the request and reads the reply as an
        object. */
    method SendRequest(httpMethod: string, path: string, body: Option<Json>, reply: Reply)
      returns (r: Result<map<string, Json>, Error>)
      modifies this`events
      ensures events == old(events) + [Request(httpMethod, path, body)]
      ensures r == ResponseObject(reply)
    {
      events := events + [Request(httpMethod, path, body)];
      r := ResponseObject(reply);
    }

    /** `createChromeSession`: fails with `chromeNotFound` without a
        request when Chrome is missing, and with `sessionCreationFailed`
        unless the reply carries `value.sessionId` as a string. */
    method CreateChromeSession(headless: bool, profileDirectory: string, reply: Reply)
      returns (r: Result<string, Error>)
      modifies this`cachedChromeVersion, this`events
      ensures host.chromePath.None? ==> r == Failure(ChromeNotFound) && events == old(events)
      ensures host.chromePath.Some? ==>
        var args := ChromeArgs(headless, if headless then VersionLookup(old(cachedChromeVersion), host) else None,
                               host.dataDir, profileDirectory);
        && events == old(events) + [Request("POST", "/session", Some(SessionRequestBody(host.chromePath.value, args)))]
        && r == match ResponseObject(reply)
                case Failure(e) => Failure(e)
                case Success(response) => SessionIdOf(response)
      ensures r == SessionOutcome(host, reply)
    {
      if host.chromePath.None? {
        return Failure(ChromeNotFound);
      }
      var args := BuildChromeArgs(headless, profileDirectory);
      var response := SendRequest("POST", "/session", Some(SessionRequestBody(host.chromePath.value, args)), reply);
      if response.Failure? {
        return Failure(response.error);
      }
      r := SessionIdOf(response.value);
    }

    /** `launchChrome(url:headless:profileDirectory:)`: start the driver,
        open a session, and navigate to `url` only when it is not empty;
        the first of these steps to fail gives the error. */
    method LaunchChrome(url: string, headless: bool, profileDirectory: string, replies: LaunchReplies)
      returns (r: Result<string, Error>)
      modifies this`hasProcess, this`cachedChromeVersion, this`events
      ensures r == LaunchOutcome(host, old(hasProcess), url, replies)
      ensures hasProcess == HoldsAfterStart(host, old(hasProcess), replies.processAlive, replies.probe, replies.spawnError)
      ensures host.chromedriverPath.None? ==> r == Failure(ChromedriverNotFound) && events == old(events)
      ensures |events| >= |old(events)| && events[..|old(events)|] == old(events)
      ensures r.Success? ==> |events| > |old(events)|
      ensures r.Success? && url == "" ==> events[|events| - 1].Request? && events[|events| - 1].path == "/session"
      ensures r.Success? && url != "" ==>
        && |events| > 0
        && events[|events| - 1] == Request("POST", "/session/" + r.value + "/url", Some(Object(map["url" := Str(url)])))
        && ResponseObject(replies.navigate).Success?
    {
      var err, _ := StartChromeDriver(replies.processAlive, replies.probe, replies.spawnError);
      if err.Some? {
        return Failure(err.value);
      }
      var session := CreateChromeSession(headless, profileDirectory, replies.newSession);
      if session.Failure? {
        return session;
      }
      if url != "" {
        var nav := NavigateToURL(session.value, url, replies.navigate);
        if nav.Some? {
          return Failure(nav.value);
        }
      }
      r := session;
    }

    /** `navigateToURL(sessionId:url:)`: only a failed request is an error;
        the reply's content is ignored. */
    method NavigateToURL(sessionId: string, url: string, reply: Reply) returns (err: Option<Error>)
      modifies this`events
      ensures events == old(events) + [Request("POST", "/session/" + sessionId + "/url", Some(Object(map["url" := Str(url)])))]
      ensures err.None? <==> ResponseObject(reply).Success?
      ensures err.Some? ==> Failure(err.value) == ResponseObject(reply)
    {
      var response := SendRequest("POST", "/session/" + sessionId + "/url", Some(Object(map["url" := Str(url)])), reply);
      err := if response.Failure? then Some(response.error) else None;
    }

    /** `deleteSession(_:)`: errors are swallowed. */
    method DeleteSession(sessionId: string)
      modifies this`events
      ensures events == old(events) + [Request("DELETE", "/session/" + sessionId, None)]
    {
      events := events + [Request("DELETE", "/session/" + sessionId, None)];
    }

    /** `getPageSource(sessionId:)` */
    method GetPageSource(sessionId: string, reply: Reply) returns (r: Result<string, Error>)
      modifies this`events
      ensures events == old(events) + [Request("GET", "/session/" + sessionId + "/source", None)]
      ensures r == match ResponseObject(reply)
                   case Failure(e) => Failure(e)
                   case Success(response) => PageSourceOf(response)
    {
      var response := SendRequest("GET", "/session/" + sessionId + "/source", None, reply);
      if response.Failure? {
        return Failure(response.error);
      }
      r := PageSourceOf(response.value);
    }

    /** `deleteAllSessions()`: list the sessions, then delete each one in
        turn; failures are ignored. */
    method DeleteAllSessions(listReply: Reply) returns (ids: seq<string>)
      modifies this`events
      ensures ids == SessionIdsOf(listReply)
      ensures events == old(events) + [Request("GET", "/sessions", None)] + DeleteRequests(ids)
    {
      events := events + [Request("GET", "/sessions", None)];
      ids := SessionIdsOf(listReply);
      ghost var before := events;
      var i := 0;
      while i < |ids|
        invariant 0 <= i <= |ids|
        invariant events == before + DeleteRequests(ids[..i])
      {
        DeleteSession(ids[i]);
        assert DeleteRequests(ids[..i + 1]) == DeleteRequests(ids[..i]) + [Request("DELETE", "/session/" + ids[i], None)];
        i := i + 1;
      }
      assert ids[..i] == ids;
    }

    /** `stopChromeDriver()`: terminates and forgets the held process only
        if it is running. */
    method StopChromeDriver(processAlive: bool)
      modifies this`hasProcess, this`events
      ensures old(hasProcess) && processAlive ==> !hasProcess && events == old(events) + [Terminated]
      ensures !(old(hasProcess) && processAlive) ==> hasProcess == old(hasProcess) && events == old(events)
    {
      if hasProcess && processAlive {
        events := events + [Terminated];
        hasProcess := false;
      }
    }

    /** `cleanup()`: every session is deleted before the driver is stopped
        and the driver and browser processes are killed. */
    method Cleanup(listReply: Reply, processAlive: bool)
      modifies this`hasProcess, this`events
      ensures events == old(events) + CleanupEvents(SessionIdsOf(listReply), old(hasProcess) && processAlive)
      ensures !(old(hasProcess) && processAlive) ==> hasProcess == old(hasProcess)
      ensures old(hasProcess) && processAlive ==> !hasProcess
    {
      var _ := DeleteAllSessions(listReply);
      StopChromeDriver(processAlive);
      events := events + KillEvents();
    }
  }
}
