/** Accounts signed in to Chrome profiles (Service/ChromeProfileService.swift):
    which directories of Chrome's data directory are profiles, which
    account a profile is signed in to, the monitor that notices a newly
    signed-in profile, the headless sync of several profile accounts, and
    the removal of a profile. The data directory is a value read from disk
    when the source reads it. */
module ChromeProfile {
  import opened Common
  import opened Json
  import opened Wire
  import opened Notes
  import opened Accounts
  import opened Store
  import opened ChromeDriver
  import opened GoogleApi
  import opened PageText

  const AddUrl: string := "https://support.google.com/chrome/answer/2364824"
  const KeepUrl: string := "https://keep.google.com"

  /** One entry of the data directory: whether it is a directory and its
      `Preferences` file. */
  datatype ProfileEntry = ProfileEntry(isDirectory: bool, preferences: JsonFile)

  /** Chrome's data directory: its entries by name, and `Local State`. */
  datatype DataDirectory = DataDirectory(entries: map<string, ProfileEntry>, localState: JsonFile)

  // ---------------------------------------------------------------------
  // Profiles

  predicate IsHidden(name: string) {
    |name| > 0 && name[0] == '.'
  }

  predicate IsProfileName(name: string) {
    name == "Default" || "Profile " <= name
  }

  /** `getCurrentProfiles()`: the visible directories named `Default` or
      `Profile …` that hold a `Preferences` file. */
  function GetCurrentProfiles(dir: Option<DataDirectory>): (r: set<string>)
    ensures dir.None? ==> r == {}
    ensures forall name :: name in r ==>
      dir.Some? && name in dir.value.entries && !IsHidden(name) && IsProfileName(name)
      && dir.value.entries[name].isDirectory && !dir.value.entries[name].preferences.Absent?
    ensures dir.Some? ==> forall name ::
      (name in dir.value.entries && !IsHidden(name) && IsProfileName(name)
       && dir.value.entries[name].isDirectory && !dir.value.entries[name].preferences.Absent?) ==> name in r
  {
    if dir.None? then {}
    else
      var entries := dir.value.entries;
      set name | name in entries && !IsHidden(name) && IsProfileName(name)
                 && entries[name].isDirectory && !entries[name].preferences.Absent?
  }

  /** A hidden or oddly named directory is never a profile. */
  lemma OnlyProfileNames(dir: Option<DataDirectory>, name: string)
    requires IsHidden(name) || !IsProfileName(name)
    ensures name !in GetCurrentProfiles(dir)
  {
  }

  /** The top-level object of a profile's `Preferences`, when it parses as
      one. */
  function PreferencesOf(dir: Option<DataDirectory>, name: string): Option<map<string, Json>> {
    if dir.Some? && name in dir.value.entries then
      match dir.value.entries[name].preferences
      case Document(Object(fields)) => Some(fields)
      case _ => None
    else None
  }

  /** `isExplicitSignIn(profileName:)`: both sign-in flags read as booleans
      (`as? Bool`, which takes a JSON boolean or the number 0 or 1) and
      both are true. */
  function IsExplicitSignIn(dir: Option<DataDirectory>, name: string): (r: bool)
    ensures r <==> (PreferencesOf(dir, name).Some? && ObjectAt(PreferencesOf(dir, name).value, "signin").Some?
      && BoolAt(ObjectAt(PreferencesOf(dir, name).value, "signin").value, "explicit_browser_signin") == Some(true)
      && BoolAt(ObjectAt(PreferencesOf(dir, name).value, "signin").value, "signin_with_explicit_browser_signin_on") == Some(true))
  {
    match PreferencesOf(dir, name)
    case None => false
    case Some(prefs) =>
      match ObjectAt(prefs, "signin")
      case None => false
      case Some(signin) =>
        match (BoolAt(signin, "explicit_browser_signin"), BoolAt(signin, "signin_with_explicit_browser_signin_on"))
        case (Some(a), Some(b)) => a && b
        case _ => false
  }

  /** A missing or non-boolean flag means no explicit sign-in. */
  lemma MissingFlagIsNoSignIn(dir: Option<DataDirectory>, name: string, signin: map<string, Json>)
    requires PreferencesOf(dir, name).Some? && ObjectAt(PreferencesOf(dir, name).value, "signin") == Some(signin)
    requires BoolAt(signin, "explicit_browser_signin").None? || BoolAt(signin, "signin_with_explicit_browser_signin_on").None?
    ensures !IsExplicitSignIn(dir, name)
  {
  }

  /** The objects of `account_info`, when it is an array of objects. */
  function AccountInfo(dir: Option<DataDirectory>, name: string): Option<seq<map<string, Json>>> {
    match PreferencesOf(dir, name)
    case None => None
    case Some(prefs) => if "account_info" in prefs then AsObjectArray(prefs["account_info"]) else None
  }

  /** `parseProfileAccount(chromeDataDir:profileName:)`: the account of the
      first `account_info` entry, named after the profile, when that entry
      has a non-empty email. */
  function ParseProfileAccount(dir: Option<DataDirectory>, name: string): (r: Option<AccountRecord>)
    ensures r.Some? <==> (AccountInfo(dir, name).Some? && |AccountInfo(dir, name).value| > 0
      && StringAt(AccountInfo(dir, name).value[0], "email").Some?
      && StringAt(AccountInfo(dir, name).value[0], "email").value != "")
    ensures r.Some? ==> r.value == AccountRecord(StringAt(AccountInfo(dir, name).value[0], "email").value, profileName := name)
    ensures r.Some? ==> r.value.email != "" && r.value.profileName == name && r.value.masterToken == ""
  {
    match AccountInfo(dir, name)
    case None => None
    case Some(infos) =>
      if |infos| == 0 then None
      else
        match StringAt(infos[0], "email")
        case None => None
        case Some(email) => if email == "" then None else Some(AccountRecord(email, profileName := name))
  }

  /** `r` lists, once each, the account `accountOf` gives every profile in
      `seen` that has one, and nothing else. */
  predicate ListsAccounts(accountOf: string -> Option<AccountRecord>, seen: set<string>, r: seq<AccountRecord>) {
    && (forall i :: 0 <= i < |r| ==> r[i].profileName in seen && accountOf(r[i].profileName) == Some(r[i]))
    && (forall p :: p in seen && accountOf(p).Some? ==> exists i :: 0 <= i < |r| && r[i].profileName == p)
    && (forall i, j :: 0 <= i < j < |r| ==> r[i].profileName != r[j].profileName)
  }

  /** Visiting one more profile. */
  lemma ListsAccountsStep(accountOf: string -> Option<AccountRecord>, seen: set<string>, r: seq<AccountRecord>, p: string)
    requires ListsAccounts(accountOf, seen, r) && p !in seen
    requires accountOf(p).Some? ==> accountOf(p).value.profileName == p
    ensures ListsAccounts(accountOf, seen + {p}, if accountOf(p).Some? then r + [accountOf(p).value] else r)
  {
    var r' := if accountOf(p).Some? then r + [accountOf(p).value] else r;
    forall i | 0 <= i < |r| ensures r'[i] == r[i] { }
    forall i, j | 0 <= i < j < |r'| ensures r'[i].profileName != r'[j].profileName {
      if j == |r| {
        assert r'[j].profileName == p && r[i].profileName in seen;
      }
    }
    forall q | q in seen + {p} && accountOf(q).Some?
      ensures exists i :: 0 <= i < |r'| && r'[i].profileName == q
    {
      if q == p {
        assert r'[|r|].profileName == q;
      } else {
        var i :| 0 <= i < |r| && r[i].profileName == q;
        assert r'[i].profileName == q;
      }
    }
  }

  /** `loadChromeProfiles()`: the account of every profile that has one,
      once each, in the order the set of profile names is walked. */
  method LoadChromeProfiles(dir: Option<DataDirectory>) returns (r: seq<AccountRecord>)
    ensures dir.None? ==> r == []
    ensures forall i :: 0 <= i < |r| ==>
      r[i].profileName in GetCurrentProfiles(dir) && ParseProfileAccount(dir, r[i].profileName) == Some(r[i])
    ensures forall p :: p in GetCurrentProfiles(dir) && ParseProfileAccount(dir, p).Some? ==>
      exists i :: 0 <= i < |r| && r[i].profileName == p
    ensures forall i, j :: 0 <= i < j < |r| ==> r[i].profileName != r[j].profileName
  {
    var profiles := GetCurrentProfiles(dir);
    var remaining := profiles;
    ghost var seen: set<string> := {};
    ghost var accountOf := q => ParseProfileAccount(dir, q);
    r := [];
    while remaining != {}
      invariant remaining <= profiles && seen == profiles - remaining
      invariant ListsAccounts(accountOf, seen, r)
      invariant dir.None? ==> r == []
      decreases remaining
    {
      var p :| p in remaining;
      var account := ParseProfileAccount(dir, p);
      ListsAccountsStep(accountOf, seen, r, p);
      if account.Some? {
        r := r + [account.value];
      }
      remaining := remaining - {p};
      seen := seen + {p};
    }
    forall q ensures accountOf(q) == ParseProfileAccount(dir, q) { }
  }

  // ---------------------------------------------------------------------
  // The add-profile monitor

  /** The profiles that already had an account when monitoring started. */
  function Baseline(dir: Option<DataDirectory>): set<string> {
    set p | p in GetCurrentProfiles(dir) && ParseProfileAccount(dir, p).Some?
  }

  /** The profiles a tick may report: new since the baseline, explicitly
      signed in, and with an account. */
  function Candidates(dir: Option<DataDirectory>, baseline: set<string>): (r: set<string>)
    ensures r * baseline == {}
  {
    set p | p in GetCurrentProfiles(dir) && p !in baseline && IsExplicitSignIn(dir, p) && ParseProfileAccount(dir, p).Some?
  }

  /** A profile that had an account at the start is never reported, even
      when it signs in again explicitly. */
  lemma BaselineNeverReported(start: Option<DataDirectory>, now: Option<DataDirectory>, p: string)
    requires p in GetCurrentProfiles(start) && ParseProfileAccount(start, p).Some?
    ensures p !in Candidates(now, Baseline(start))
  {
    assert p in Baseline(start);
  }

  datatype AddOutcome = Watching | Stopped | Added(account: AccountRecord)

  class ProfileMonitor {
    /** Whether the poll loop runs. */
    var monitoring: bool
    var currentSessionId: Option<string>
    var initialProfiles: set<string>
    /** The calls made to `onAddSuccess`, in order. */
    var addedAccounts: seq<AccountRecord>

    constructor ()
      ensures !monitoring && currentSessionId.None? && initialProfiles == {} && addedAccounts == []
    {
      monitoring := false;
      currentSessionId := None;
      initialProfiles := {};
      addedAccounts := [];
    }

    /** `stopMonitoring()` */
    method StopMonitoring()
      modifies this`monitoring, this`currentSessionId
      ensures !monitoring && currentSessionId.None?
    {
      monitoring := false;
      currentSessionId := None;
    }

    /** `startMonitoring()`: without a data directory the monitor stops at
        once; otherwise the baseline is taken and polling starts. */
    method StartMonitoring(dir: Option<DataDirectory>)
      modifies this`monitoring, this`initialProfiles
      ensures dir.None? ==> !monitoring && initialProfiles == old(initialProfiles)
      ensures dir.Some? ==> monitoring && initialProfiles == Baseline(dir)
    {
      if dir.None? {
        monitoring := false;
        return;
      }
      var profiles := GetCurrentProfiles(dir);
      initialProfiles := set p | p in profiles && ParseProfileAccount(dir, p).Some?;
      monitoring := true;
    }

    /** `startAdd()`: stop any earlier monitor, delete every driver session,
        open Chrome's sign-in help page and, once that succeeded, remember
        its session and start monitoring. The launch ends as `launchChrome`
        does for the driver's state on entry. */
    method StartAdd(driver: DriverService, sessionsReply: Reply, replies: LaunchReplies, dir: Option<DataDirectory>)
      returns (r: Result<string, Error>)
      modifies this`monitoring, this`currentSessionId, this`initialProfiles, driver
      ensures r == LaunchOutcome(driver.host, old(driver.hasProcess), AddUrl, replies)
      ensures driver.hasProcess == HoldsAfterStart(driver.host, old(driver.hasProcess), replies.processAlive, replies.probe, replies.spawnError)
      ensures |driver.events| >= |old(driver.events)| + 1 + |SessionIdsOf(sessionsReply)|
      ensures driver.events[..|old(driver.events)| + 1 + |SessionIdsOf(sessionsReply)|]
              == old(driver.events) + [Request("GET", "/sessions", None)] + DeleteRequests(SessionIdsOf(sessionsReply))
      ensures r.Failure? ==> !monitoring && currentSessionId.None?
      ensures r.Success? ==> currentSessionId == Some(r.value) && monitoring == dir.Some?
      ensures r.Success? && dir.Some? ==> initialProfiles == Baseline(dir)
      ensures addedAccounts == old(addedAccounts)
      ensures r.Success? ==> |driver.events| > 0
      ensures r.Success? ==>
        driver.events[|driver.events| - 1] == Request("POST", "/session/" + r.value + "/url", Some(Object(map["url" := Str(AddUrl)])))
    {
      StopMonitoring();
      var _ := driver.DeleteAllSessions(sessionsReply);
      r := driver.LaunchChrome(AddUrl, false, "Default", replies);
      if r.Failure? {
        return;
      }
      currentSessionId := Some(r.value);
      StartMonitoring(dir);
    }

    /** One iteration of the poll loop, after its one-second pause. A
        missing or dead session stops the monitor; otherwise the new
        profiles are walked and the first candidate met stops the monitor
        and is reported once to `onAddSuccess`. */
    method Tick(sessionAlive: bool, dir: Option<DataDirectory>) returns (outcome: AddOutcome)
      requires monitoring
      modifies this`monitoring, this`currentSessionId, this`addedAccounts
      ensures old(currentSessionId).None? || !sessionAlive ==>
        outcome == Stopped && !monitoring && currentSessionId.None? && addedAccounts == old(addedAccounts)
      ensures old(currentSessionId).Some? && sessionAlive && Candidates(dir, initialProfiles) == {} ==>
        outcome == Watching && monitoring && currentSessionId == old(currentSessionId) && addedAccounts == old(addedAccounts)
      ensures old(currentSessionId).Some? && sessionAlive && Candidates(dir, initialProfiles) != {} ==>
        && outcome.Added?
        && outcome.account.profileName in Candidates(dir, initialProfiles)
        && ParseProfileAccount(dir, outcome.account.profileName) == Some(outcome.account)
        && !monitoring && currentSessionId.None?
        && addedAccounts == old(addedAccounts) + [outcome.account]
    {
      if currentSessionId.None? || !sessionAlive {
        StopMonitoring();
        return Stopped;
      }
      var newProfiles := GetCurrentProfiles(dir) - initialProfiles;
      var remaining := newProfiles;
      while remaining != {}
        invariant remaining <= newProfiles
        invariant forall p :: p in newProfiles && p !in remaining ==> p !in Candidates(dir, initialProfiles)
        decreases remaining
      {
        var p :| p in remaining;
        if IsExplicitSignIn(dir, p) {
          var account := ParseProfileAccount(dir, p);
          if account.Some? {
            assert p in Candidates(dir, initialProfiles);
            StopMonitoring();
            addedAccounts := addedAccounts + [account.value];
            return Added(account.value);
          }
        }
        remaining := remaining - {p};
      }
      assert forall p :: p in Candidates(dir, initialProfiles) ==> p in newProfiles;
      assert Candidates(dir, initialProfiles) == {};
      outcome := Watching;
    }
  }

  // ---------------------------------------------------------------------
  // Syncing profile accounts

  /** What one account's Keep page yields: its root note dictionaries as
      notes of that account, or the error `syncNotesForSession` throws.
      `parseJson` stands for `JSONSerialization`. */
  function PageNotes(page: Reply, parseJson: string -> Payload, email: string): (r: Result<seq<Note>, Error>)
    ensures r.Success? ==> forall i :: 0 <= i < |r.value| ==> r.value[i].email == email
    ensures (ResponseObject(page).Success? && PageSourceOf(ResponseObject(page).value).Success?
             && ExtractLoadChunkJSON(PageSourceOf(ResponseObject(page).value).value).None?) ==> r == Failure(NoteParsingFailed)
  {
    match ResponseObject(page)
    case Failure(e) => Failure(e)
    case Success(response) =>
      match PageSourceOf(response)
      case Failure(e) => Failure(e)
      case Success(html) =>
        match ExtractLoadChunkJSON(html)
        case None => Failure(NoteParsingFailed)
        case Some(payload) =>
          match parseJson(Unescape(payload))
          case NotJson(m) => Failure(Transport(m))
          case Parsed(v) =>
            match AsObjectArray(v)
            case None => Failure(NoteParsingFailed)
            case Some(dicts) => Success(ParseNodes(dicts, email))
  }

  /** `syncNotesForSession(sessionId:account:modelContext:)`: read the page,
      decode its notes, and only then replace the account's notes. */
  method SyncNotesForSession(driver: DriverService, ctx: ModelContext, sessionId: string, email: string,
                             page: Reply, parseJson: string -> Payload)
    returns (err: Option<Error>)
    modifies driver`events, ctx
    ensures err.None? <==> PageNotes(page, parseJson, email).Success?
    ensures err.Some? ==> Failure(err.value) == PageNotes(page, parseJson, email) && ctx.notes == old(ctx.notes)
    ensures err.None? ==> ctx.notes == Without(old(ctx.notes), email) + PageNotes(page, parseJson, email).value
    ensures ctx.accounts == old(ctx.accounts)
    ensures err.None? ==> NotesOf(ctx.notes, email) == PageNotes(page, parseJson, email).value
    ensures forall other :: other != email ==> NotesOf(ctx.notes, other) == NotesOf(old(ctx.notes), other)
  {
    var html := driver.GetPageSource(sessionId, page);
    if html.Failure? {
      return Some(html.error);
    }
    var payload := ExtractLoadChunkJSON(html.value);
    if payload.None? {
      return Some(NoteParsingFailed);
    }
    var text := UnescapeJSONString(payload.value);
    var json := parseJson(text);
    if json.NotJson? {
      return Some(Transport(json.message));
    }
    var dicts := AsObjectArray(json.value);
    if dicts.None? {
      return Some(NoteParsingFailed);
    }
    ReplaceAccountNotes(ctx, email, ParseNodes(dicts.value, email));
    err := None;
  }

  /** The emails of a list of accounts, in order. */
  function EmailsOf(accounts: seq<AccountRecord>): (r: seq<string>)
    ensures |r| == |accounts| && forall i :: 0 <= i < |accounts| ==> r[i] == accounts[i].email
  {
    seq(|accounts|, i requires 0 <= i < |accounts| => accounts[i].email)
  }

  /** The error dictionary after recording `outcomes[i]` for `emails[i]`
      in order: a failure sets its email's entry, a success leaves the
      dictionary alone. */
  function ErrorMap(emails: seq<string>, outcomes: seq<Option<Error>>): map<string, Error>
    requires |emails| == |outcomes|
    decreases |emails|
  {
    if |emails| == 0 then map[]
    else
      var m := ErrorMap(emails[..|emails| - 1], outcomes[..|outcomes| - 1]);
      match outcomes[|outcomes| - 1]
      case None => m
      case Some(e) => m[emails[|emails| - 1] := e]
  }

  /** Only failing accounts' emails get an entry, each failing account gets
      one, and with distinct emails it holds that account's own error. */
  lemma ErrorMapSpec(emails: seq<string>, outcomes: seq<Option<Error>>)
    requires |emails| == |outcomes|
    ensures forall k :: k in ErrorMap(emails, outcomes) ==> exists i :: 0 <= i < |emails| && emails[i] == k && outcomes[i].Some?
    ensures forall i :: 0 <= i < |emails| && outcomes[i].Some? ==> emails[i] in ErrorMap(emails, outcomes)
    ensures (forall i, j :: 0 <= i < j < |emails| ==> emails[i] != emails[j]) ==>
      forall i :: 0 <= i < |emails| && outcomes[i].Some? ==> ErrorMap(emails, outcomes)[emails[i]] == outcomes[i].value
  {
    ErrorMapKeys(emails, outcomes);
    ErrorMapFailed(emails, outcomes);
    if forall i, j :: 0 <= i < j < |emails| ==> emails[i] != emails[j] {
      ErrorMapValues(emails, outcomes);
    }
  }

  lemma {:induction false} ErrorMapKeys(emails: seq<string>, outcomes: seq<Option<Error>>)
    requires |emails| == |outcomes|
    ensures forall k :: k in ErrorMap(emails, outcomes) ==> exists i :: 0 <= i < |emails| && emails[i] == k && outcomes[i].Some?
    decreases |emails|
  {
    if |emails| > 0 {
      var n := |emails| - 1;
      ErrorMapKeys(emails[..n], outcomes[..n]);
      forall k | k in ErrorMap(emails, outcomes)
        ensures exists i :: 0 <= i < |emails| && emails[i] == k && outcomes[i].Some?
      {
        if k != emails[n] || outcomes[n].None? {
          assert k in ErrorMap(emails[..n], outcomes[..n]);
          var i :| 0 <= i < n && emails[..n][i] == k && outcomes[..n][i].Some?;
          assert emails[i] == k && outcomes[i].Some?;
        }
      }
    }
  }

  lemma {:induction false} ErrorMapFailed(emails: seq<string>, outcomes: seq<Option<Error>>)
    requires |emails| == |outcomes|
    ensures forall i :: 0 <= i < |emails| && outcomes[i].Some? ==> emails[i] in ErrorMap(emails, outcomes)
    decreases |emails|
  {
    if |emails| > 0 {
      var n := |emails| - 1;
      ErrorMapFailed(emails[..n], outcomes[..n]);
      forall i | 0 <= i < n && outcomes[i].Some? ensures emails[i] in ErrorMap(emails, outcomes) {
        assert emails[..n][i] == emails[i] && outcomes[..n][i] == outcomes[i];
      }
    }
  }

  lemma {:induction false} ErrorMapValues(emails: seq<string>, outcomes: seq<Option<Error>>)
    requires |emails| == |outcomes|
    requires forall i, j :: 0 <= i < j < |emails| ==> emails[i] != emails[j]
    ensures forall i :: 0 <= i < |emails| && outcomes[i].Some? ==> emails[i] in ErrorMap(emails, outcomes)
    ensures forall i :: 0 <= i < |emails| && outcomes[i].Some? ==> ErrorMap(emails, outcomes)[emails[i]] == outcomes[i].value
    decreases |emails|
  {
    ErrorMapFailed(emails, outcomes);
    if |emails| > 0 {
      var n := |emails| - 1;
      ErrorMapValues(emails[..n], outcomes[..n]);
      forall i | 0 <= i < n && outcomes[i].Some?
        ensures ErrorMap(emails, outcomes)[emails[i]] == outcomes[i].value
      {
        assert emails[..n][i] == emails[i] && outcomes[..n][i] == outcomes[i];
        assert emails[i] != emails[n];
      }
    }
  }

  /** The replies one account's sync receives. */
  datatype AccountReplies = AccountReplies(launch: LaunchReplies, page: Reply)

  /** The note rows after replacing, in order, the notes of `emails[i]`
      with `synced[i]` wherever that account's sync succeeded. */
  function ApplySyncs(notes: seq<Note>, emails: seq<string>, synced: seq<Option<seq<Note>>>): seq<Note>
    requires |emails| == |synced|
    decreases |emails|, 2
  {
    if |emails| == 0 then notes else ApplySyncsOfNonEmpty(notes, emails, synced)
  }

  /** The replacements of a non-empty list of accounts. This step and the
      next keep the last replacement two calls below `ApplySyncs`, so that
      it is brought in by `ApplySyncsLast` only. */
  function ApplySyncsOfNonEmpty(notes: seq<Note>, emails: seq<string>, synced: seq<Option<seq<Note>>>): seq<Note>
    requires |emails| == |synced| > 0
    decreases |emails|, 1
  {
    ApplySyncsToLast(notes, emails, synced)
  }

  /** All but the last replacement, then the last one. */
  function ApplySyncsToLast(notes: seq<Note>, emails: seq<string>, synced: seq<Option<seq<Note>>>): seq<Note>
    requires |emails| == |synced| > 0
    decreases |emails|, 0
  {
    var n := |emails| - 1;
    var before := ApplySyncs(notes, emails[..n], synced[..n]);
    match synced[n]
    case None => before
    case Some(incoming) => Without(before, emails[n]) + incoming
  }

  /** The last replacement applied after the others. */
  lemma ApplySyncsLast(notes: seq<Note>, emails: seq<string>, synced: seq<Option<seq<Note>>>)
    requires |emails| == |synced| > 0
    ensures var n := |emails| - 1;
      var before := ApplySyncs(notes, emails[..n], synced[..n]);
      ApplySyncs(notes, emails, synced) == if synced[n].Some? then Without(before, emails[n]) + synced[n].value else before
  {
    assert ApplySyncs(notes, emails, synced) == ApplySyncsOfNonEmpty(notes, emails, synced);
  }

  /** Every replacement holds notes of its own account only. */
  predicate OwnNotes(emails: seq<string>, synced: seq<Option<seq<Note>>>)
    requires |emails| == |synced|
  {
    forall i :: 0 <= i < |synced| && synced[i].Some? ==>
      forall k :: 0 <= k < |synced[i].value| ==> synced[i].value[k].email == emails[i]
  }

  /** An account that is not synced keeps its notes. */
  lemma {:induction false} ApplySyncsKeepsOthers(notes: seq<Note>, emails: seq<string>, synced: seq<Option<seq<Note>>>, e: string)
    requires |emails| == |synced| && OwnNotes(emails, synced)
    requires e !in emails
    ensures NotesOf(ApplySyncs(notes, emails, synced), e) == NotesOf(notes, e)
    decreases |emails|
  {
    if |emails| > 0 {
      var n := |emails| - 1;
      assert OwnNotes(emails[..n], synced[..n]) by {
        forall i | 0 <= i < n ensures synced[..n][i] == synced[i] && emails[..n][i] == emails[i] { }
      }
      assert e !in emails[..n] by {
        forall i | 0 <= i < n ensures emails[..n][i] == emails[i] { }
      }
      ApplySyncsKeepsOthers(notes, emails[..n], synced[..n], e);
      ApplySyncsLast(notes, emails, synced);
      if synced[n].Some? {
        assert e != emails[n];
        ReplaceNotesSpec(ApplySyncs(notes, emails[..n], synced[..n]), emails[n], synced[n].value);
      }
    }
  }

  /** With distinct emails, each account ends with its replacement when its
      sync succeeded and with its old notes otherwise. */
  lemma {:induction false} ApplySyncsDistinct(notes: seq<Note>, emails: seq<string>, synced: seq<Option<seq<Note>>>, i: nat)
    requires |emails| == |synced| && OwnNotes(emails, synced) && Distinct(emails)
    requires i < |emails|
    ensures NotesOf(ApplySyncs(notes, emails, synced), emails[i]) ==
      if synced[i].Some? then synced[i].value else NotesOf(notes, emails[i])
    decreases |emails|
  {
    var n := |emails| - 1;
    var before := ApplySyncs(notes, emails[..n], synced[..n]);
    ApplySyncsLast(notes, emails, synced);
    assert OwnNotes(emails[..n], synced[..n]) by {
      forall j | 0 <= j < n ensures synced[..n][j] == synced[j] && emails[..n][j] == emails[j] { }
    }
    if i == n {
      assert emails[n] !in emails[..n] by {
        forall j | 0 <= j < n ensures emails[..n][j] != emails[n] {
          assert emails[..n][j] == emails[j];
        }
      }
      ApplySyncsKeepsOthers(notes, emails[..n], synced[..n], emails[n]);
      if synced[n].Some? {
        ReplaceNotesSpec(before, emails[n], synced[n].value);
      }
    } else {
      assert Distinct(emails[..n]) by {
        forall j, k | 0 <= j < k < n ensures emails[..n][j] != emails[..n][k] {
          assert emails[..n][j] == emails[j] && emails[..n][k] == emails[k];
        }
      }
      ApplySyncsDistinct(notes, emails[..n], synced[..n], i);
      assert emails[..n][i] == emails[i] && synced[..n][i] == synced[i];
      if synced[n].Some? {
        assert emails[i] != emails[n];
        ReplaceNotesSpec(before, emails[n], synced[n].value);
      }
    }
  }

  /** What one account's sync put in the store: its page's notes when the
      sync succeeded. */
  function SyncedEntry(outcome: Option<Error>, reply: AccountReplies, parseJson: string -> Payload,
                       email: string): (r: Option<seq<Note>>)
    ensures r.Some? ==> forall k :: 0 <= k < |r.value| ==> r.value[k].email == email
  {
    if outcome.None? && PageNotes(reply.page, parseJson, email).Success? then
      Some(PageNotes(reply.page, parseJson, email).value)
    else None
  }

  /** What each account's sync put in the store. */
  function SyncedNotes(accounts: seq<AccountRecord>, outcomes: seq<Option<Error>>,
                       replies: nat -> AccountReplies, parseJson: string -> Payload): (r: seq<Option<seq<Note>>>)
    requires |outcomes| == |accounts|
    ensures |r| == |accounts|
    ensures OwnNotes(EmailsOf(accounts), r)
  {
    var r := seq(|accounts|, i requires 0 <= i < |accounts| => SyncedEntry(outcomes[i], replies(i), parseJson, accounts[i].email));
    assert forall i :: 0 <= i < |accounts| ==> r[i] == SyncedEntry(outcomes[i], replies(i), parseJson, accounts[i].email);
    r
  }

  /** Entry `i` of `SyncedNotes`. */
  lemma SyncedNotesAt(accounts: seq<AccountRecord>, outcomes: seq<Option<Error>>,
                      replies: nat -> AccountReplies, parseJson: string -> Payload, i: nat)
    requires |outcomes| == |accounts| && i < |accounts|
    ensures SyncedNotes(accounts, outcomes, replies, parseJson)[i] ==
      if outcomes[i].None? && PageNotes(replies(i).page, parseJson, accounts[i].email).Success? then
        Some(PageNotes(replies(i).page, parseJson, accounts[i].email).value)
      else None
  {
  }

  /** Recording one more account's sync outcome adds one replacement. */
  lemma SyncedNotesStep(accounts: seq<AccountRecord>, outcomes: seq<Option<Error>>, outcome: Option<Error>,
                        replies: nat -> AccountReplies, parseJson: string -> Payload)
    requires |outcomes| < |accounts|
    ensures var i := |outcomes|;
      SyncedNotes(accounts[..i + 1], outcomes + [outcome], replies, parseJson)[..i]
        == SyncedNotes(accounts[..i], outcomes, replies, parseJson)
  {
    var i := |outcomes|;
    var a := SyncedNotes(accounts[..i + 1], outcomes + [outcome], replies, parseJson);
    var b := SyncedNotes(accounts[..i], outcomes, replies, parseJson);
    forall j | 0 <= j < i ensures a[j] == b[j] {
      assert accounts[..i + 1][j] == accounts[..i][j];
    }
  }

  /** One step of the fold: the first `i + 1` replacements are the first
      `i` followed by replacement `i`. */
  lemma ApplySyncsStep(notes: seq<Note>, emails: seq<string>, synced: seq<Option<seq<Note>>>, i: nat)
    requires i < |emails| && |synced| == i + 1
    ensures ApplySyncs(notes, emails[..i + 1], synced) ==
      match synced[i]
      case None => ApplySyncs(notes, emails[..i], synced[..i])
      case Some(incoming) => Without(ApplySyncs(notes, emails[..i], synced[..i]), emails[i]) + incoming
  {
    assert emails[..i + 1][..i] == emails[..i];
    ApplySyncsLast(notes, emails[..i + 1], synced);
  }

  /** What syncing one profile account ends in when the driver holds
      (`hasProcess`) or does not hold a spawned process as its headless
      session is launched: the launch's error, else the page's error, else
      success. */
  function ProfileOutcome(host: Host, hasProcess: bool, replies: AccountReplies, parseJson: string -> Payload,
                          email: string): (r: Option<Error>)
    ensures r.None? <==> LaunchOutcome(host, hasProcess, KeepUrl, replies.launch).Success?
                         && PageNotes(replies.page, parseJson, email).Success?
  {
    match LaunchOutcome(host, hasProcess, KeepUrl, replies.launch)
    case Failure(e) => Some(e)
    case Success(_) =>
      match PageNotes(replies.page, parseJson, email)
      case Failure(e) => Some(e)
      case Success(_) => None
  }

  /** Whether the driver holds a spawned process when the `i`-th account's
      session is launched, having held `hasProcess` before the first: each
      launch starts the driver again and may spawn it. */
  function HoldsBefore(host: Host, hasProcess: bool, replies: nat -> AccountReplies, i: nat): bool
    decreases i
  {
    if i == 0 then hasProcess
    else
      var launch := replies(i - 1).launch;
      HoldsAfterStart(host, HoldsBefore(host, hasProcess, replies, i - 1),
                      launch.processAlive, launch.probe, launch.spawnError)
  }

  lemma HoldsBeforeNext(host: Host, hasProcess: bool, replies: nat -> AccountReplies, i: nat)
    ensures var launch := replies(i).launch;
      HoldsBefore(host, hasProcess, replies, i + 1) ==
        HoldsAfterStart(host, HoldsBefore(host, hasProcess, replies, i), launch.processAlive, launch.probe, launch.spawnError)
  {
  }

  /** What the `i`-th account's sync ends in when the accounts are synced
      one after another on a started driver. */
  function OutcomeOfNth(host: Host, hasProcess: bool, replies: nat -> AccountReplies, parseJson: string -> Payload)
    : (nat, AccountRecord) -> Option<Error>
  {
    (i: nat, a: AccountRecord) => ProfileOutcome(host, HoldsBefore(host, hasProcess, replies, i), replies(i), parseJson, a.email)
  }

  /** What each account's sync ends in when the accounts are synced one
      after another on a started driver. */
  function ProfileOutcomes(host: Host, hasProcess: bool, accounts: seq<AccountRecord>,
                           replies: nat -> AccountReplies, parseJson: string -> Payload): (r: seq<Option<Error>>)
    ensures |r| == |accounts|
    ensures forall i :: 0 <= i < |accounts| ==>
      r[i] == ProfileOutcome(host, HoldsBefore(host, hasProcess, replies, i), replies(i), parseJson, accounts[i].email)
  {
    MapIndexed(accounts, OutcomeOfNth(host, hasProcess, replies, parseJson))
  }

  /** One more account synced adds that account's outcome. */
  lemma ProfileOutcomesSnoc(host: Host, hasProcess: bool, accounts: seq<AccountRecord>,
                            replies: nat -> AccountReplies, parseJson: string -> Payload, i: nat)
    requires i < |accounts|
    ensures ProfileOutcomes(host, hasProcess, accounts[..i + 1], replies, parseJson) ==
      ProfileOutcomes(host, hasProcess, accounts[..i], replies, parseJson)
        + [ProfileOutcome(host, HoldsBefore(host, hasProcess, replies, i), replies(i), parseJson, accounts[i].email)]
  {
    MapIndexedSnoc(accounts, OutcomeOfNth(host, hasProcess, replies, parseJson), i);
  }

  /** What each account's sync in `syncMultipleAccounts` ends in: when the
      driver cannot be started, the start error for every account; when it
      can, each account's own outcome. */
  function BatchOutcomes(host: Host, hasProcess: bool, accounts: seq<AccountRecord>, start: LaunchReplies,
                         replies: nat -> AccountReplies, parseJson: string -> Payload): (r: seq<Option<Error>>)
    ensures |r| == |accounts|
    ensures var e := StartError(host, hasProcess, start.processAlive, start.probe, start.spawnError);
      e.Some? ==> forall i :: 0 <= i < |r| ==> r[i] == e
  {
    match StartError(host, hasProcess, start.processAlive, start.probe, start.spawnError)
    case Some(e) => seq(|accounts|, _ => Some(e))
    case None =>
      ProfileOutcomes(host, HoldsAfterStart(host, hasProcess, start.processAlive, start.probe, start.spawnError),
                      accounts, replies, parseJson)
  }

  /** The body of the per-account loop: open a headless session on the
      profile and sync its notes. */
  method SyncAccount(driver: DriverService, ctx: ModelContext, email: string, profileName: string,
                     replies: AccountReplies, parseJson: string -> Payload)
    returns (outcome: Option<Error>)
    modifies driver, ctx
    ensures outcome == ProfileOutcome(driver.host, old(driver.hasProcess), replies, parseJson, email)
    ensures driver.hasProcess ==
      HoldsAfterStart(driver.host, old(driver.hasProcess), replies.launch.processAlive, replies.launch.probe, replies.launch.spawnError)
    ensures outcome.None? ==> PageNotes(replies.page, parseJson, email).Success?
    ensures ctx.accounts == old(ctx.accounts)
    ensures ctx.notes == if outcome.None? then Without(old(ctx.notes), email) + PageNotes(replies.page, parseJson, email).value
                         else old(ctx.notes)
  {
    var session := driver.LaunchChrome(KeepUrl, true, profileName, replies.launch);
    if session.Failure? {
      return Some(session.error);
    }
    outcome := SyncNotesForSession(driver, ctx, session.value, email, replies.page, parseJson);
  }

  /** The loop run when the driver did not start: every account gets the
      start error. */
  method FailAll(accounts: seq<AccountRecord>, e: Error) returns (errors: map<string, Error>, ghost outcomes: seq<Option<Error>>)
    ensures |outcomes| == |accounts| && forall i :: 0 <= i < |outcomes| ==> outcomes[i] == Some(e)
    ensures errors == ErrorMap(EmailsOf(accounts), outcomes)
  {
    ghost var emails := EmailsOf(accounts);
    errors := map[];
    outcomes := [];
    var i := 0;
    while i < |accounts|
      invariant 0 <= i <= |accounts| && |outcomes| == i
      invariant forall k :: 0 <= k < i ==> outcomes[k] == Some(e)
      invariant errors == ErrorMap(emails[..i], outcomes)
    {
      ghost var before := errors;
      errors := errors[accounts[i].email := e];
      ErrorMapStep(emails, outcomes, Some(e), before, errors);
      outcomes := outcomes + [Some(e)];
      i := i + 1;
    }
    assert emails[..i] == emails;
  }

  /** Every account synced so far whose sync succeeded had a page that
      parsed. */
  predicate PagesParsed(accounts: seq<AccountRecord>, outcomes: seq<Option<Error>>,
                        replies: nat -> AccountReplies, parseJson: string -> Payload)
    requires |outcomes| <= |accounts|
  {
    forall j :: 0 <= j < |outcomes| && outcomes[j].None? ==>
      PageNotes(replies(j).page, parseJson, accounts[j].email).Success?
  }

  lemma PagesParsedStep(accounts: seq<AccountRecord>, outcomes: seq<Option<Error>>, outcome: Option<Error>,
                        replies: nat -> AccountReplies, parseJson: string -> Payload)
    requires |outcomes| < |accounts| && PagesParsed(accounts, outcomes, replies, parseJson)
    requires outcome.None? ==> PageNotes(replies(|outcomes|).page, parseJson, accounts[|outcomes|].email).Success?
    ensures PagesParsed(accounts, outcomes + [outcome], replies, parseJson)
  {
  }

  /** Recording one more outcome in the error dictionary. */
  lemma ErrorMapStep(emails: seq<string>, outcomes: seq<Option<Error>>, outcome: Option<Error>,
                     before: map<string, Error>, after: map<string, Error>)
    requires |outcomes| < |emails|
    requires before == ErrorMap(emails[..|outcomes|], outcomes)
    requires after == if outcome.Some? then before[emails[|outcomes|] := outcome.value] else before
    ensures after == ErrorMap(emails[..|outcomes| + 1], outcomes + [outcome])
  {
    var i := |outcomes|;
    assert emails[..i + 1][..i] == emails[..i];
    assert (outcomes + [outcome])[..i] == outcomes;
  }

  /** One more account synced: the store is the fold over one more
      replacement. */
  lemma SyncEachStep(notes: seq<Note>, accounts: seq<AccountRecord>, outcomes: seq<Option<Error>>,
                     outcome: Option<Error>, replies: nat -> AccountReplies, parseJson: string -> Payload,
                     before: seq<Note>, after: seq<Note>)
    requires |outcomes| < |accounts|
    requires before == ApplySyncs(notes, EmailsOf(accounts)[..|outcomes|],
                                  SyncedNotes(accounts[..|outcomes|], outcomes, replies, parseJson))
    requires outcome.None? ==> PageNotes(replies(|outcomes|).page, parseJson, accounts[|outcomes|].email).Success?
    requires after == if outcome.None?
      then Without(before, accounts[|outcomes|].email) + PageNotes(replies(|outcomes|).page, parseJson, accounts[|outcomes|].email).value
      else before
    ensures after == ApplySyncs(notes, EmailsOf(accounts)[..|outcomes| + 1],
                                SyncedNotes(accounts[..|outcomes| + 1], outcomes + [outcome], replies, parseJson))
  {
    var i := |outcomes|;
    var next := SyncedNotes(accounts[..i + 1], outcomes + [outcome], replies, parseJson);
    SyncedNotesStep(accounts, outcomes, outcome, replies, parseJson);
    SyncedNotesAt(accounts[..i + 1], outcomes + [outcome], replies, parseJson, i);
    ApplySyncsStep(notes, EmailsOf(accounts), next, i);
  }

  /** One pass of the per-account loop: account `i` is synced and its
      failure, if any, recorded under its email. */
  method SyncNext(driver: DriverService, ctx: ModelContext, accounts: seq<AccountRecord>, i: nat,
                  replies: nat -> AccountReplies, parseJson: string -> Payload,
                  errors: map<string, Error>, ghost outcomes: seq<Option<Error>>, ghost notes: seq<Note>,
                  ghost holds: bool)
    returns (next: map<string, Error>, outcome: Option<Error>)
    requires i == |outcomes| < |accounts|
    requires driver.hasProcess == HoldsBefore(driver.host, holds, replies, i)
    requires errors == ErrorMap(EmailsOf(accounts)[..i], outcomes)
    requires PagesParsed(accounts, outcomes, replies, parseJson)
    requires ctx.notes == ApplySyncs(notes, EmailsOf(accounts)[..i], SyncedNotes(accounts[..i], outcomes, replies, parseJson))
    modifies driver, ctx
    ensures next == ErrorMap(EmailsOf(accounts)[..i + 1], outcomes + [outcome])
    ensures outcome == ProfileOutcome(driver.host, HoldsBefore(driver.host, holds, replies, i), replies(i), parseJson, accounts[i].email)
    ensures driver.hasProcess == HoldsBefore(driver.host, holds, replies, i + 1)
    ensures PagesParsed(accounts, outcomes + [outcome], replies, parseJson)
    ensures ctx.accounts == old(ctx.accounts)
    ensures ctx.notes ==
      ApplySyncs(notes, EmailsOf(accounts)[..i + 1], SyncedNotes(accounts[..i + 1], outcomes + [outcome], replies, parseJson))
  {
    var email := accounts[i].email;
    outcome := SyncAccount(driver, ctx, email, accounts[i].profileName, replies(i), parseJson);
    HoldsBeforeNext(driver.host, holds, replies, i);
    next := if outcome.Some? then errors[email := outcome.value] else errors;
    ErrorMapStep(EmailsOf(accounts), outcomes, outcome, errors, next);
    PagesParsedStep(accounts, outcomes, outcome, replies, parseJson);
    SyncEachStep(notes, accounts, outcomes, outcome, replies, parseJson, old(ctx.notes), ctx.notes);
  }

  /** The loop run once the driver started: each account is synced in
      turn and its failure recorded under its email. */
  method SyncEach(driver: DriverService, ctx: ModelContext, accounts: seq<AccountRecord>,
                  replies: nat -> AccountReplies, parseJson: string -> Payload)
    returns (errors: map<string, Error>, ghost outcomes: seq<Option<Error>>)
    modifies driver, ctx
    ensures outcomes == ProfileOutcomes(driver.host, old(driver.hasProcess), accounts, replies, parseJson)
    ensures errors == ErrorMap(EmailsOf(accounts), outcomes)
    ensures forall i :: 0 <= i < |accounts| && outcomes[i].None? ==>
      PageNotes(replies(i).page, parseJson, accounts[i].email).Success?
    ensures ctx.accounts == old(ctx.accounts)
    ensures ctx.notes == ApplySyncs(old(ctx.notes), EmailsOf(accounts), SyncedNotes(accounts, outcomes, replies, parseJson))
  {
    errors := map[];
    outcomes := [];
    ghost var holds := driver.hasProcess;
    ghost var nth := OutcomeOfNth(driver.host, holds, replies, parseJson);
    var i := 0;
    while i < |accounts|
      invariant 0 <= i <= |accounts|
      invariant |outcomes| == i
      invariant driver.hasProcess == HoldsBefore(driver.host, holds, replies, i)
      invariant outcomes == MapIndexed(accounts[..i], nth)
      invariant errors == ErrorMap(EmailsOf(accounts)[..i], outcomes)
      invariant PagesParsed(accounts, outcomes, replies, parseJson)
      invariant ctx.accounts == old(ctx.accounts)
      invariant ctx.notes == ApplySyncs(old(ctx.notes), EmailsOf(accounts)[..i], SyncedNotes(accounts[..i], outcomes, replies, parseJson))
    {
      var outcome;
      errors, outcome := SyncNext(driver, ctx, accounts, i, replies, parseJson, errors, outcomes, old(ctx.notes), holds);
      MapIndexedSnoc(accounts, nth, i);
      outcomes := outcomes + [outcome];
      i := i + 1;
    }
    assert EmailsOf(accounts)[..i] == EmailsOf(accounts);
    assert accounts[..i] == accounts;
  }

  /** The driver's requests end with one `cleanup()`: the sessions that
      `sessionsReply` lists are deleted, the held process is terminated or
      not, and every driver and browser process is killed. */
  ghost predicate EndsWithCleanup(events: seq<Event>, sessionsReply: Reply)
    decreases |events|, 2
  {
    |events| > 0 && EndsWithCleanupOfNonEmpty(events, sessionsReply)
  }

  /** A non-empty run of requests that ends with the cleanup. This step
      and the next keep the cleanup's requests two calls below
      `EndsWithCleanup`, so that they are brought in by
      `CleanupEndsEvents` only. */
  ghost predicate EndsWithCleanupOfNonEmpty(events: seq<Event>, sessionsReply: Reply)
    requires |events| > 0
    decreases |events|, 1
  {
    CleanupOrLater(events, sessionsReply)
  }

  /** The requests are exactly one cleanup, or their tail ends with one. */
  ghost predicate CleanupOrLater(events: seq<Event>, sessionsReply: Reply)
    requires |events| > 0
    decreases |events|, 0
  {
    || (exists terminated: bool :: events == CleanupEvents(SessionIdsOf(sessionsReply), terminated))
    || EndsWithCleanup(events[1..], sessionsReply)
  }

  /** Requests followed by one cleanup end with the cleanup. */
  lemma {:induction false} CleanupEndsEvents(before: seq<Event>, sessionsReply: Reply, terminated: bool)
    ensures EndsWithCleanup(before + CleanupEvents(SessionIdsOf(sessionsReply), terminated), sessionsReply)
    decreases |before|
  {
    var events := before + CleanupEvents(SessionIdsOf(sessionsReply), terminated);
    if |before| > 0 {
      assert events[1..] == before[1..] + CleanupEvents(SessionIdsOf(sessionsReply), terminated);
      CleanupEndsEvents(before[1..], sessionsReply, terminated);
    }
    assert EndsWithCleanup(events, sessionsReply) == EndsWithCleanupOfNonEmpty(events, sessionsReply)
      == CleanupOrLater(events, sessionsReply);
  }

  /** `syncMultipleAccounts(_:modelContext:)`: nothing at all for no
      accounts. Otherwise start the driver once; if that fails every
      account gets its error; if not, each account is synced in its own
      headless session and a failure is recorded for that account alone.
      The driver is cleaned up exactly once, at the end. `outcomes[i]` is
      what happened to `accounts[i]`. */
  method SyncMultipleAccounts(driver: DriverService, ctx: ModelContext, accounts: seq<AccountRecord>,
                              start: LaunchReplies, replies: nat -> AccountReplies,
                              parseJson: string -> Payload, sessionsReply: Reply, aliveAtCleanup: bool)
    returns (errors: map<string, Error>, ghost outcomes: seq<Option<Error>>)
    modifies driver, ctx
    ensures |accounts| == 0 ==> errors == map[] && driver.events == old(driver.events) && ctx.notes == old(ctx.notes)
    ensures outcomes == BatchOutcomes(driver.host, old(driver.hasProcess), accounts, start, replies, parseJson)
    ensures errors == ErrorMap(EmailsOf(accounts), outcomes)
    ensures forall i :: 0 <= i < |accounts| && outcomes[i].None? ==>
      PageNotes(replies(i).page, parseJson, accounts[i].email).Success?
    ensures ctx.accounts == old(ctx.accounts)
    ensures ctx.notes == ApplySyncs(old(ctx.notes), EmailsOf(accounts), SyncedNotes(accounts, outcomes, replies, parseJson))
    ensures |accounts| > 0 ==> EndsWithCleanup(driver.events, sessionsReply)
  {
    if |accounts| == 0 {
      return map[], [];
    }
    var startError, _ := driver.StartChromeDriver(start.processAlive, start.probe, start.spawnError);
    if startError.Some? {
      errors, outcomes := FailAll(accounts, startError.value);
      assert outcomes == seq(|accounts|, _ => startError);
      forall i | 0 <= i < |accounts| ensures SyncedNotes(accounts, outcomes, replies, parseJson)[i] == None {
        SyncedNotesAt(accounts, outcomes, replies, parseJson, i);
      }
      assert SyncedNotes(accounts, outcomes, replies, parseJson) == seq(|accounts|, _ => None);
      ApplyNothing(ctx.notes, EmailsOf(accounts));
    } else {
      errors, outcomes := SyncEach(driver, ctx, accounts, replies, parseJson);
    }
    ghost var terminated := driver.hasProcess && aliveAtCleanup;
    ghost var before := driver.events;
    driver.Cleanup(sessionsReply, aliveAtCleanup);
    CleanupEndsEvents(before, sessionsReply, terminated);
  }

  lemma {:induction false} ApplyNothing(notes: seq<Note>, emails: seq<string>)
    ensures ApplySyncs(notes, emails, seq(|emails|, _ => None)) == notes
    decreases |emails|
  {
    if |emails| > 0 {
      var n := |emails| - 1;
      var none: seq<Option<seq<Note>>> := seq(|emails|, _ => None);
      assert none[..n] == seq(n, _ => None);
      ApplyNothing(notes, emails[..n]);
      ApplySyncsLast(notes, emails, none);
    }
  }

  /** After a batch sync, accounts outside the batch keep their notes and,
      when the batch's emails are distinct, each account in it holds its
      page's notes if its sync succeeded and its old notes if it failed. */
  lemma SyncMultipleNotes(notes: seq<Note>, accounts: seq<AccountRecord>, outcomes: seq<Option<Error>>,
                          replies: nat -> AccountReplies, parseJson: string -> Payload)
    requires |outcomes| == |accounts|
    requires forall i :: 0 <= i < |accounts| && outcomes[i].None? ==>
      PageNotes(replies(i).page, parseJson, accounts[i].email).Success?
    ensures var after := ApplySyncs(notes, EmailsOf(accounts), SyncedNotes(accounts, outcomes, replies, parseJson));
      && (forall e :: e !in EmailsOf(accounts) ==> NotesOf(after, e) == NotesOf(notes, e))
      && (Distinct(EmailsOf(accounts)) ==> forall i :: 0 <= i < |accounts| ==>
            NotesOf(after, accounts[i].email) ==
              if outcomes[i].None? then PageNotes(replies(i).page, parseJson, accounts[i].email).value
              else NotesOf(notes, accounts[i].email))
  {
    var emails := EmailsOf(accounts);
    var synced := SyncedNotes(accounts, outcomes, replies, parseJson);
    forall e | e !in emails ensures NotesOf(ApplySyncs(notes, emails, synced), e) == NotesOf(notes, e) {
      ApplySyncsKeepsOthers(notes, emails, synced, e);
    }
    if Distinct(emails) {
      forall i | 0 <= i < |accounts|
        ensures NotesOf(ApplySyncs(notes, emails, synced), emails[i]) ==
          if outcomes[i].None? then PageNotes(replies(i).page, parseJson, accounts[i].email).value
          else NotesOf(notes, emails[i])
      {
        ApplySyncsDistinct(notes, emails, synced, i);
        SyncedNotesAt(accounts, outcomes, replies, parseJson, i);
      }
    }
  }

  // ---------------------------------------------------------------------
  // Deleting a profile

  /** The `profile.info_cache` object of `Local State`, when there is one. */
  function InfoCache(localState: JsonFile): Option<map<string, Json>> {
    if localState.Document? && localState.value.Object? then
      match ObjectAt(localState.value.fields, "profile")
      case None => None
      case Some(profile) => ObjectAt(profile, "info_cache")
    else None
  }

  /** `Local State` with `profile.info_cache[name]` removed. Nothing else
      changes: not the other top-level keys, not the other `profile` keys,
      not the other cache entries; without a cache the file stays as it
      is. */
  function WithoutCacheEntry(localState: JsonFile, name: string): (r: JsonFile)
    ensures InfoCache(localState).None? ==> r == localState
    ensures InfoCache(localState).Some? ==> InfoCache(r) == Some(InfoCache(localState).value - {name})
    ensures InfoCache(localState).Some? ==>
      && r.Document? && r.value.Object? && "profile" in r.value.fields
      && r.value.fields - {"profile"} == localState.value.fields - {"profile"}
      && r.value.fields["profile"].Object?
      && r.value.fields["profile"].fields - {"info_cache"} == localState.value.fields["profile"].fields - {"info_cache"}
  {
    match InfoCache(localState)
    case None => localState
    case Some(cache) =>
      var top := localState.value.fields;
      var profile := top["profile"].fields;
      Document(Object(top["profile" := Object(profile["info_cache" := Object(cache - {name})])]))
  }

  /** How `deleteProfile(profileName:)` ends: without a data directory,
      or when `Local State` cannot be read, it fails before touching
      anything; otherwise rewriting `Local State` (only when it holds a
      profile cache) fails with `writeError`, and removing the profile's
      directory (only when it exists) fails with `removeError`. */
  function DeletionError(dir: Option<DataDirectory>, name: string,
                         writeError: Option<string>, removeError: Option<string>): (r: Option<Error>)
    ensures r.None? <==>
      && dir.Some? && !dir.value.localState.Malformed?
      && (InfoCache(dir.value.localState).None? || writeError.None?)
      && (name !in dir.value.entries || removeError.None?)
  {
    if dir.None? then Some(DataDirectoryNotFound)
    else if dir.value.localState.Malformed? then Some(Transport(dir.value.localState.message))
    else if InfoCache(dir.value.localState).Some? && writeError.Some? then Some(Transport(writeError.value))
    else if name in dir.value.entries && removeError.Some? then Some(Transport(removeError.value))
    else None
  }

  /** The data directory `deleteProfile(profileName:)` leaves behind: each
      step that ran before a failure keeps its effect. */
  function DirectoryAfterDeletion(dir: Option<DataDirectory>, name: string,
                                  writeError: Option<string>, removeError: Option<string>): (r: Option<DataDirectory>)
    ensures dir.None? <==> r.None?
    ensures DeletionError(dir, name, writeError, removeError).None? ==>
      && r.value.entries == dir.value.entries - {name}
      && r.value.localState == WithoutCacheEntry(dir.value.localState, name)
      && (InfoCache(r.value.localState).Some? ==> name !in InfoCache(r.value.localState).value)
    ensures r.Some? ==>
      r.value.entries == dir.value.entries || r.value.entries == dir.value.entries - {name}
    ensures dir.Some? && (dir.value.localState.Malformed? || (InfoCache(dir.value.localState).Some? && writeError.Some?)) ==>
      r == dir
  {
    if dir.None? || dir.value.localState.Malformed? then dir
    else
      var localState := dir.value.localState;
      if InfoCache(localState).Some? && writeError.Some? then dir
      else
        var rewritten := WithoutCacheEntry(localState, name);
        if name in dir.value.entries && removeError.Some? then Some(DataDirectory(dir.value.entries, rewritten))
        else Some(DataDirectory(dir.value.entries - {name}, rewritten))
  }

  /** `deleteProfile(profileName:)`: fails without a data directory, and
      fails before touching anything when `Local State` cannot be read;
      otherwise the profile's cache entry is removed from `Local State`
      first and then its directory, either of which may be missing, and
      either write may fail (`writeError`, `removeError`), keeping what
      was done before it. A `Local State` that is not an object is read as
      empty and left as it is. `dir` is the data directory before and
      `after` after. */
  method DeleteProfile(dir: Option<DataDirectory>, profileName: string,
                       writeError: Option<string>, removeError: Option<string>)
    returns (err: Option<Error>, after: Option<DataDirectory>)
    ensures err == DeletionError(dir, profileName, writeError, removeError)
    ensures after == DirectoryAfterDeletion(dir, profileName, writeError, removeError)
  {
    if dir.None? {
      return Some(DataDirectoryNotFound), dir;
    }
    var localState := dir.value.localState;
    if localState.Malformed? {
      return Some(Transport(localState.message)), dir;
    }
    if localState.Document? {
      var json: map<string, Json> := if localState.value.Object? then localState.value.fields else map[];
      var profile := ObjectAt(json, "profile");
      if profile.Some? {
        var infoCache := ObjectAt(profile.value, "info_cache");
        if infoCache.Some? {
          if writeError.Some? {
            return Some(Transport(writeError.value)), dir;
          }
          var cache := infoCache.value - {profileName};
          var updated := profile.value["info_cache" := Object(cache)];
          json := json["profile" := Object(updated)];
          localState := Document(Object(json));
        }
      }
    }
    assert localState == WithoutCacheEntry(dir.value.localState, profileName);
    var entries := dir.value.entries;
    if profileName in entries {
      if removeError.Some? {
        return Some(Transport(removeError.value)), Some(DataDirectory(entries, localState));
      }
      entries := entries - {profileName};
    } else {
      assert entries == entries - {profileName};
    }
    err, after := None, Some(DataDirectory(entries, localState));
  }
}
