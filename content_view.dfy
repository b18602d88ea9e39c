/** The menu-bar account list (Keep/ContentView.swift): adding and updating
    accounts, reconciling them with the Chrome profiles on disk, deleting an
    account together with its notes and profile, and syncing every account.
    The store's fetch order is not specified, so the list is read as a table
    keyed by email. */
module ContentView {
  import opened Common
  import opened Wire
  import opened Notes
  import opened Accounts
  import opened Store
  import opened GoogleApi
  import opened ChromeDriver
  import opened ChromeProfile

  // ---------------------------------------------------------------------
  // The account table

  /** The accounts by email. */
  type Table = map<string, AccountRecord>

  /** The table of a list of rows (a later row wins, which never happens
      when the emails are distinct). */
  function TableOf(rows: seq<AccountRecord>): Table
    decreases |rows|
  {
    if |rows| == 0 then map[]
    else TableOf(rows[..|rows| - 1])[rows[|rows| - 1].email := rows[|rows| - 1]]
  }

  predicate WellKeyed(t: Table) {
    forall e :: e in t ==> t[e].email == e
  }

  /** The emails of a list of rows. */
  function EmailSet(rows: seq<AccountRecord>): set<string>
    decreases |rows|
  {
    if |rows| == 0 then {} else EmailSet(rows[..|rows| - 1]) + {rows[|rows| - 1].email}
  }

  lemma {:induction false} EmailSetSpec(rows: seq<AccountRecord>)
    ensures forall i :: 0 <= i < |rows| ==> rows[i].email in EmailSet(rows)
    ensures forall e :: e in EmailSet(rows) ==> exists i :: 0 <= i < |rows| && rows[i].email == e
    decreases |rows|
  {
    if |rows| > 0 {
      var n := |rows| - 1;
      EmailSetSpec(rows[..n]);
      assert forall i :: 0 <= i < n ==> rows[..n][i] == rows[i];
    }
  }

  lemma {:induction false} EmailSetMiss(rows: seq<AccountRecord>, e: string)
    requires forall i :: 0 <= i < |rows| ==> rows[i].email != e
    ensures e !in EmailSet(rows)
    decreases |rows|
  {
    if |rows| > 0 {
      EmailSetMiss(rows[..|rows| - 1], e);
    }
  }

  /** The table holds exactly the rows' emails, each under its own key. */
  lemma {:induction false} TableOfKeys(rows: seq<AccountRecord>)
    ensures WellKeyed(TableOf(rows))
    ensures TableOf(rows).Keys == EmailSet(rows)
    decreases |rows|
  {
    if |rows| > 0 {
      TableOfKeys(rows[..|rows| - 1]);
    }
  }

  /** With distinct emails each row is found under its email. */
  lemma {:induction false} TableOfRows(rows: seq<AccountRecord>)
    requires DistinctEmails(rows)
    ensures forall i :: 0 <= i < |rows| ==> rows[i].email in TableOf(rows) && TableOf(rows)[rows[i].email] == rows[i]
    decreases |rows|
  {
    TableOfKeys(rows);
    EmailSetSpec(rows);
    if |rows| > 0 {
      var n := |rows| - 1;
      var init := rows[..n];
      assert DistinctEmails(init);
      TableOfRows(init);
      TableOfKeys(init);
      EmailSetSpec(init);
      forall i | 0 <= i < n ensures TableOf(rows)[rows[i].email] == rows[i] {
        assert init[i] == rows[i];
      }
    }
  }

  /** Overwriting one row changes that row's entry and nothing else. */
  lemma {:induction false} TableOfUpdate(rows: seq<AccountRecord>, i: nat, r: AccountRecord)
    requires DistinctEmails(rows) && i < |rows| && r.email == rows[i].email
    ensures DistinctEmails(rows[i := r])
    ensures TableOf(rows[i := r]) == TableOf(rows)[r.email := r]
    decreases |rows|
  {
    var n := |rows| - 1;
    var rows' := rows[i := r];
    DistinctSameEmails(rows, rows');
    if i == n {
      assert rows'[..n] == rows[..n];
    } else {
      assert rows'[..n] == rows[..n][i := r];
      DistinctPrefix(rows, n);
      TableOfUpdate(rows[..n], i, r);
      assert rows[n].email != r.email;
    }
  }

  /** Appending a row with a new email adds one entry. */
  lemma TableOfAppend(rows: seq<AccountRecord>, r: AccountRecord)
    requires DistinctEmails(rows) && forall i :: 0 <= i < |rows| ==> rows[i].email != r.email
    ensures DistinctEmails(rows + [r])
    ensures TableOf(rows + [r]) == TableOf(rows)[r.email := r]
  {
    var s := rows + [r];
    InitOfSnoc(rows, r);
    forall i, j | 0 <= i < j < |s| ensures s[i].email != s[j].email {
      assert s[i] == rows[i];
    }
  }

  /** Dropping the rows of one email drops that key. */
  lemma {:induction false} TableOfDropRows(rows: seq<AccountRecord>, email: string)
    ensures TableOf(DropRows(rows, email)) == TableOf(rows) - {email}
    decreases |rows|
  {
    if |rows| > 0 {
      var n := |rows| - 1;
      var init, last := rows[..n], rows[n];
      TableOfDropRows(init, email);
      var kept := DropRows(init, email);
      if last.email == email {
        assert DropRows(rows, email) == kept;
        RemoveUpdated(TableOf(init), email, last);
      } else {
        assert DropRows(rows, email) == kept + [last];
        InitOfSnoc(kept, last);
        RemoveOtherUpdated(TableOf(init), last.email, last, email);
      }
    }
  }

  /** Dropping rows only removes emails. */
  lemma {:induction false} DropRowsEmails(rows: seq<AccountRecord>, email: string)
    ensures EmailSet(DropRows(rows, email)) <= EmailSet(rows)
    decreases |rows|
  {
    if |rows| > 0 {
      var n := |rows| - 1;
      DropRowsEmails(rows[..n], email);
      var kept := DropRows(rows[..n], email);
      if rows[n].email != email {
        assert DropRows(rows, email) == kept + [rows[n]];
        assert (kept + [rows[n]])[..|kept|] == kept;
      } else {
        assert DropRows(rows, email) == kept;
      }
    }
  }

  /** With distinct emails, the last row's email is not among the others. */
  lemma LastEmailNew(rows: seq<AccountRecord>)
    requires DistinctEmails(rows) && |rows| > 0
    ensures rows[|rows| - 1].email !in EmailSet(rows[..|rows| - 1])
  {
    var n := |rows| - 1;
    assert forall k :: 0 <= k < n ==> rows[..n][k].email != rows[n].email;
    EmailSetMiss(rows[..n], rows[n].email);
  }

  /** Appending a row with a new email keeps the emails distinct. */
  lemma DistinctEmailsSnoc(rows: seq<AccountRecord>, r: AccountRecord)
    requires DistinctEmails(rows) && r.email !in EmailSet(rows)
    ensures DistinctEmails(rows + [r])
  {
    EmailSetSpec(rows);
    var s := rows + [r];
    forall i, j | 0 <= i < j < |s| ensures s[i].email != s[j].email {
      assert s[i] == rows[i];
      if j < |rows| {
        assert s[j] == rows[j];
      }
    }
  }

  /** Dropping rows keeps the emails distinct. */
  lemma {:induction false} DropRowsDistinct(rows: seq<AccountRecord>, email: string)
    requires DistinctEmails(rows)
    ensures DistinctEmails(DropRows(rows, email))
    decreases |rows|
  {
    if |rows| > 0 {
      var n := |rows| - 1;
      assert DistinctEmails(rows[..n]);
      DropRowsDistinct(rows[..n], email);
      var kept := DropRows(rows[..n], email);
      if rows[n].email != email {
        LastEmailNew(rows);
        DropRowsEmails(rows[..n], email);
        DistinctEmailsSnoc(kept, rows[n]);
        assert DropRows(rows, email) == kept + [rows[n]];
      } else {
        assert DropRows(rows, email) == kept;
      }
    }
  }



  // ---------------------------------------------------------------------
  // Adding, updating and reconciling accounts

  /** The table after `addOrUpdateAccount`: an unknown email gets a new
      account with the given links; a known one takes each non-empty link
      and keeps its other fields. */
  function Upsert(t: Table, email: string, profileName: string, masterToken: string): (r: Table)
    ensures r.Keys == t.Keys + {email}
    ensures forall e :: e in t && e != email ==> r[e] == t[e]
    ensures email !in t ==> r[email] == AccountRecord(email, profileName, masterToken)
    ensures email in t ==>
      && r[email].email == t[email].email
      && r[email].accessToken == t[email].accessToken
      && r[email].accessTokenExpiry == t[email].accessTokenExpiry
    ensures r[email].profileName == if profileName != "" || email !in t then profileName else t[email].profileName
    ensures r[email].masterToken == if masterToken != "" || email !in t then masterToken else t[email].masterToken
  {
    if email in t then
      var a := t[email];
      t[email := a.(profileName := if profileName != "" then profileName else a.profileName,
                    masterToken := if masterToken != "" then masterToken else a.masterToken)]
    else t[email := AccountRecord(email, profileName, masterToken)]
  }

  /** Adding the same links twice adds them once, an account keeps its
      email under its key, and a link once present is never cleared by an
      update. */
  lemma UpsertProperties(t: Table, email: string, profileName: string, masterToken: string)
    ensures Upsert(Upsert(t, email, profileName, masterToken), email, profileName, masterToken)
      == Upsert(t, email, profileName, masterToken)
    ensures WellKeyed(t) ==> WellKeyed(Upsert(t, email, profileName, masterToken))
    ensures forall e :: e in t && t[e].masterToken != "" ==> Upsert(t, email, profileName, masterToken)[e].masterToken != ""
    ensures forall e :: e in t && t[e].profileName != "" ==> Upsert(t, email, profileName, masterToken)[e].profileName != ""
  {
  }

  /** The table after upserting every current profile in order. */
  function UpsertAll(t: Table, profiles: seq<AccountRecord>): Table
    decreases |profiles|
  {
    if |profiles| == 0 then t
    else
      var p := profiles[|profiles| - 1];
      Upsert(UpsertAll(t, profiles[..|profiles| - 1]), p.email, p.profileName, p.masterToken)
  }

  /** Upserting the current profiles adds their emails, leaves the other
      accounts alone and clears no master token. */
  lemma {:induction false} UpsertAllSpec(t: Table, profiles: seq<AccountRecord>)
    ensures UpsertAll(t, profiles).Keys == t.Keys + EmailSet(profiles)
    ensures forall e :: e in t && e !in EmailSet(profiles) ==> UpsertAll(t, profiles)[e] == t[e]
    ensures forall e :: e in t && t[e].masterToken != "" ==> UpsertAll(t, profiles)[e].masterToken != ""
    ensures WellKeyed(t) ==> WellKeyed(UpsertAll(t, profiles))
    decreases |profiles|
  {
    if |profiles| > 0 {
      var n := |profiles| - 1;
      var init, p := profiles[..n], profiles[n];
      UpsertAllSpec(t, init);
      UpsertProperties(UpsertAll(t, init), p.email, p.profileName, p.masterToken);
    }
  }

  /** Every current profile with a profile name leaves its account linked. */
  lemma {:induction false} UpsertAllLinks(t: Table, profiles: seq<AccountRecord>)
    ensures forall i :: 0 <= i < |profiles| && profiles[i].profileName != "" ==>
      profiles[i].email in UpsertAll(t, profiles) && UpsertAll(t, profiles)[profiles[i].email].profileName != ""
    decreases |profiles|
  {
    if |profiles| > 0 {
      var n := |profiles| - 1;
      var init, p := profiles[..n], profiles[n];
      UpsertAllLinks(t, init);
      UpsertProperties(UpsertAll(t, init), p.email, p.profileName, p.masterToken);
      forall i | 0 <= i < n && profiles[i].profileName != ""
        ensures profiles[i].email in UpsertAll(t, profiles) && UpsertAll(t, profiles)[profiles[i].email].profileName != ""
      {
        assert init[i] == profiles[i];
      }
    }
  }

  /** The accounts that had a profile which is no longer on disk. */
  function Vanished(t: Table, current: seq<AccountRecord>): set<string> {
    set e | e in t && t[e].profileName != "" && e !in EmailSet(current)
  }

  /** Each account in `gone` loses its profile: it keeps its row, without
      the profile, when it still has a master token, and is deleted
      otherwise. */
  function Unlink(t: Table, gone: set<string>): Table {
    map e | e in t && (e !in gone || t[e].masterToken != "") ::
      if e in gone then t[e].(profileName := "") else t[e]
  }

  /** What `syncChromeProfiles()` makes of the table. */
  function Reconcile(t: Table, current: seq<AccountRecord>): Table {
    Unlink(UpsertAll(t, current), Vanished(t, current))
  }

  /** After reconciling: every current profile has an account, and one with
      a profile name is linked to a profile; every linked account belongs to
      a current profile; an account with a master token is never lost; an
      account whose profile vanished and has no master token is gone; and
      an account untouched by both steps keeps its row. */
  lemma ReconcileSpec(t: Table, current: seq<AccountRecord>)
    requires WellKeyed(t)
    ensures var r := Reconcile(t, current);
      && WellKeyed(r)
      && (forall i :: 0 <= i < |current| ==> current[i].email in r)
      && (forall i :: 0 <= i < |current| && current[i].profileName != "" ==> r[current[i].email].profileName != "")
      && (forall e :: e in r && r[e].profileName != "" ==> e in EmailSet(current))
      && (forall e :: e in t && t[e].masterToken != "" ==> e in r && r[e].masterToken != "")
      && (forall e :: e in Vanished(t, current) && t[e].masterToken == "" ==> e !in r)
      && (forall e :: e in t && e !in EmailSet(current) && t[e].profileName == "" ==> e in r && r[e] == t[e])
      && r.Keys <= t.Keys + EmailSet(current)
  {
    ReconcileCurrent(t, current);
    ReconcileLinked(t, current);
    ReconcileOthers(t, current);
  }

  lemma ReconcileCurrent(t: Table, current: seq<AccountRecord>)
    requires WellKeyed(t)
    ensures var r := Reconcile(t, current);
      && WellKeyed(r)
      && (forall i :: 0 <= i < |current| ==> current[i].email in r)
      && (forall i :: 0 <= i < |current| && current[i].profileName != "" ==> r[current[i].email].profileName != "")
  {
    UpsertAllSpec(t, current);
    UpsertAllLinks(t, current);
    EmailSetSpec(current);
  }

  lemma ReconcileLinked(t: Table, current: seq<AccountRecord>)
    ensures var r := Reconcile(t, current);
      && (forall e :: e in r && r[e].profileName != "" ==> e in EmailSet(current))
      && r.Keys <= t.Keys + EmailSet(current)
  {
    UpsertAllSpec(t, current);
  }

  lemma ReconcileOthers(t: Table, current: seq<AccountRecord>)
    ensures var r := Reconcile(t, current);
      && (forall e :: e in t && t[e].masterToken != "" ==> e in r && r[e].masterToken != "")
      && (forall e :: e in Vanished(t, current) && t[e].masterToken == "" ==> e !in r)
      && (forall e :: e in t && e !in EmailSet(current) && t[e].profileName == "" ==> e in r && r[e] == t[e])
  {
    UpsertAllSpec(t, current);
  }

  /** Unlinking one more account: it loses its profile name when it has a
      master token and its row otherwise. */
  lemma UnlinkOne(u: Table, gone: set<string>, e: string)
    requires e in u && e !in gone
    ensures u[e].masterToken != "" ==> Unlink(u, gone + {e}) == Unlink(u, gone)[e := u[e].(profileName := "")]
    ensures u[e].masterToken == "" ==> Unlink(u, gone + {e}) == Unlink(u, gone) - {e}
  {
  }

  // ---------------------------------------------------------------------
  // Syncing every account

  /** An account synced through the Play service: it has a master token. */
  predicate IsPlay(r: AccountRecord) {
    r.masterToken != ""
  }

  /** An account synced through its Chrome profile alone. */
  predicate IsProfileOnly(r: AccountRecord) {
    r.profileName != "" && r.masterToken == ""
  }

  /** `filter`: the objects whose fields satisfy `keep`, in order. */
  function Select(xs: seq<Account>, keep: AccountRecord -> bool): (r: seq<Account>)
    reads set a | a in xs
    ensures forall i :: 0 <= i < |r| ==> r[i] in xs && keep(r[i].Value())
    ensures forall i :: 0 <= i < |xs| && keep(xs[i].Value()) ==> xs[i] in r
    decreases |xs|
  {
    if |xs| == 0 then []
    else
      var n := |xs| - 1;
      assert forall i :: 0 <= i < n ==> xs[..n][i] == xs[i];
      Select(xs[..n], keep) + (if keep(xs[n].Value()) then [xs[n]] else [])
  }


  /** Selecting keeps the emails distinct. */
  lemma {:induction false} SelectDistinct(xs: seq<Account>, keep: AccountRecord -> bool)
    requires DistinctEmails(Records(xs))
    ensures DistinctEmails(Records(Select(xs, keep)))
    decreases |xs|
  {
    if |xs| > 0 {
      var n := |xs| - 1;
      var init := xs[..n];
      assert Records(init) == Records(xs)[..n];
      SelectDistinct(init, keep);
      var s := Select(init, keep);
      if keep(xs[n].Value()) {
        forall j | 0 <= j < |s| ensures s[j].email != xs[n].email {
          var k :| 0 <= k < n && init[k] == s[j];
          assert Records(xs)[k].email != Records(xs)[n].email;
        }
        RecordsAppend(s, [xs[n]]);
      }
    }
  }

  /** How many syncs failed. */
  function FailureCount(outcomes: seq<Option<Error>>): (n: nat)
    ensures n <= |outcomes|
    ensures n == 0 <==> forall i :: 0 <= i < |outcomes| ==> outcomes[i].None?
    decreases |outcomes|
  {
    if |outcomes| == 0 then 0
    else
      var k := |outcomes| - 1;
      assert forall i :: 0 <= i < k ==> outcomes[..k][i] == outcomes[i];
      FailureCount(outcomes[..k]) + (if outcomes[k].Some? then 1 else 0)
  }

  /** With distinct emails the error dictionary has one entry per failed
      sync, so `errors.count` counts the failures. */
  lemma {:induction false} ErrorMapSize(emails: seq<string>, outcomes: seq<Option<Error>>)
    requires |emails| == |outcomes| && Distinct(emails)
    ensures |ErrorMap(emails, outcomes)| == FailureCount(outcomes)
    decreases |emails|
  {
    if |emails| > 0 {
      var n := |emails| - 1;
      assert Distinct(emails[..n]);
      ErrorMapSize(emails[..n], outcomes[..n]);
      ErrorMapSpec(emails[..n], outcomes[..n]);
      assert emails[n] !in ErrorMap(emails[..n], outcomes[..n]);
    }
  }

  /** The texts shown for a dictionary of errors. */
  function Described(errors: map<string, Error>): map<string, string> {
    map k | k in errors :: errors[k].Description()
  }

  /** The error texts after syncing `emails`: their old texts are cleared
      and each failed sync's text is set. */
  function AfterSync(m: map<string, string>, emails: seq<string>, outcomes: seq<Option<Error>>): map<string, string>
    requires |emails| == |outcomes|
  {
    (m - (set e | e in emails)) + Described(ErrorMap(emails, outcomes))
  }

  /** After a sync, a synced account shows a text exactly when its sync
      failed, and that text describes its error; every other account keeps
      its text. */
  lemma AfterSyncSpec(m: map<string, string>, emails: seq<string>, outcomes: seq<Option<Error>>)
    requires |emails| == |outcomes| && Distinct(emails)
    ensures var r := AfterSync(m, emails, outcomes);
      && (forall i :: 0 <= i < |emails| ==> (emails[i] in r <==> outcomes[i].Some?))
      && (forall i :: 0 <= i < |emails| && outcomes[i].Some? ==> r[emails[i]] == outcomes[i].value.Description())
      && (forall e :: e !in emails ==> (e in r <==> e in m) && (e in m ==> r[e] == m[e]))
  {
    var errs := ErrorMap(emails, outcomes);
    var r := AfterSync(m, emails, outcomes);
    ErrorMapSpec(emails, outcomes);
    forall i | 0 <= i < |emails| ensures emails[i] in r <==> outcomes[i].Some? {
      if emails[i] in errs {
        var j :| 0 <= j < |emails| && emails[j] == emails[i] && outcomes[j].Some?;
        assert j == i;
      }
    }
    forall e | e !in emails ensures (e in r <==> e in m) && (e in m ==> r[e] == m[e]) {
      assert e !in errs;
    }
  }

  /** After both parts of the sync, an account that took part shows a text
      exactly when its own sync failed, and that text is its error's; every
      other account keeps the text it had. */
  lemma AfterBothSyncs(m: map<string, string>, play: seq<string>, playOutcomes: seq<Option<Error>>,
                       profile: seq<string>, profileOutcomes: seq<Option<Error>>)
    requires |play| == |playOutcomes| && |profile| == |profileOutcomes|
    requires Distinct(play + profile)
    ensures var r := AfterSync(AfterSync(m, play, playOutcomes), profile, profileOutcomes);
      && (forall i :: 0 <= i < |play| ==> (play[i] in r <==> playOutcomes[i].Some?))
      && (forall i :: 0 <= i < |play| && playOutcomes[i].Some? ==> r[play[i]] == playOutcomes[i].value.Description())
      && (forall i :: 0 <= i < |profile| ==> (profile[i] in r <==> profileOutcomes[i].Some?))
      && (forall i :: 0 <= i < |profile| && profileOutcomes[i].Some? ==>
            r[profile[i]] == profileOutcomes[i].value.Description())
      && (forall e :: e !in play && e !in profile ==> (e in r <==> e in m) && (e in m ==> r[e] == m[e]))
  {
    var pq := play + profile;
    assert forall i :: 0 <= i < |play| ==> pq[i] == play[i];
    assert forall j :: 0 <= j < |profile| ==> pq[|play| + j] == profile[j];
    var mid := AfterSync(m, play, playOutcomes);
    AfterSyncSpec(m, play, playOutcomes);
    AfterSyncSpec(mid, profile, profileOutcomes);
  }

  lemma MergeRemove(a: map<string, string>, d: map<string, string>, e: string)
    requires e !in d
    ensures (a - {e}) + d == (a + d) - {e}
  {
  }

  lemma MergeUpdate(a: map<string, string>, d: map<string, string>, e: string, v: string)
    ensures a + d[e := v] == (a + d)[e := v]
  {
  }

  /** Describing one more entry of an error dictionary. */
  lemma DescribedStep(errors: map<string, Error>, pending: set<string>, k: string)
    requires k in pending && pending <= errors.Keys
    ensures Described(errors - (pending - {k})) == Described(errors - pending)[k := errors[k].Description()]
  {
  }

  /** Syncing one more account: its text is cleared, then set when it
      failed. */
  lemma AfterSyncStep(m: map<string, string>, emails: seq<string>, outcomes: seq<Option<Error>>,
                      e: string, o: Option<Error>)
    requires |emails| == |outcomes| && e !in emails
    ensures AfterSync(m, emails + [e], outcomes + [o]) ==
      if o.Some? then (AfterSync(m, emails, outcomes) - {e})[e := o.value.Description()]
      else AfterSync(m, emails, outcomes) - {e}
  {
    var n := |emails|;
    assert (emails + [e])[..n] == emails && (outcomes + [o])[..n] == outcomes;
    var errs := ErrorMap(emails, outcomes);
    ErrorMapKeys(emails, outcomes);
    var cleared := set x | x in emails;
    var d := Described(errs);
    assert e !in d;
    var base := m - (set x | x in emails + [e]);
    assert base == (m - cleared) - {e} by {
      assert (set x | x in emails + [e]) == cleared + {e};
    }
    MergeRemove(m - cleared, d, e);
    if o.Some? {
      var v := o.value.Description();
      assert ErrorMap(emails + [e], outcomes + [o]) == errs[e := o.value];
      assert Described(errs[e := o.value]) == d[e := v];
      MergeUpdate(base, d, e, v);
    } else {
      assert ErrorMap(emails + [e], outcomes + [o]) == errs;
    }
  }

  /** The Play accounts and the profile-only accounts of a list with
      distinct emails have distinct emails, within and across the two
      groups. */
  lemma SelectDisjoint(xs: seq<Account>)
    requires DistinctEmails(Records(xs))
    ensures Distinct(EmailsOf(Records(Select(xs, IsPlay))) + EmailsOf(Records(Select(xs, IsProfileOnly))))
  {
    var play, profile := Select(xs, IsPlay), Select(xs, IsProfileOnly);
    SelectDistinct(xs, IsPlay);
    SelectDistinct(xs, IsProfileOnly);
    var pe, qe := EmailsOf(Records(play)), EmailsOf(Records(profile));
    forall i, j | 0 <= i < |pe| && 0 <= j < |qe| ensures pe[i] != qe[j] {
      if pe[i] == qe[j] {
        EmailsIdentify(xs, play[i], profile[j]);
      }
    }
    forall i, j | 0 <= i < j < |pe + qe| ensures (pe + qe)[i] != (pe + qe)[j] {
      if j < |pe| {
        assert Records(play)[i].email != Records(play)[j].email;
      } else if i >= |pe| {
        assert Records(profile)[i - |pe|].email != Records(profile)[j - |pe|].email;
      }
    }
  }

  /** `"Syncing n account(s)"`, sent when a sync starts. */
  function StartNotice(total: int): Notice {
    Notice(SyncStarted, SyncingWord + IntToString(total) + AccountWord + (if total > 1 then "s" else ""))
  }

  const SyncStarted := "Sync Started"
  const SyncingWord := "Syncing "
  const AccountWord := " account"
  const SyncSuccessful := "Sync Successful"
  const SyncFailed := "Sync Failed"
  const SuccessWord := " success, "
  const FailedWord := " failed"
  const AccountAdded := "Account Added"
  const AddedWord := " has been added"
  const AccountDeleted := "Account Deleted"
  const DeletedWord := " has been deleted"

  /** Sent when a sync ends. */
  function EndNotice(successCount: int, failCount: int): Notice {
    Notice(if failCount == 0 then SyncSuccessful else SyncFailed,
           IntToString(successCount) + SuccessWord + IntToString(failCount) + FailedWord)
  }

  /** The notices `syncAllAccounts` sends: with `notify`, once it has run, a
      start notice for its `total` accounts and an end notice; otherwise none. */
  function SyncNotices(notify: bool, total: int, summary: SyncSummary): seq<Notice> {
    if notify && summary.Finished? then [StartNotice(total), EndNotice(summary.successCount, summary.failCount)]
    else []
  }

  /** The end notice of a sync reads "Sync Successful" exactly when no
      account's sync failed. */
  lemma EndNoticeReportsFailures(successCount: int, failCount: int,
                                 playOutcomes: seq<Option<Error>>, profileOutcomes: seq<Option<Error>>)
    requires failCount == FailureCount(playOutcomes) + FailureCount(profileOutcomes)
    ensures EndNotice(successCount, failCount).title == SyncSuccessful <==>
      (forall i :: 0 <= i < |playOutcomes| ==> playOutcomes[i].None?) &&
      (forall i :: 0 <= i < |profileOutcomes| ==> profileOutcomes[i].None?)
  {
    EndNoticeTitle(successCount, failCount);
  }

  lemma EndNoticeTitle(successCount: int, failCount: int)
    ensures EndNotice(successCount, failCount).title == SyncSuccessful <==> failCount == 0
  {
  }

  /** What a sync of every account did. */
  datatype SyncSummary = Skipped | Finished(successCount: int, failCount: int)

  /** Everything a sync of every account receives from outside: the clock,
      the token and notes replies of the `i`-th Play account, the driver's
      replies for the profile accounts, the JSON parser and the driver's
      state at cleanup. */
  datatype SyncInputs = SyncInputs(
    now: int,
    tokenReplies: nat -> TextReply,
    notesReplies: nat -> Reply,
    start: LaunchReplies,
    replies: nat -> AccountReplies,
    parseJson: string -> Payload,
    sessionsReply: Reply,
    aliveAtCleanup: bool)

  /** What each Play account's sync ends in, for the accounts' values
      before the sync: each account's sync depends on its own token and
      notes replies alone. */
  function PlayOutcomes(rows: seq<AccountRecord>, inputs: SyncInputs): (r: seq<Option<Error>>)
    ensures |r| == |rows|
    decreases |rows|, 2
  {
    if |rows| == 0 then [] else PlayOutcomesOfNonEmpty(rows, inputs)
  }

  /** The outcomes of a non-empty list of Play accounts. This step and the
      next keep the per-account outcome two calls below `PlayOutcomes`, so
      that it is brought in by `PlayOutcomeAt` and `PlayOutcomesSnoc` only. */
  function PlayOutcomesOfNonEmpty(rows: seq<AccountRecord>, inputs: SyncInputs): (r: seq<Option<Error>>)
    requires |rows| > 0
    ensures |r| == |rows|
    decreases |rows|, 1
  {
    PlayOutcomesToLast(rows, inputs)
  }

  /** The outcomes of all but the last Play account, then the last one's. */
  function PlayOutcomesToLast(rows: seq<AccountRecord>, inputs: SyncInputs): (r: seq<Option<Error>>)
    requires |rows| > 0
    ensures |r| == |rows|
    decreases |rows|, 0
  {
    var n := |rows| - 1;
    PlayOutcomes(rows[..n], inputs) + [SyncOutcome(rows[n], inputs.now, inputs.tokenReplies(n), inputs.notesReplies(n))]
  }

  /** The `k`-th outcome is the `k`-th account's sync on its own replies. */
  lemma {:induction false} PlayOutcomeAt(rows: seq<AccountRecord>, inputs: SyncInputs, k: nat)
    requires k < |rows|
    ensures PlayOutcomes(rows, inputs)[k] == SyncOutcome(rows[k], inputs.now, inputs.tokenReplies(k), inputs.notesReplies(k))
    decreases |rows|
  {
    var n := |rows| - 1;
    assert PlayOutcomes(rows, inputs) == PlayOutcomesOfNonEmpty(rows, inputs);
    assert PlayOutcomes(rows, inputs) == PlayOutcomes(rows[..n], inputs) + [SyncOutcome(rows[n], inputs.now, inputs.tokenReplies(n), inputs.notesReplies(n))];
    if k < n {
      PlayOutcomeAt(rows[..n], inputs, k);
    }
  }

  /** Every Play account's sync succeeds exactly when each one's own
      replies let it through. */
  lemma PlayOutcomesAllSucceed(rows: seq<AccountRecord>, inputs: SyncInputs, r: seq<Option<Error>>)
    requires r == PlayOutcomes(rows, inputs)
    ensures (forall i :: 0 <= i < |r| ==> r[i].None?) <==>
      (forall i :: 0 <= i < |rows| ==> SyncOutcome(rows[i], inputs.now, inputs.tokenReplies(i), inputs.notesReplies(i)).None?)
  {
    if forall i :: 0 <= i < |rows| ==> r[i].None? {
      forall i | 0 <= i < |rows|
        ensures SyncOutcome(rows[i], inputs.now, inputs.tokenReplies(i), inputs.notesReplies(i)).None?
      {
        PlayOutcomeAt(rows, inputs, i);
      }
    }
    if forall i :: 0 <= i < |rows| ==> SyncOutcome(rows[i], inputs.now, inputs.tokenReplies(i), inputs.notesReplies(i)).None? {
      forall i | 0 <= i < |rows| ensures r[i].None? {
        PlayOutcomeAt(rows, inputs, i);
      }
    }
  }

  /** One more Play account synced adds that account's outcome. */
  lemma PlayOutcomesSnoc(rows: seq<AccountRecord>, inputs: SyncInputs, i: nat)
    requires i < |rows|
    ensures PlayOutcomes(rows[..i + 1], inputs) ==
      PlayOutcomes(rows[..i], inputs) + [SyncOutcome(rows[i], inputs.now, inputs.tokenReplies(i), inputs.notesReplies(i))]
  {
    var p := rows[..i + 1];
    assert p[..i] == rows[..i];
    assert PlayOutcomes(p, inputs) == PlayOutcomesOfNonEmpty(p, inputs) == PlayOutcomesToLast(p, inputs);
  }

  /** The Play accounts' records after their syncs: each one's access
      token and expiry are what its own token reply left, and its links
      stay as they were. */
  function TokenRefreshes(rows: seq<AccountRecord>, inputs: SyncInputs): (r: seq<AccountRecord>)
    ensures |r| == |rows|
    ensures forall k :: 0 <= k < |rows| ==>
      r[k].email == rows[k].email && r[k].profileName == rows[k].profileName && r[k].masterToken == rows[k].masterToken
  {
    var r := seq(|rows|, k requires 0 <= k < |rows| => TokenAfter(rows[k], inputs.now, inputs.tokenReplies(k)));
    assert forall k :: 0 <= k < |rows| ==> r[k] == TokenAfter(rows[k], inputs.now, inputs.tokenReplies(k));
    r
  }

  /** What the `i`-th Play account's sync stored: its fetched notes when it
      succeeded. */
  function PlaySynced(emails: seq<string>, outcomes: seq<Option<Error>>, notesReplies: nat -> Reply): (r: seq<Option<seq<Note>>>)
    requires |emails| == |outcomes|
    ensures |r| == |emails|
    ensures OwnNotes(emails, r)
    decreases |emails|, 2
  {
    if |emails| == 0 then [] else PlaySyncedOfNonEmpty(emails, outcomes, notesReplies)
  }

  /** What a non-empty list of Play accounts' syncs stored; like
      `PlayOutcomesOfNonEmpty`, a step that keeps the entries out of sight
      until `PlaySyncedAt` or `PlaySyncStep` asks for them. */
  function PlaySyncedOfNonEmpty(emails: seq<string>, outcomes: seq<Option<Error>>, notesReplies: nat -> Reply)
    : (r: seq<Option<seq<Note>>>)
    requires |emails| == |outcomes| > 0
    ensures |r| == |emails|
    ensures OwnNotes(emails, r)
    decreases |emails|, 1
  {
    PlaySyncedToLast(emails, outcomes, notesReplies)
  }

  /** What all but the last Play account's syncs stored, then the last one's. */
  function PlaySyncedToLast(emails: seq<string>, outcomes: seq<Option<Error>>, notesReplies: nat -> Reply)
    : (r: seq<Option<seq<Note>>>)
    requires |emails| == |outcomes| > 0
    ensures |r| == |emails|
    ensures OwnNotes(emails, r)
    decreases |emails|, 0
  {
    var n := |emails| - 1;
    var before := PlaySynced(emails[..n], outcomes[..n], notesReplies);
    var last := PlayEntry(outcomes[n], notesReplies(n), emails[n]);
    OwnNotesSnoc(emails[..n], before, emails[n], last);
    assert emails[..n] + [emails[n]] == emails;
    before + [last]
  }

  /** The notes one Play account's sync stored: the fetched notes after a
      success. */
  function PlayEntry(outcome: Option<Error>, notesReply: Reply, email: string): (r: Option<seq<Note>>)
    ensures r.Some? ==> forall k :: 0 <= k < |r.value| ==> r.value[k].email == email
  {
    if outcome.None? && FetchKeepNotes(notesReply).Success? then
      Some(ParseNodes(FetchKeepNotes(notesReply).value, email))
    else None
  }

  /** One more replacement of the account's own notes keeps `OwnNotes`. */
  lemma OwnNotesSnoc(emails: seq<string>, synced: seq<Option<seq<Note>>>, e: string, entry: Option<seq<Note>>)
    requires |emails| == |synced| && OwnNotes(emails, synced)
    requires entry.Some? ==> forall k :: 0 <= k < |entry.value| ==> entry.value[k].email == e
    ensures OwnNotes(emails + [e], synced + [entry])
  {
    var es, ss := emails + [e], synced + [entry];
    forall i | 0 <= i < |ss| && ss[i].Some?
      ensures forall k :: 0 <= k < |ss[i].value| ==> ss[i].value[k].email == es[i]
    {
      if i < |synced| {
        assert ss[i] == synced[i] && es[i] == emails[i];
      }
    }
  }

  /** Entry `i` of `PlaySynced`. */
  lemma {:induction false} PlaySyncedAt(emails: seq<string>, outcomes: seq<Option<Error>>, notesReplies: nat -> Reply, i: nat)
    requires |emails| == |outcomes| && i < |emails|
    ensures PlaySynced(emails, outcomes, notesReplies)[i] == PlayEntry(outcomes[i], notesReplies(i), emails[i])
    decreases |emails|
  {
    var n := |emails| - 1;
    assert PlaySynced(emails, outcomes, notesReplies) == PlaySyncedOfNonEmpty(emails, outcomes, notesReplies);
    if i < n {
      PlaySyncedAt(emails[..n], outcomes[..n], notesReplies, i);
    }
  }

  /** Clearing one more email's text. */
  lemma ClearStep(m: map<string, string>, emails: seq<string>, e: string)
    ensures (m - (set x | x in emails)) - {e} == m - (set x | x in emails + [e])
  {
    assert (set x | x in emails + [e]) == (set x | x in emails) + {e};
  }

  /** Recording one more Play outcome: a success only where that reply
      parsed, and one more failure exactly when the sync failed. */
  lemma OutcomeStep(outcomes: seq<Option<Error>>, notesReplies: nat -> Reply, o: Option<Error>)
    requires forall i :: 0 <= i < |outcomes| && outcomes[i].None? ==> FetchKeepNotes(notesReplies(i)).Success?
    requires o.None? ==> FetchKeepNotes(notesReplies(|outcomes|)).Success?
    ensures forall i :: 0 <= i < |outcomes + [o]| && (outcomes + [o])[i].None? ==> FetchKeepNotes(notesReplies(i)).Success?
    ensures FailureCount(outcomes + [o]) == FailureCount(outcomes) + (if o.Some? then 1 else 0)
  {
    assert (outcomes + [o])[..|outcomes|] == outcomes;
  }

  /** Appending one Play account's outcome to the first loop's record. */
  lemma PlaySyncStep(notes: seq<Note>, emails: seq<string>, outcomes: seq<Option<Error>>, notesReplies: nat -> Reply,
                     e: string, o: Option<Error>)
    requires |emails| == |outcomes|
    requires o.None? ==> FetchKeepNotes(notesReplies(|emails|)).Success?
    ensures ApplySyncs(notes, emails + [e], PlaySynced(emails + [e], outcomes + [o], notesReplies)) ==
      var before := ApplySyncs(notes, emails, PlaySynced(emails, outcomes, notesReplies));
      if o.None? then Without(before, e) + ParseNodes(FetchKeepNotes(notesReplies(|emails|)).value, e) else before
  {
    var n := |emails|;
    var es, os := emails + [e], outcomes + [o];
    assert es[..n] == emails && os[..n] == outcomes;
    assert PlaySynced(es, os, notesReplies) == PlaySyncedOfNonEmpty(es, os, notesReplies);
    ApplySyncsLast(notes, es, PlaySynced(es, os, notesReplies));
  }

  /** After syncing every account, with all emails distinct: a Play account
      holds its fetched notes when its sync succeeded, a profile account its
      page's notes when its sync succeeded, a failed account its old notes,
      and every other account its old notes. */
  lemma SyncAllNotes(notes: seq<Note>, play: seq<string>, playSynced: seq<Option<seq<Note>>>,
                     profile: seq<string>, profileSynced: seq<Option<seq<Note>>>)
    requires |play| == |playSynced| && |profile| == |profileSynced|
    requires OwnNotes(play, playSynced) && OwnNotes(profile, profileSynced)
    requires Distinct(play + profile)
    ensures var after := ApplySyncs(ApplySyncs(notes, play, playSynced), profile, profileSynced);
      && (forall i :: 0 <= i < |play| ==>
            NotesOf(after, play[i]) == if playSynced[i].Some? then playSynced[i].value else NotesOf(notes, play[i]))
      && (forall i :: 0 <= i < |profile| ==>
            NotesOf(after, profile[i]) == if profileSynced[i].Some? then profileSynced[i].value else NotesOf(notes, profile[i]))
      && (forall e :: e !in play && e !in profile ==> NotesOf(after, e) == NotesOf(notes, e))
  {
    var mid := ApplySyncs(notes, play, playSynced);
    assert Distinct(play) by {
      forall i, j | 0 <= i < j < |play| ensures play[i] != play[j] {
        assert (play + profile)[i] == play[i] && (play + profile)[j] == play[j];
      }
    }
    assert Distinct(profile) by {
      forall i, j | 0 <= i < j < |profile| ensures profile[i] != profile[j] {
        assert (play + profile)[|play| + i] == profile[i] && (play + profile)[|play| + j] == profile[j];
      }
    }
    forall i | 0 <= i < |play|
      ensures NotesOf(ApplySyncs(mid, profile, profileSynced), play[i]) ==
        if playSynced[i].Some? then playSynced[i].value else NotesOf(notes, play[i])
    {
      assert play[i] !in profile by {
        forall j | 0 <= j < |profile| ensures profile[j] != play[i] {
          assert (play + profile)[i] == play[i] && (play + profile)[|play| + j] == profile[j];
        }
      }
      ApplySyncsKeepsOthers(mid, profile, profileSynced, play[i]);
      ApplySyncsDistinct(notes, play, playSynced, i);
    }
    forall i | 0 <= i < |profile|
      ensures NotesOf(ApplySyncs(mid, profile, profileSynced), profile[i]) ==
        if profileSynced[i].Some? then profileSynced[i].value else NotesOf(notes, profile[i])
    {
      assert profile[i] !in play by {
        forall j | 0 <= j < |play| ensures play[j] != profile[i] {
          assert (play + profile)[j] == play[j] && (play + profile)[|play| + i] == profile[i];
        }
      }
      ApplySyncsDistinct(mid, profile, profileSynced, i);
      ApplySyncsKeepsOthers(notes, play, playSynced, profile[i]);
    }
    forall e | e !in play && e !in profile
      ensures NotesOf(ApplySyncs(mid, profile, profileSynced), e) == NotesOf(notes, e)
    {
      ApplySyncsKeepsOthers(mid, profile, profileSynced, e);
      ApplySyncsKeepsOthers(notes, play, playSynced, e);
    }
  }

  /** The link icons beside an account: a key for a master token, a person
      for a Chrome profile. */
  function Icon(a: AccountRecord): (r: string)
    ensures a.masterToken != "" && a.profileName != "" ==> r == "\U{1F511}\U{1F464}"
    ensures a.masterToken != "" && a.profileName == "" ==> r == "\U{1F511}"
    ensures a.masterToken == "" && a.profileName != "" ==> r == "\U{1F464}"
    ensures a.masterToken == "" && a.profileName == "" ==> r == ""
  {
    var hasPlayService := a.masterToken != "";
    var hasProfile := a.profileName != "";
    if hasPlayService && hasProfile then "\U{1F511}\U{1F464}"
    else if hasPlayService then "\U{1F511}"
    else if hasProfile then "\U{1F464}"
    else ""
  }

  /** A user notification. */
  datatype Notice = Notice(title: string, body: string)

  // ---------------------------------------------------------------------
  // The view's state

  /** The fields that identify and link each account: its email, its
      Chrome profile and its master token. A sync changes none of them. */
  function Links(xs: seq<Account>): (r: seq<(string, string, string)>)
    reads set a | a in xs
    ensures |r| == |xs|
    ensures forall i :: 0 <= i < |xs| ==> r[i] == (xs[i].email, xs[i].profileName, xs[i].masterToken)
  {
    seq(|xs|, i reads set a | a in xs requires 0 <= i < |xs| => (xs[i].email, xs[i].profileName, xs[i].masterToken))
  }

  /** Accounts whose link fields all kept their values keep their links. */
  twostate lemma LinksUnchanged(xs: seq<Account>)
    requires forall x :: x in xs ==> x.profileName == old(x.profileName) && x.masterToken == old(x.masterToken)
    ensures Links(xs) == old(Links(xs))
  {
    assert forall k :: 0 <= k < |xs| ==> Links(xs)[k] == old(Links(xs))[k];
  }

  /** What a sync of the Play accounts `playRows` (with emails `play`),
      one by one, then of the profile-only accounts `profile`, together, on
      a driver with the host `host` that holds (`holds`) or does not hold a
      spawned process, leaves behind: one outcome per account, fixed by
      that account's replies; a finished summary counting every account once and the
      failures among them; a success only where that account's reply
      parsed; each synced account's error text set exactly when its sync
      failed; and each account's notes replaced by what its successful sync
      fetched. */
  ghost predicate SyncEffects(inputs: SyncInputs, playRows: seq<AccountRecord>, play: seq<string>,
                              playOutcomes: seq<Option<Error>>,
                              profile: seq<AccountRecord>, profileOutcomes: seq<Option<Error>>, host: Host, holds: bool,
                              summary: SyncSummary,
                              messages0: map<string, string>, messages: map<string, string>,
                              notes0: seq<Note>, notes: seq<Note>)
  {
    && play == EmailsOf(playRows)
    && playOutcomes == PlayOutcomes(playRows, inputs)
    && profileOutcomes == BatchOutcomes(host, holds, profile, inputs.start, inputs.replies, inputs.parseJson)
    && |playOutcomes| == |play| && |profileOutcomes| == |profile|
    && (summary.Finished? ==>
          && summary.successCount + summary.failCount == |play| + |profile|
          && summary.failCount == FailureCount(playOutcomes) + FailureCount(profileOutcomes))
    && (forall i :: 0 <= i < |playOutcomes| && playOutcomes[i].None? ==>
          FetchKeepNotes(inputs.notesReplies(i)).Success?)
    && (forall i :: 0 <= i < |profileOutcomes| && profileOutcomes[i].None? ==>
          PageNotes(inputs.replies(i).page, inputs.parseJson, profile[i].email).Success?)
    && messages == AfterSync(AfterSync(messages0, play, playOutcomes), EmailsOf(profile), profileOutcomes)
    && notes ==
         ApplySyncs(ApplySyncs(notes0, play, PlaySynced(play, playOutcomes, inputs.notesReplies)),
                    EmailsOf(profile), SyncedNotes(profile, profileOutcomes, inputs.replies, inputs.parseJson))
  }

  /** A finished sync announces "Sync Successful" exactly when every Play
      account's token and notes replies let its sync through and every
      profile account's driver replies did; a driver that cannot start
      makes any sync with a profile account announce "Sync Failed". */
  lemma SyncNoticeFromReplies(inputs: SyncInputs, playRows: seq<AccountRecord>, play: seq<string>,
                              playOutcomes: seq<Option<Error>>,
                              profile: seq<AccountRecord>, profileOutcomes: seq<Option<Error>>, host: Host, holds: bool,
                              summary: SyncSummary,
                              messages0: map<string, string>, messages: map<string, string>,
                              notes0: seq<Note>, notes: seq<Note>)
    requires SyncEffects(inputs, playRows, play, playOutcomes, profile, profileOutcomes, host, holds, summary,
                         messages0, messages, notes0, notes)
    requires summary.Finished?
    ensures EndNotice(summary.successCount, summary.failCount).title == SyncSuccessful <==>
      (forall i :: 0 <= i < |playRows| ==>
         SyncOutcome(playRows[i], inputs.now, inputs.tokenReplies(i), inputs.notesReplies(i)).None?) &&
      (forall i :: 0 <= i < |profile| ==>
         BatchOutcomes(host, holds, profile, inputs.start, inputs.replies, inputs.parseJson)[i].None?)
    ensures (StartError(host, holds, inputs.start.processAlive, inputs.start.probe, inputs.start.spawnError).Some? &&
             |profile| > 0) ==>
            EndNotice(summary.successCount, summary.failCount).title == SyncFailed
  {
    EndNoticeReportsFailures(summary.successCount, summary.failCount, playOutcomes, profileOutcomes);
    PlayOutcomesAllSucceed(playRows, inputs, playOutcomes);
  }

  /** Accounts with the same links have the same emails, so they are
      distinct together. */
  lemma SameLinksDistinct(xs: seq<Account>, links: seq<(string, string, string)>, rows: seq<AccountRecord>)
    requires |rows| == |links| && forall i :: 0 <= i < |rows| ==> rows[i].email == links[i].0
    requires Links(xs) == links && DistinctEmails(rows)
    ensures DistinctEmails(Records(xs))
  {
    forall i, j | 0 <= i < j < |xs| ensures Records(xs)[i].email != Records(xs)[j].email {
      assert Links(xs)[i].0 == rows[i].email && Links(xs)[j].0 == rows[j].email;
    }
  }

  /** Accounts with distinct emails are distinct objects. */
  lemma DistinctObjects(play: seq<Account>, emails: seq<string>, i: nat)
    requires i < |play| == |emails| && Distinct(emails)
    requires forall k :: 0 <= k < |play| ==> play[k].email == emails[k]
    ensures forall k :: 0 <= k < |play| && k != i ==> play[k] != play[i]
  {
    forall k | 0 <= k < |play| && k != i ensures play[k] != play[i] {
      assert emails[k] != emails[i];
    }
  }

  class AccountList {
    const ctx: ModelContext
    /** The error text shown under each account whose last sync failed. */
    var errorMessages: map<string, string>

    constructor (ctx: ModelContext)
      ensures this.ctx == ctx && errorMessages == map[]
    {
      this.ctx := ctx;
      errorMessages := map[];
    }

    /** The stored accounts by email. */
    function Accounts(): Table
      reads ctx, set a | a in ctx.accounts
    {
      TableOf(Records(ctx.accounts))
    }

    /** Overwrites the two link fields of one stored account. */
    method SetLinks(a: Account, profileName: string, masterToken: string)
      requires ctx.Valid() && a in ctx.accounts
      modifies a
      ensures ctx.Valid()
      ensures Accounts() == old(Accounts())[a.email := old(a.Value()).(profileName := profileName, masterToken := masterToken)]
    {
      ghost var rows := Records(ctx.accounts);
      ghost var i :| 0 <= i < |ctx.accounts| && ctx.accounts[i] == a;
      ghost var r := rows[i].(profileName := profileName, masterToken := masterToken);
      a.profileName := profileName;
      a.masterToken := masterToken;
      assert Records(ctx.accounts) == rows[i := r] by {
        forall k | 0 <= k < |rows| ensures ctx.accounts[k].Value() == rows[i := r][k] {
          if k != i {
            assert rows[k].email != rows[i].email;
          }
        }
      }
      TableOfUpdate(rows, i, r);
    }

    /** Deletes one stored account object. */
    method RemoveStoredAccount(a: Account)
      requires ctx.Valid() && a in ctx.accounts
      modifies ctx
      ensures ctx.Valid()
      ensures Accounts() == old(Accounts()) - {a.email}
      ensures ctx.notes == old(ctx.notes)
      ensures forall x :: x in ctx.accounts <==> x in old(ctx.accounts) && x != a
    {
      ghost var xs := ctx.accounts;
      ghost var rows := Records(xs);
      assert forall i :: 0 <= i < |xs| ==> (xs[i] == a <==> xs[i].email == a.email) by {
        var j :| 0 <= j < |xs| && xs[j] == a;
        assert forall i :: 0 <= i < |xs| && i != j ==> rows[i].email != rows[j].email;
      }
      ctx.DeleteAccount(a);
      assert Records(xs) == rows;
      RecordsDrop(xs, a);
      DropMembers(xs, a);
      TableOfDropRows(rows, a.email);
      DropRowsDistinct(rows, a.email);
    }

    /** `addOrUpdateAccount(email:profileName:masterToken:)`. */
    method AddOrUpdateAccount(email: string, profileName: string, masterToken: string)
      requires ctx.Valid()
      modifies ctx, ctx.accounts
      ensures ctx.Valid()
      ensures Accounts() == Upsert(old(Accounts()), email, profileName, masterToken)
      ensures ctx.notes == old(ctx.notes)
      ensures forall a :: a in old(ctx.accounts) ==> a in ctx.accounts
      ensures forall k :: 0 <= k < |ctx.accounts| ==> ctx.accounts[k] in old(ctx.accounts) || fresh(ctx.accounts[k])
    {
      var rows := Records(ctx.accounts);
      TableOfKeys(rows);
      TableOfRows(rows);
      var found := FirstIndex(rows, email);
      if found.Some? {
        var a := ctx.accounts[found.value];
        assert Accounts()[email] == a.Value();
        SetLinks(a, if profileName != "" then profileName else a.profileName,
                    if masterToken != "" then masterToken else a.masterToken);
      } else {
        EmailSetMiss(rows, email);
        InsertNewAccount(email, profileName, masterToken);
      }
    }

    /** Stores a new account for an email the list does not hold yet. */
    method InsertNewAccount(email: string, profileName: string, masterToken: string)
      requires ctx.Valid() && email !in Accounts()
      modifies ctx
      ensures ctx.Valid()
      ensures Accounts() == old(Accounts())[email := AccountRecord(email, profileName, masterToken)]
      ensures ctx.notes == old(ctx.notes)
      ensures forall x :: x in old(ctx.accounts) ==> x in ctx.accounts
      ensures forall k :: 0 <= k < |ctx.accounts| ==> ctx.accounts[k] in old(ctx.accounts) || fresh(ctx.accounts[k])
    {
      var rows := Records(ctx.accounts);
      TableOfRows(rows);
      assert forall i :: 0 <= i < |rows| ==> rows[i].email != email;
      var a := new Account(email, profileName, masterToken);
      ctx.InsertAccount(a);
      assert Records(ctx.accounts) == rows + [a.Value()];
      TableOfAppend(rows, a.Value());
    }

    /** `syncChromeProfiles()`: upsert every profile found on disk, then
        unlink each account that had a profile before and whose email no
        longer belongs to a profile. */
    method SyncChromeProfiles(current: seq<AccountRecord>)
      requires ctx.Valid()
      modifies ctx, ctx.accounts
      ensures ctx.Valid()
      ensures Accounts() == Reconcile(old(Accounts()), current)
      ensures ctx.notes == old(ctx.notes)
    {
      ghost var t0 := Accounts();
      ghost var rows0 := Records(ctx.accounts);
      var currentEmails := EmailSet(current);
      var existing: set<Account> := set a | a in ctx.accounts && a.profileName != "";
      ghost var vanished := Vanished(t0, current);
      TableOfKeys(rows0);
      TableOfRows(rows0);
      EmailSetSpec(rows0);
      assert forall a :: a in existing ==> (a.email in vanished <==> a.email !in currentEmails);
      assert forall e :: e in vanished ==> exists a :: a in existing && a.email == e by {
        forall e | e in vanished ensures exists a :: a in existing && a.email == e {
          var k :| 0 <= k < |rows0| && rows0[k].email == e;
          assert ctx.accounts[k] in existing;
        }
      }
      UpsertProfiles(current, existing);
      UpsertAllSpec(t0, current);
      UnlinkVanished(existing, currentEmails, vanished);
    }

    /** The first loop of `syncChromeProfiles()`. */
    method UpsertProfiles(current: seq<AccountRecord>, ghost kept: set<Account>)
      requires ctx.Valid()
      requires forall a :: a in kept ==> a in ctx.accounts
      modifies ctx, ctx.accounts
      ensures ctx.Valid()
      ensures Accounts() == UpsertAll(old(Accounts()), current)
      ensures ctx.notes == old(ctx.notes)
      ensures forall a :: a in kept ==> a in ctx.accounts
    {
      var i := 0;
      while i < |current|
        invariant 0 <= i <= |current|
        invariant ctx.Valid()
        invariant Accounts() == UpsertAll(old(Accounts()), current[..i])
        invariant ctx.notes == old(ctx.notes)
        invariant forall a :: a in kept ==> a in ctx.accounts
        invariant forall k :: 0 <= k < |ctx.accounts| ==> ctx.accounts[k] in old(ctx.accounts) || fresh(ctx.accounts[k])
      {
        AddOrUpdateAccount(current[i].email, current[i].profileName, current[i].masterToken);
        assert current[..i + 1][..i] == current[..i];
        i := i + 1;
      }
      assert current[..i] == current;
    }

    /** The second loop of `syncChromeProfiles()`: every account of
        `existing` whose email is not a current profile's is unlinked. */
    method UnlinkVanished(existing: set<Account>, currentEmails: set<string>, ghost vanished: set<string>)
      requires ctx.Valid()
      requires forall a :: a in existing ==> a in ctx.accounts
      requires forall a :: a in existing ==> (a.email in vanished <==> a.email !in currentEmails)
      requires forall e :: e in vanished ==> exists a :: a in existing && a.email == e
      modifies ctx, existing
      ensures ctx.Valid()
      ensures Accounts() == Unlink(old(Accounts()), vanished)
      ensures ctx.notes == old(ctx.notes)
    {
      ghost var start := Accounts();
      var remaining := existing;
      ghost var gone: set<string> := {};
      while remaining != {}
        invariant remaining <= existing
        invariant ctx.Valid()
        invariant ctx.notes == old(ctx.notes)
        invariant forall a :: a in remaining ==> a in ctx.accounts && a.email !in gone
        invariant forall a :: a in existing && a !in remaining && a.email in vanished ==> a.email in gone
        invariant gone <= vanished
        invariant Accounts() == Unlink(start, gone)
        decreases remaining
      {
        var a :| a in remaining;
        gone := UnlinkIfVanished(a, currentEmails, remaining, vanished, start, gone);
        remaining := remaining - {a};
      }
      assert gone == vanished;
    }

    /** One pass of the second loop of `syncChromeProfiles()`: account `a`
        is unlinked when its email is no current profile's. */
    method UnlinkIfVanished(a: Account, currentEmails: set<string>, ghost remaining: set<Account>,
                            ghost vanished: set<string>, ghost start: Table, ghost gone: set<string>)
      returns (ghost gone': set<string>)
      requires ctx.Valid() && a in remaining
      requires a.email in vanished <==> a.email !in currentEmails
      requires forall x :: x in remaining ==> x in ctx.accounts && x.email !in gone
      requires gone <= vanished && Accounts() == Unlink(start, gone)
      modifies ctx, a
      ensures ctx.Valid() && ctx.notes == old(ctx.notes)
      ensures forall x :: x in remaining - {a} ==> x in ctx.accounts && x.email !in gone'
      ensures gone' == if a.email in vanished then gone + {a.email} else gone
      ensures gone' <= vanished && Accounts() == Unlink(start, gone')
    {
      gone' := gone;
      if a.email !in currentEmails {
        UnlinkAccount(a, start, gone);
        gone' := gone + {a.email};
      }
    }

    /** One step of the second loop: the account loses its profile name,
        or its row when it has no master token. */
    method UnlinkAccount(a: Account, ghost start: Table, ghost gone: set<string>)
      requires ctx.Valid() && a in ctx.accounts
      requires a.email !in gone && Accounts() == Unlink(start, gone)
      modifies ctx, a
      ensures ctx.Valid()
      ensures Accounts() == Unlink(start, gone + {a.email})
      ensures ctx.notes == old(ctx.notes)
      ensures forall x :: x in old(ctx.accounts) && x != a ==> x in ctx.accounts && x.email != a.email
    {
      var e := a.email;
      ghost var rows := Records(ctx.accounts);
      TableOfKeys(rows);
      TableOfRows(rows);
      EmailSetSpec(rows);
      assert Accounts()[e] == a.Value();
      UnlinkOne(start, gone, e);
      forall x | x in ctx.accounts && x != a ensures x.email != e {
        if x.email == e {
          EmailsIdentify(ctx.accounts, x, a);
        }
      }
      if a.masterToken != "" {
        SetLinks(a, "", a.masterToken);
      } else {
        RemoveStoredAccount(a);
      }
    }

    /** `deleteAccount(_:)`: removes the account's Chrome profile when it
        has one (a failure there is ignored, and whatever was done before it
        stays done), then its notes, then the account itself, and announces
        it. `dir` is the data directory before and `newDir` after;
        `writeError` and `removeError` are how rewriting `Local State` and
        removing the profile's directory fail, if they do. */
    method DeleteAccount(a: Account, dir: Option<DataDirectory>, writeError: Option<string>, removeError: Option<string>)
      returns (newDir: Option<DataDirectory>, notice: Notice)
      requires ctx.Valid() && a in ctx.accounts
      modifies ctx
      ensures ctx.Valid()
      ensures Accounts() == old(Accounts()) - {a.email}
      ensures ctx.notes == Without(old(ctx.notes), a.email)
      ensures NotesOf(ctx.notes, a.email) == []
      ensures forall e :: e != a.email ==> NotesOf(ctx.notes, e) == NotesOf(old(ctx.notes), e)
      ensures a.profileName != "" ==> newDir == DirectoryAfterDeletion(dir, a.profileName, writeError, removeError)
      ensures a.profileName != "" && DeletionError(dir, a.profileName, writeError, removeError).None? ==>
        newDir == Some(DataDirectory(dir.value.entries - {a.profileName},
                                     WithoutCacheEntry(dir.value.localState, a.profileName)))
      ensures a.profileName == "" ==> newDir == dir
      ensures notice == Notice(AccountDeleted, a.email + DeletedWord)
    {
      var email := a.email;
      newDir := dir;
      if a.profileName != "" {
        var err;
        err, newDir := DeleteProfile(dir, a.profileName, writeError, removeError);
      }
      DeleteStored(a);
      notice := Notice(AccountDeleted, email + DeletedWord);
    }

    /** The stored part of `deleteAccount(_:)`: the account's notes go,
        then the account itself. */
    method DeleteStored(a: Account)
      requires ctx.Valid() && a in ctx.accounts
      modifies ctx
      ensures ctx.Valid()
      ensures Accounts() == old(Accounts()) - {a.email}
      ensures ctx.notes == Without(old(ctx.notes), a.email)
      ensures NotesOf(ctx.notes, a.email) == []
      ensures forall e :: e != a.email ==> NotesOf(ctx.notes, e) == NotesOf(old(ctx.notes), e)
    {
      ctx.DeleteNotesOf(a.email);
      NotesOfWithout(old(ctx.notes), a.email);
      forall e | e != a.email ensures NotesOf(ctx.notes, e) == NotesOf(old(ctx.notes), e) {
        NotesOfWithoutOther(old(ctx.notes), a.email, e);
      }
      RemoveStoredAccount(a);
    }

    /** `handleProfileAdded(profile:)`: the new profile's account is added
        or updated and announced. */
    method HandleProfileAdded(profile: AccountRecord) returns (notice: Notice)
      requires ctx.Valid()
      modifies ctx, ctx.accounts
      ensures ctx.Valid()
      ensures Accounts() == Upsert(old(Accounts()), profile.email, profile.profileName, profile.masterToken)
      ensures profile.email in Accounts()
      ensures notice == Notice(AccountAdded, profile.email + AddedWord)
    {
      AddOrUpdateAccount(profile.email, profile.profileName, profile.masterToken);
      notice := Notice(AccountAdded, profile.email + AddedWord);
    }

    /** `handlePlayLoginSuccess(email:oauthToken:)`: exchanges the login's
        token for a master token (`reply` is the server's answer) and, on
        success, stores it on the account and announces it; on failure
        nothing changes. */
    method HandlePlayLoginSuccess(email: string, reply: TextReply) returns (notice: Option<Notice>)
      requires ctx.Valid()
      modifies ctx, ctx.accounts
      ensures ctx.Valid()
      ensures FetchMasterToken(reply).Failure? ==> notice == None && Accounts() == old(Accounts())
      ensures FetchMasterToken(reply).Success? ==>
        && Accounts() == Upsert(old(Accounts()), email, "", FetchMasterToken(reply).value)
        && email in Accounts() && Accounts()[email].masterToken != ""
        && notice == Some(Notice(AccountAdded, email + AddedWord))
    {
      var token := FetchMasterToken(reply);
      if token.Failure? {
        return None;
      }
      AddOrUpdateAccount(email, "", token.value);
      notice := Some(Notice(AccountAdded, email + AddedWord));
    }

    /** The accounts synced through the Play service. */
    function PlayRows(): seq<AccountRecord>
      reads ctx, set a | a in ctx.accounts
    {
      Records(Select(ctx.accounts, IsPlay))
    }

    /** The emails of the accounts synced through the Play service. */
    function PlayEmails(): seq<string>
      reads ctx, set a | a in ctx.accounts
    {
      EmailsOf(PlayRows())
    }

    /** The accounts synced through their Chrome profile alone. */
    function ProfileRows(): seq<AccountRecord>
      reads ctx, set a | a in ctx.accounts
    {
      Records(Select(ctx.accounts, IsProfileOnly))
    }

    /** One pass of the first loop of `syncAllAccounts`: the text of
        account `i` is cleared, its notes are synced, and a failure sets its
        text. `outcomes` tells how the syncs of the accounts before it
        ended. */
    method SyncPlayAccount(play: seq<Account>, inputs: SyncInputs, i: nat, ghost rows: seq<AccountRecord>,
                           ghost emails: seq<string>, ghost outcomes: seq<Option<Error>>,
                           ghost startMessages: map<string, string>, ghost startNotes: seq<Note>)
      returns (err: Option<Error>)
      requires i == |outcomes| < |play| == |emails| == |rows| && Distinct(emails)
      requires play[i].Value() == rows[i] && outcomes == PlayOutcomes(rows[..i], inputs)
      requires forall k :: 0 <= k < |play| ==> play[k].email == emails[k]
      requires forall k :: 0 <= k < i && outcomes[k].None? ==> FetchKeepNotes(inputs.notesReplies(k)).Success?
      requires errorMessages == AfterSync(startMessages, emails[..i], outcomes)
      requires ctx.notes == ApplySyncs(startNotes, emails[..i], PlaySynced(emails[..i], outcomes, inputs.notesReplies))
      modifies this, ctx, play[i]
      ensures outcomes + [err] == PlayOutcomes(rows[..i + 1], inputs)
      ensures play[i].Value() == TokenAfter(rows[i], inputs.now, inputs.tokenReplies(i))
      ensures forall k :: 0 <= k < |play| && k != i ==> play[k].Value() == old(play[k].Value())
      ensures ctx.accounts == old(ctx.accounts)
      ensures Links(ctx.accounts) == old(Links(ctx.accounts))
      ensures forall k :: 0 <= k < i + 1 && (outcomes + [err])[k].None? ==> FetchKeepNotes(inputs.notesReplies(k)).Success?
      ensures FailureCount(outcomes + [err]) == FailureCount(outcomes) + (if err.Some? then 1 else 0)
      ensures errorMessages == AfterSync(startMessages, emails[..i + 1], outcomes + [err])
      ensures ctx.notes ==
        ApplySyncs(startNotes, emails[..i + 1], PlaySynced(emails[..i + 1], outcomes + [err], inputs.notesReplies))
    {
      var a := play[i];
      DistinctObjects(play, emails, i);
      assert emails[i] !in emails[..i];
      assert emails[..i + 1] == emails[..i] + [a.email];
      errorMessages := errorMessages - {a.email};
      err := SyncStoredNotes(a, inputs.now, inputs.tokenReplies(i), inputs.notesReplies(i));
      PlayOutcomesSnoc(rows, inputs, i);
      if err.Some? {
        errorMessages := errorMessages[a.email := err.value.Description()];
      }
      AfterSyncStep(startMessages, emails[..i], outcomes, a.email, err);
      OutcomeStep(outcomes, inputs.notesReplies, err);
      PlaySyncStep(startNotes, emails[..i], outcomes, inputs.notesReplies, a.email, err);
    }

    /** `syncNotes(for:modelContext:)` on a stored account: it ends as its
        token and notes replies decide; the store holds the fetched notes in
        place of the account's old ones after a success, is unchanged after
        a failure, and every account keeps its links. */
    method SyncStoredNotes(a: Account, now: int, tokenReply: TextReply, notesReply: Reply) returns (err: Option<Error>)
      modifies ctx, a
      ensures err == SyncOutcome(old(a.Value()), now, tokenReply, notesReply)
      ensures a.Value() == TokenAfter(old(a.Value()), now, tokenReply)
      ensures ctx.accounts == old(ctx.accounts)
      ensures Links(ctx.accounts) == old(Links(ctx.accounts))
      ensures err.None? ==> FetchKeepNotes(notesReply).Success?
      ensures ctx.notes == if err.None? then Without(old(ctx.notes), a.email) + ParseNodes(FetchKeepNotes(notesReply).value, a.email)
                           else old(ctx.notes)
    {
      err := SyncNotes(a, ctx, now, tokenReply, notesReply);
      LinksUnchanged(ctx.accounts);
    }

    /** The first loop of `syncAllAccounts`: each Play account's text is
        cleared and its notes are synced; a failure sets its text. */
    method SyncPlayAccounts(play: seq<Account>, inputs: SyncInputs)
      returns (successCount: int, failCount: int, ghost outcomes: seq<Option<Error>>)
      requires ctx.Valid()
      requires forall k :: 0 <= k < |play| ==> play[k] in ctx.accounts
      requires Distinct(EmailsOf(Records(play)))
      modifies this, ctx, set a | a in play
      ensures ctx.accounts == old(ctx.accounts) && Links(ctx.accounts) == old(Links(ctx.accounts))
      ensures outcomes == PlayOutcomes(old(Records(play)), inputs)
      ensures forall k :: 0 <= k < |play| ==>
        play[k].Value() == TokenAfter(old(play[k].Value()), inputs.now, inputs.tokenReplies(k))
      ensures successCount + failCount == |play| && failCount == FailureCount(outcomes)
      ensures forall i :: 0 <= i < |play| && outcomes[i].None? ==> FetchKeepNotes(inputs.notesReplies(i)).Success?
      ensures ctx.notes == ApplySyncs(old(ctx.notes), old(EmailsOf(Records(play))),
                                      PlaySynced(old(EmailsOf(Records(play))), outcomes, inputs.notesReplies))
      ensures errorMessages == AfterSync(old(errorMessages), old(EmailsOf(Records(play))), outcomes)
    {
      ghost var emails := EmailsOf(Records(play));
      ghost var rows := Records(play);
      assert forall k :: 0 <= k < |play| ==> play[k].email == emails[k];
      successCount, failCount := 0, 0;
      outcomes := [];
      var i := 0;
      while i < |play|
        invariant 0 <= i <= |play|
        invariant |outcomes| == i
        invariant outcomes == PlayOutcomes(rows[..i], inputs)
        invariant forall k :: i <= k < |play| ==> play[k].Value() == rows[k]
        invariant forall k :: 0 <= k < i ==> play[k].Value() == TokenAfter(rows[k], inputs.now, inputs.tokenReplies(k))
        invariant ctx.accounts == old(ctx.accounts)
        invariant Links(ctx.accounts) == old(Links(ctx.accounts))
        invariant successCount + failCount == i && failCount == FailureCount(outcomes)
        invariant forall k :: 0 <= k < i && outcomes[k].None? ==> FetchKeepNotes(inputs.notesReplies(k)).Success?
        invariant ctx.notes == ApplySyncs(old(ctx.notes), emails[..i], PlaySynced(emails[..i], outcomes, inputs.notesReplies))
        invariant errorMessages == AfterSync(old(errorMessages), emails[..i], outcomes)
      {
        var err := SyncPlayAccount(play, inputs, i, rows, emails, outcomes, old(errorMessages), old(ctx.notes));
        if err.None? {
          successCount := successCount + 1;
        } else {
          failCount := failCount + 1;
        }
        outcomes := outcomes + [err];
        i := i + 1;
      }
      assert emails[..i] == emails;
      assert rows[..i] == rows;
    }

    /** Clears the text of every account in `emails`. */
    method ClearMessages(emails: seq<string>)
      modifies this
      ensures errorMessages == old(errorMessages) - (set e | e in emails)
    {
      var i := 0;
      while i < |emails|
        invariant 0 <= i <= |emails|
        invariant errorMessages == old(errorMessages) - (set e | e in emails[..i])
      {
        errorMessages := errorMessages - {emails[i]};
        assert emails[..i + 1] == emails[..i] + [emails[i]];
        ClearStep(old(errorMessages), emails[..i], emails[i]);
        i := i + 1;
      }
      assert emails[..i] == emails;
    }

    /** Sets the text of every account in the error dictionary, one entry
        at a time, and counts the entries. */
    method RecordErrors(errors: map<string, Error>) returns (count: nat)
      modifies this
      ensures errorMessages == old(errorMessages) + Described(errors)
      ensures count == |errors|
    {
      count := 0;
      var pending := errors.Keys;
      while pending != {}
        invariant pending <= errors.Keys
        invariant errorMessages == old(errorMessages) + Described(errors - pending)
        invariant count + |pending| == |errors.Keys|
        decreases pending
      {
        var k :| k in pending;
        var text := errors[k].Description();
        MergeUpdate(old(errorMessages), Described(errors - pending), k, text);
        DescribedStep(errors, pending, k);
        errorMessages := errorMessages[k := text];
        count := count + 1;
        pending := pending - {k};
      }
      assert errors - pending == errors;
    }

    /** The second part of `syncAllAccounts`: when there are profile
        accounts, their texts are cleared, they are synced together, and
        each error in the returned dictionary sets its account's text and
        counts as a failure. */
    method SyncProfileAccounts(driver: DriverService, profile: seq<AccountRecord>, inputs: SyncInputs)
      returns (successCount: int, failCount: int, ghost outcomes: seq<Option<Error>>)
      requires Distinct(EmailsOf(profile))
      modifies this, driver, ctx
      ensures ctx.accounts == old(ctx.accounts)
      ensures |profile| == 0 ==>
        errorMessages == old(errorMessages) && ctx.notes == old(ctx.notes) && unchanged(driver)
      ensures |profile| > 0 ==> EndsWithCleanup(driver.events, inputs.sessionsReply)
      ensures outcomes == BatchOutcomes(driver.host, old(driver.hasProcess), profile, inputs.start, inputs.replies, inputs.parseJson)
      ensures successCount + failCount == |profile| && failCount == FailureCount(outcomes)
      ensures forall i :: 0 <= i < |profile| && outcomes[i].None? ==>
        PageNotes(inputs.replies(i).page, inputs.parseJson, profile[i].email).Success?
      ensures ctx.notes == ApplySyncs(old(ctx.notes), EmailsOf(profile), SyncedNotes(profile, outcomes, inputs.replies, inputs.parseJson))
      ensures errorMessages == AfterSync(old(errorMessages), EmailsOf(profile), outcomes)
    {
      var emails := EmailsOf(profile);
      if |profile| == 0 {
        assert AfterSync(errorMessages, emails, []) == errorMessages;
        return 0, 0, [];
      }
      ClearMessages(emails);
      var errors;
      errors, outcomes := SyncMultipleAccounts(driver, ctx, profile, inputs.start, inputs.replies, inputs.parseJson,
                                               inputs.sessionsReply, inputs.aliveAtCleanup);
      failCount := RecordErrors(errors);
      ErrorMapSize(emails, outcomes);
      successCount := |profile| - |errors|;
    }

    /** `syncAllAccounts` once there is something to sync: the Play
        accounts one by one, then the profile-only accounts together. */
    method RunSync(driver: DriverService, play: seq<Account>, ghost playRows: seq<AccountRecord>, ghost playEmails: seq<string>,
                   profile: seq<AccountRecord>, inputs: SyncInputs)
      returns (summary: SyncSummary, ghost playOutcomes: seq<Option<Error>>, ghost profileOutcomes: seq<Option<Error>>)
      requires ctx.Valid()
      requires forall k :: 0 <= k < |play| ==> play[k] in ctx.accounts
      requires playRows == Records(play)
      requires playEmails == EmailsOf(Records(play))
      requires Distinct(playEmails + EmailsOf(profile))
      modifies this, ctx, driver, set a | a in play
      ensures ctx.accounts == old(ctx.accounts) && Links(ctx.accounts) == old(Links(ctx.accounts))
      ensures Records(play) == TokenRefreshes(playRows, inputs)
      ensures |profile| == 0 ==> unchanged(driver)
      ensures |profile| > 0 ==> EndsWithCleanup(driver.events, inputs.sessionsReply)
      ensures summary.Finished?
      ensures SyncEffects(inputs, playRows, playEmails, playOutcomes, profile, profileOutcomes,
                          driver.host, old(driver.hasProcess), summary,
                          old(errorMessages), errorMessages, old(ctx.notes), ctx.notes)
    {
      DistinctParts(playEmails, EmailsOf(profile));
      assert |playEmails| == |play|;
      var playSuccess, playFail, profileSuccess, profileFail;
      playSuccess, playFail, playOutcomes := SyncPlayAccounts(play, inputs);
      profileSuccess, profileFail, profileOutcomes := SyncProfileAccounts(driver, profile, inputs);
      summary := Finished(playSuccess + profileSuccess, playFail + profileFail);
      assert forall k :: 0 <= k < |play| ==> Records(play)[k] == TokenRefreshes(playRows, inputs)[k];
    }

    /** The accounts `syncAllAccounts` selects, synced: the Play accounts one
        by one, then the profile-only accounts together. The account objects
        keep their links, so their emails stay distinct. It returns how many
        accounts it syncs and the Play account objects it picked: each one's
        record is refreshed by its own token reply, every other account is
        left untouched, and the driver is untouched without a profile
        account and otherwise ends with one cleanup. */
    method SyncSelection(driver: DriverService, inputs: SyncInputs)
      returns (summary: SyncSummary, total: nat, ghost selected: seq<Account>, ghost playRows: seq<AccountRecord>, ghost playEmails: seq<string>,
               ghost profileRows: seq<AccountRecord>,
               ghost playOutcomes: seq<Option<Error>>, ghost profileOutcomes: seq<Option<Error>>)
      requires ctx.Valid()
      modifies this, ctx, ctx.accounts, driver
      ensures playRows == old(PlayRows()) && playEmails == old(PlayEmails()) && profileRows == old(ProfileRows())
      ensures total == |playEmails| + |profileRows|
      ensures Distinct(playEmails + EmailsOf(profileRows))
      ensures ctx.Valid() && ctx.accounts == old(ctx.accounts) && Links(ctx.accounts) == old(Links(ctx.accounts))
      ensures selected == old(Select(ctx.accounts, IsPlay))
      ensures Records(selected) == TokenRefreshes(playRows, inputs)
      ensures forall a :: a in ctx.accounts && a !in selected ==> unchanged(a)
      ensures |profileRows| == 0 ==> unchanged(driver)
      ensures |profileRows| > 0 ==> EndsWithCleanup(driver.events, inputs.sessionsReply)
      ensures summary.Finished?
      ensures SyncEffects(inputs, playRows, playEmails, playOutcomes, profileRows, profileOutcomes,
                          driver.host, old(driver.hasProcess), summary,
                          old(errorMessages), errorMessages, old(ctx.notes), ctx.notes)
    {
      var play := Select(ctx.accounts, IsPlay);
      selected := play;
      playRows := Records(play);
      var profile := Records(Select(ctx.accounts, IsProfileOnly));
      profileRows := profile;
      playEmails := EmailsOf(Records(play));
      SelectDisjoint(ctx.accounts);
      ghost var links, rows := Links(ctx.accounts), Records(ctx.accounts);
      total := |play| + |profile|;
      summary, playOutcomes, profileOutcomes := RunSync(driver, play, playRows, playEmails, profile, inputs);
      SameLinksDistinct(ctx.accounts, links, rows);
    }

    /** `syncAllAccounts(notify:)`: nothing happens without an account to
        sync; otherwise the Play accounts are synced one by one, then the
        profile-only accounts together, every account's text ends up set
        exactly when its sync failed, and with `notify` a start and an end
        notice are sent, the end one reading "Sync Successful" exactly when
        no sync failed. `total` is the count the start notice announces. */
    method SyncAllAccounts(driver: DriverService, inputs: SyncInputs, notify: bool)
      returns (summary: SyncSummary, total: nat, notices: seq<Notice>,
               ghost selected: seq<Account>, ghost playRows: seq<AccountRecord>, ghost playEmails: seq<string>, ghost profileRows: seq<AccountRecord>,
               ghost playOutcomes: seq<Option<Error>>, ghost profileOutcomes: seq<Option<Error>>)
      requires ctx.Valid()
      modifies this, ctx, ctx.accounts, driver
      ensures playRows == old(PlayRows()) && playEmails == old(PlayEmails()) && profileRows == old(ProfileRows())
      ensures Distinct(playEmails + EmailsOf(profileRows))
      ensures ctx.Valid() && ctx.accounts == old(ctx.accounts) && Links(ctx.accounts) == old(Links(ctx.accounts))
      ensures selected == old(Select(ctx.accounts, IsPlay))
      ensures Records(selected) == TokenRefreshes(playRows, inputs)
      ensures forall a :: a in ctx.accounts && a !in selected ==> unchanged(a)
      ensures |profileRows| == 0 ==> unchanged(driver)
      ensures |profileRows| > 0 ==> EndsWithCleanup(driver.events, inputs.sessionsReply)
      ensures summary.Skipped? <==> |playEmails| == 0 && |profileRows| == 0
      ensures summary.Skipped? ==>
        && notices == [] && errorMessages == old(errorMessages)
        && ctx.notes == old(ctx.notes) && driver.events == old(driver.events)
      ensures summary.Finished? ==>
        SyncEffects(inputs, playRows, playEmails, playOutcomes, profileRows, profileOutcomes,
                    driver.host, old(driver.hasProcess), summary,
                    old(errorMessages), errorMessages, old(ctx.notes), ctx.notes)
      ensures total == |playEmails| + |profileRows|
      ensures notices == SyncNotices(notify, total, summary)
    {
      if |PlayEmails()| == 0 && |ProfileRows()| == 0 {
        playRows, playEmails, profileRows := PlayRows(), PlayEmails(), ProfileRows();
        summary, total, notices, playOutcomes, profileOutcomes := Skipped, 0, [], [], [];
        selected := Select(ctx.accounts, IsPlay);
        assert Records(selected) == [] == TokenRefreshes(playRows, inputs);
      } else {
        summary, total, selected, playRows, playEmails, profileRows, playOutcomes, profileOutcomes := SyncSelection(driver, inputs);
        notices := SyncNotices(notify, total, summary);
      }
    }
  }
}
