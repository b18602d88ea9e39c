/** The SwiftData store the app and the widget server share, reduced to the
    two tables the core reads and writes: the `Account` objects, which are
    updated in place, and the `Note` rows, which are only ever inserted and
    deleted. `save()` is not modelled separately: every change is taken as
    saved. */
module Store {
  import opened Common
  import opened Notes
  import opened Accounts

  /** The field values of a sequence of account objects, in order. */
  function Records(xs: seq<Account>): (r: seq<AccountRecord>)
    reads set a | a in xs
    ensures |r| == |xs|
    ensures forall i :: 0 <= i < |xs| ==> r[i] == xs[i].Value()
  {
    seq(|xs|, i reads set a | a in xs requires 0 <= i < |xs| => xs[i].Value())
  }

  predicate DistinctEmails(rows: seq<AccountRecord>) {
    forall i, j :: 0 <= i < j < |rows| ==> rows[i].email != rows[j].email
  }

  /** A prefix of rows with distinct emails has distinct emails. */
  lemma DistinctPrefix(rows: seq<AccountRecord>, n: nat)
    requires DistinctEmails(rows) && n <= |rows|
    ensures DistinctEmails(rows[..n])
  {
    forall i, j | 0 <= i < j < n ensures rows[..n][i].email != rows[..n][j].email {
      assert rows[..n][i] == rows[i] && rows[..n][j] == rows[j];
    }
  }

  /** Distinctness depends on the emails alone. */
  lemma DistinctSameEmails(rows: seq<AccountRecord>, rows': seq<AccountRecord>)
    requires DistinctEmails(rows) && |rows'| == |rows|
    requires forall i :: 0 <= i < |rows| ==> rows'[i].email == rows[i].email
    ensures DistinctEmails(rows')
  {
    forall i, j | 0 <= i < j < |rows'| ensures rows'[i].email != rows'[j].email {
      assert rows[i].email != rows[j].email;
    }
  }

  /** `fetch(... $0.email == email).first`: the position of the first
      account with that email. */
  function FirstIndex(rows: seq<AccountRecord>, email: string): (r: Option<nat>)
    ensures r.Some? ==> r.value < |rows| && rows[r.value].email == email
    ensures r.Some? ==> forall j :: 0 <= j < r.value ==> rows[j].email != email
    ensures r.None? ==> forall j :: 0 <= j < |rows| ==> rows[j].email != email
    decreases |rows|
  {
    if |rows| == 0 then None
    else if rows[0].email == email then Some(0)
    else
      match FirstIndex(rows[1..], email)
      case None => None
      case Some(i) => Some(i + 1)
  }

  /** The notes of one account, in store order. */
  function NotesOf(notes: seq<Note>, email: string): (r: seq<Note>)
    ensures forall i :: 0 <= i < |r| ==> r[i].email == email
    decreases |notes|
  {
    if |notes| == 0 then []
    else (if notes[0].email == email then [notes[0]] else []) + NotesOf(notes[1..], email)
  }

  /** The notes of every other account, in store order. */
  function Without(notes: seq<Note>, email: string): (r: seq<Note>)
    ensures forall i :: 0 <= i < |r| ==> r[i].email != email
    decreases |notes|
  {
    if |notes| == 0 then []
    else (if notes[0].email != email then [notes[0]] else []) + Without(notes[1..], email)
  }

  /** Splitting the notes by one email loses and invents nothing. */
  lemma {:induction false} SplitByEmail(notes: seq<Note>, email: string)
    ensures multiset(NotesOf(notes, email)) + multiset(Without(notes, email)) == multiset(notes)
    decreases |notes|
  {
    if |notes| > 0 {
      SplitByEmail(notes[1..], email);
      SplitStep(notes, NotesOf(notes[1..], email), Without(notes[1..], email), NotesOf(notes, email), Without(notes, email));
    }
  }

  /** Putting the head of `s` in front of one of two parts of its tail
      splits `s`. */
  lemma SplitStep<T>(s: seq<T>, a: seq<T>, b: seq<T>, a': seq<T>, b': seq<T>)
    requires |s| > 0 && multiset(a) + multiset(b) == multiset(s[1..])
    requires (a' == [s[0]] + a && b' == b) || (a' == a && b' == [s[0]] + b)
    ensures multiset(a') + multiset(b') == multiset(s)
  {
    assert s == [s[0]] + s[1..];
    MultisetCons(s[0], s[1..]);
    if a' == [s[0]] + a && b' == b {
      MultisetCons(s[0], a);
    } else {
      MultisetCons(s[0], b);
    }
  }

  /** Removing an account's notes and adding `incoming` ones for it leaves that
      account with exactly `incoming` and every other account as it was. */
  lemma {:induction false} ReplaceNotesSpec(notes: seq<Note>, email: string, incoming: seq<Note>)
    requires forall i :: 0 <= i < |incoming| ==> incoming[i].email == email
    ensures NotesOf(Without(notes, email) + incoming, email) == incoming
    ensures forall other :: other != email ==>
      NotesOf(Without(notes, email) + incoming, other) == NotesOf(notes, other)
  {
    NotesOfAppend(Without(notes, email), incoming, email);
    NotesOfWithout(notes, email);
    NotesOfAll(incoming, email);
    forall other | other != email
      ensures NotesOf(Without(notes, email) + incoming, other) == NotesOf(notes, other)
    {
      NotesOfAppend(Without(notes, email), incoming, other);
      NotesOfNone(incoming, other);
      NotesOfWithoutOther(notes, email, other);
    }
  }

  lemma {:induction false} NotesOfAppend(a: seq<Note>, b: seq<Note>, email: string)
    ensures NotesOf(a + b, email) == NotesOf(a, email) + NotesOf(b, email)
    decreases |a|
  {
    if |a| > 0 {
      assert (a + b)[1..] == a[1..] + b;
      NotesOfAppend(a[1..], b, email);
    } else {
      assert a + b == b;
    }
  }

  lemma {:induction false} NotesOfWithout(notes: seq<Note>, email: string)
    ensures NotesOf(Without(notes, email), email) == []
    decreases |notes|
  {
    if |notes| > 0 {
      NotesOfWithout(notes[1..], email);
      var head := if notes[0].email != email then [notes[0]] else [];
      NotesOfAppend(head, Without(notes[1..], email), email);
    }
  }

  lemma {:induction false} NotesOfAll(incoming: seq<Note>, email: string)
    requires forall i :: 0 <= i < |incoming| ==> incoming[i].email == email
    ensures NotesOf(incoming, email) == incoming
    decreases |incoming|
  {
    if |incoming| > 0 {
      NotesOfAll(incoming[1..], email);
    }
  }

  lemma {:induction false} NotesOfNone(incoming: seq<Note>, email: string)
    requires forall i :: 0 <= i < |incoming| ==> incoming[i].email != email
    ensures NotesOf(incoming, email) == []
    decreases |incoming|
  {
    if |incoming| > 0 {
      NotesOfNone(incoming[1..], email);
    }
  }

  lemma {:induction false} NotesOfWithoutOther(notes: seq<Note>, email: string, other: string)
    requires other != email
    ensures NotesOf(Without(notes, email), other) == NotesOf(notes, other)
    decreases |notes|
  {
    if |notes| > 0 {
      NotesOfWithoutOther(notes[1..], email, other);
      var head := if notes[0].email != email then [notes[0]] else [];
      NotesOfAppend(head, Without(notes[1..], email), other);
    }
  }

  /** The account objects other than `a`, in order. */
  function Drop(xs: seq<Account>, a: Account): (r: seq<Account>)
    ensures forall i :: 0 <= i < |r| ==> r[i] in xs && r[i] != a
    ensures forall i :: 0 <= i < |xs| && xs[i] != a ==> xs[i] in r
    decreases |xs|
  {
    if |xs| == 0 then []
    else
      var last := xs[|xs| - 1];
      assert xs == xs[..|xs| - 1] + [last];
      Drop(xs[..|xs| - 1], a) + (if last != a then [last] else [])
  }

  lemma DropMembers(xs: seq<Account>, a: Account)
    ensures forall x :: x in Drop(xs, a) <==> x in xs && x != a
  {
    forall x | x in xs && x != a ensures x in Drop(xs, a) {
      var i :| 0 <= i < |xs| && xs[i] == x;
    }
  }

  /** The rows whose email is not `email`, in order. */
  function DropRows(rows: seq<AccountRecord>, email: string): (r: seq<AccountRecord>)
    ensures forall i :: 0 <= i < |r| ==> r[i].email != email
    decreases |rows|
  {
    if |rows| == 0 then []
    else
      var last := rows[|rows| - 1];
      DropRows(rows[..|rows| - 1], email) + (if last.email != email then [last] else [])
  }

  lemma {:induction false} RecordsAppend(xs: seq<Account>, ys: seq<Account>)
    ensures Records(xs + ys) == Records(xs) + Records(ys)
  {
    assert forall i :: 0 <= i < |xs + ys| ==> Records(xs + ys)[i] == (Records(xs) + Records(ys))[i];
  }

  /** When `a` is the only object with its email, dropping the object drops
      the rows with that email. */
  lemma {:induction false} RecordsDrop(xs: seq<Account>, a: Account)
    requires forall i :: 0 <= i < |xs| ==> (xs[i] == a <==> xs[i].email == a.email)
    ensures Records(Drop(xs, a)) == DropRows(Records(xs), a.email)
    decreases |xs|
  {
    if |xs| > 0 {
      var init, last := xs[..|xs| - 1], xs[|xs| - 1];
      RecordsDrop(init, a);
      assert Records(xs)[..|xs| - 1] == Records(init);
      RecordsAppend(Drop(init, a), if last != a then [last] else []);
    }
  }

  /** With distinct emails, an email identifies its object. */
  lemma EmailsIdentify(xs: seq<Account>, x: Account, y: Account)
    requires DistinctEmails(Records(xs)) && x in xs && y in xs && x.email == y.email
    ensures x == y
  {
    var i :| 0 <= i < |xs| && xs[i] == x;
    var j :| 0 <= j < |xs| && xs[j] == y;
    assert Records(xs)[i].email == Records(xs)[j].email;
  }

  /** The model context: the account objects and the note rows. */
  class ModelContext {
    var accounts: seq<Account>
    var notes: seq<Note>

    /** No two accounts share an email (the account list keeps it so by
        updating an existing account rather than inserting a second one). */
    ghost predicate Valid()
      reads this, set a | a in accounts
    {
      DistinctEmails(Records(accounts))
    }

    constructor ()
      ensures accounts == [] && notes == [] && Valid()
    {
      accounts := [];
      notes := [];
    }

    method InsertAccount(a: Account)
      modifies this
      ensures accounts == old(accounts) + [a] && notes == old(notes)
    {
      accounts := accounts + [a];
    }

    /** `delete(account)`: the object leaves the table; the others keep
        their order. */
    method DeleteAccount(a: Account)
      modifies this
      ensures accounts == Drop(old(accounts), a)
      ensures notes == old(notes)
    {
      var kept: seq<Account> := [];
      var i := 0;
      while i < |accounts|
        invariant 0 <= i <= |accounts|
        invariant kept == Drop(accounts[..i], a)
      {
        assert accounts[..i + 1][..i] == accounts[..i];
        if accounts[i] != a {
          kept := kept + [accounts[i]];
        }
        i := i + 1;
      }
      assert accounts[..i] == accounts;
      accounts := kept;
    }

    /** Deletes every note fetched by `$0.email == email`. */
    method DeleteNotesOf(email: string)
      modifies this
      ensures notes == Without(old(notes), email) && accounts == old(accounts)
    {
      notes := Without(notes, email);
    }

    method InsertNote(n: Note)
      modifies this
      ensures notes == old(notes) + [n] && accounts == old(accounts)
    {
      notes := notes + [n];
    }
  }

  /** The replace-all step shared by both note syncs: delete every stored
      note of `email`, then insert the new notes one by one. Afterwards that
      account's notes are exactly `incoming` and no other account's notes
      changed. */
  method ReplaceAccountNotes(ctx: ModelContext, email: string, incoming: seq<Note>)
    requires forall i :: 0 <= i < |incoming| ==> incoming[i].email == email
    modifies ctx
    ensures ctx.accounts == old(ctx.accounts)
    ensures ctx.notes == Without(old(ctx.notes), email) + incoming
    ensures NotesOf(ctx.notes, email) == incoming
    ensures forall other :: other != email ==> NotesOf(ctx.notes, other) == NotesOf(old(ctx.notes), other)
  {
    ctx.DeleteNotesOf(email);
    var i := 0;
    while i < |incoming|
      invariant 0 <= i <= |incoming|
      invariant ctx.notes == Without(old(ctx.notes), email) + incoming[..i]
      invariant ctx.accounts == old(ctx.accounts)
    {
      ctx.InsertNote(incoming[i]);
      assert incoming[..i + 1] == incoming[..i] + [incoming[i]];
      i := i + 1;
    }
    assert incoming[..i] == incoming;
    ReplaceNotesSpec(old(ctx.notes), email, incoming);
  }
}
