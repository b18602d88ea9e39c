/** Root-note selection (Service/NoteService.swift): the visible top-level
    notes of one account, highest `sortValue` first. */
module NoteService {
  import opened Common
  import opened Notes

  /** A `trashed` timestamp whose first character is `'2'` marks a note in
      the trash; an empty one does not. */
  predicate IsTrashed(n: Note) {
    |n.trashed| > 0 && n.trashed[0] == '2'
  }

  predicate IsVisibleRoot(n: Note, email: string) {
    n.email == email && n.parentId == "root" && !n.isArchived && !IsTrashed(n)
  }

  /** `Int(sortValue) ?? 0` */
  function SortKey(n: Note): int {
    ParseInt(n.sortValue).GetOr(0)
  }

  /** Non-increasing in the sort key. */
  predicate SortedDesc(s: seq<Note>) {
    forall i, j :: 0 <= i < j < |s| ==> SortKey(s[i]) >= SortKey(s[j])
  }

  /** The `filter` step: the visible root notes of `email`, in input order. */
  function RootFilter(notes: seq<Note>, email: string): (r: seq<Note>)
    ensures forall i :: 0 <= i < |r| ==> IsVisibleRoot(r[i], email)
    ensures forall n :: multiset(r)[n] == if IsVisibleRoot(n, email) then multiset(notes)[n] else 0
    decreases |notes|
  {
    if |notes| == 0 then []
    else
      var rest := RootFilter(notes[..|notes| - 1], email);
      var last := notes[|notes| - 1];
      assert notes == notes[..|notes| - 1] + [last];
      if IsVisibleRoot(last, email) then rest + [last] else rest
  }

  /** Places `x` after every element whose key is at least its own, so that
      equal keys keep their input order. */
  function InsertDesc(x: Note, t: seq<Note>): (r: seq<Note>)
    ensures multiset(r) == multiset(t) + multiset{x}
    decreases |t|
  {
    if |t| == 0 then [x]
    else if SortKey(t[0]) >= SortKey(x) then
      assert t == [t[0]] + t[1..];
      [t[0]] + InsertDesc(x, t[1..])
    else [x] + t
  }

  /** Inserting into a descending sequence keeps it descending; the first
      element is `x` unless the old first element's key is at least `x`'s. */
  lemma {:induction false} InsertDescSorted(x: Note, t: seq<Note>)
    requires SortedDesc(t)
    ensures SortedDesc(InsertDesc(x, t))
    ensures InsertDesc(x, t)[0] == if |t| > 0 && SortKey(t[0]) >= SortKey(x) then t[0] else x
    decreases |t|
  {
    if |t| > 0 && SortKey(t[0]) >= SortKey(x) {
      InsertDescSorted(x, t[1..]);
      ConsSorted(t[0], InsertDesc(x, t[1..]));
    } else {
      ConsSorted(x, t);
    }
  }

  /** A key no smaller than the head's, put in front of a descending
      sequence, keeps it descending. */
  lemma ConsSorted(a: Note, t: seq<Note>)
    requires SortedDesc(t)
    requires |t| > 0 ==> SortKey(a) >= SortKey(t[0])
    ensures SortedDesc([a] + t)
  {
    var r := [a] + t;
    forall i, j | 0 <= i < j < |r| ensures SortKey(r[i]) >= SortKey(r[j]) {
      if i == 0 {
        assert r[j] == t[j - 1];
      } else {
        assert r[i] == t[i - 1] && r[j] == t[j - 1];
      }
    }
  }

  /** The `sorted` step, as a stable insertion sort on descending keys. */
  function SortDesc(s: seq<Note>): (r: seq<Note>)
    ensures SortedDesc(r)
    ensures multiset(r) == multiset(s)
    decreases |s|
  {
    if |s| == 0 then []
    else
      assert s == s[..|s| - 1] + [s[|s| - 1]];
      InsertDescSorted(s[|s| - 1], SortDesc(s[..|s| - 1]));
      InsertDesc(s[|s| - 1], SortDesc(s[..|s| - 1]))
  }

  /** `getRootNotes(notes:email:)` */
  function GetRootNotes(notes: seq<Note>, email: string): seq<Note> {
    SortDesc(RootFilter(notes, email))
  }

  /** The result holds exactly the visible root notes of `email`, each as
      often as in the input, ordered by descending numeric `sortValue`. */
  lemma GetRootNotesSpec(notes: seq<Note>, email: string)
    ensures var r := GetRootNotes(notes, email);
      && SortedDesc(r)
      && (forall n :: n in r ==> IsVisibleRoot(n, email) && n in notes)
      && (forall n :: n in notes && IsVisibleRoot(n, email) ==> n in r)
      && multiset(r) == multiset(RootFilter(notes, email))
  {
    var f := RootFilter(notes, email);
    var r := GetRootNotes(notes, email);
    forall n | n in r ensures IsVisibleRoot(n, email) && n in notes {
      assert n in multiset(r);
      assert n in multiset(f);
    }
    forall n | n in notes && IsVisibleRoot(n, email) ensures n in r {
      assert n in multiset(notes);
      assert n in multiset(f);
      assert n in multiset(r);
    }
  }

  /** A note whose `sortValue` is not a decimal integer sorts as 0. */
  lemma NonNumericSortsAsZero(n: Note)
    requires ParseSigned(n.sortValue).None?
    ensures SortKey(n) == 0
  {
  }

  lemma {:induction false} FilterKeepsVisible(notes: seq<Note>, email: string)
    requires forall i :: 0 <= i < |notes| ==> IsVisibleRoot(notes[i], email)
    ensures RootFilter(notes, email) == notes
    decreases |notes|
  {
    if |notes| > 0 {
      FilterKeepsVisible(notes[..|notes| - 1], email);
      assert notes == notes[..|notes| - 1] + [notes[|notes| - 1]];
    }
  }

  lemma {:induction false} InsertAtEnd(x: Note, t: seq<Note>)
    requires SortedDesc(t)
    requires forall i :: 0 <= i < |t| ==> SortKey(t[i]) >= SortKey(x)
    ensures InsertDesc(x, t) == t + [x]
    decreases |t|
  {
    if |t| > 0 {
      InsertAtEnd(x, t[1..]);
      assert t == [t[0]] + t[1..];
    }
  }

  lemma {:induction false} SortSortedIsIdentity(s: seq<Note>)
    requires SortedDesc(s)
    ensures SortDesc(s) == s
    decreases |s|
  {
    if |s| > 0 {
      var init, last := s[..|s| - 1], s[|s| - 1];
      assert s == init + [last];
      assert SortedDesc(init) by {
        forall i, j | 0 <= i < j < |init| ensures SortKey(init[i]) >= SortKey(init[j]) {
          assert init[i] == s[i] && init[j] == s[j];
        }
      }
      forall i | 0 <= i < |init| ensures SortKey(init[i]) >= SortKey(last) {
        assert init[i] == s[i];
      }
      SortSortedIsIdentity(init);
      InsertAtEnd(last, init);
    }
  }

  /** Selecting root notes from an earlier selection for the same account
      changes nothing. */
  lemma GetRootNotesIdempotent(notes: seq<Note>, email: string)
    ensures GetRootNotes(GetRootNotes(notes, email), email) == GetRootNotes(notes, email)
  {
    var r := GetRootNotes(notes, email);
    GetRootNotesSpec(notes, email);
    FilterKeepsVisible(r, email);
    SortSortedIsIdentity(r);
  }
}
