/** Building the widget's entities from the stored notes
    (NoteWidgets/NoteActor.swift): a root note that carries its checkbox
    count is read from its own `indexableText`, any other root note from its
    child notes; the entities of every account are collected in turn. */
module NoteActor {
  import opened Common
  import opened Notes
  import opened NoteService
  import opened NoteEntities

  /** `max(0, Int(checkedCheckboxesCount) ?? 0)` */
  function CheckedCount(n: Note): nat {
    var k := ParseInt(n.checkedCheckboxesCount).GetOr(0);
    if k < 0 then 0 else k
  }

  /** The lines of a checklist's `indexableText`, one item each. */
  function Items(n: Note): seq<string> {
    Components(n.indexableText, '\n')
  }

  /** `items.prefix(items.count - checkedCount)` traps on a negative count,
      so a checklist cannot claim more checked items than it has lines. */
  predicate CanBuildItself(root: Note) {
    root.noteType == "LIST" ==> CheckedCount(root) <= |Items(root)|
  }

  /** The fields an entity always copies from its note. */
  predicate CopiesFields(e: NoteEntity, n: Note) {
    e.id == n.id && e.email == n.email && e.color == n.color && e.title == n.title
    && e.noteType == n.noteType && e.serverId == n.serverId
  }

  /** `buildEntityItself(rootNote:)`: a checklist's last `k` lines are its
      checked items and the lines before them its unchecked ones, where `k`
      is the clamped checkbox count; any other note shows its
      `indexableText`. */
  function BuildEntityItself(root: Note): (e: NoteEntity)
    requires CanBuildItself(root)
    ensures CopiesFields(e, root)
    ensures root.noteType == "LIST" ==>
      && e.text == ""
      && e.uncheckedItems + e.checkedItems == Items(root)
      && |e.checkedItems| == CheckedCount(root)
    ensures root.noteType != "LIST" ==>
      e.text == root.indexableText && e.uncheckedItems == [] && e.checkedItems == []
  {
    if root.noteType == "LIST" then
      var items := Items(root);
      var k := CheckedCount(root);
      assert items[..|items| - k] + items[|items| - k..] == items;
      NoteEntity(root.id, root.email, root.color, root.title,
                 uncheckedItems := items[..|items| - k], checkedItems := items[|items| - k..],
                 noteType := root.noteType, serverId := root.serverId)
    else
      NoteEntity(root.id, root.email, root.color, root.title, text := root.indexableText,
                 noteType := root.noteType, serverId := root.serverId)
  }

  /** A checklist whose count is missing, not a number or negative has no
      checked items. */
  lemma UncountedListIsUnchecked(root: Note)
    requires root.noteType == "LIST"
    requires ParseInt(root.checkedCheckboxesCount).None? || ParseInt(root.checkedCheckboxesCount).value <= 0
    ensures BuildEntityItself(root).checkedItems == []
    ensures BuildEntityItself(root).uncheckedItems == Items(root)
  {
  }

  // ---------------------------------------------------------------------
  // Entities built from child notes

  predicate IsChildWith(n: Note, parent: string, checked: bool) {
    n.parentId == parent && n.checked == checked
  }

  /** The texts of the children of `parent` whose `checked` flag is
      `checked`, in store order. */
  function ChildTexts(notes: seq<Note>, parent: string, checked: bool): seq<string>
    decreases |notes|
  {
    if |notes| == 0 then []
    else
      var last := notes[|notes| - 1];
      ChildTexts(notes[..|notes| - 1], parent, checked)
        + (if IsChildWith(last, parent, checked) then [last.text] else [])
  }

  /** Every child of `parent`, in store order. */
  function Children(notes: seq<Note>, parent: string): (r: seq<Note>)
    ensures forall i :: 0 <= i < |r| ==> r[i].parentId == parent
    decreases |notes|
  {
    if |notes| == 0 then []
    else
      var last := notes[|notes| - 1];
      Children(notes[..|notes| - 1], parent) + (if last.parentId == parent then [last] else [])
  }

  function Texts(notes: seq<Note>): (r: seq<string>)
    ensures |r| == |notes| && forall i :: 0 <= i < |notes| ==> r[i] == notes[i].text
  {
    seq(|notes|, i requires 0 <= i < |notes| => notes[i].text)
  }

  /** The checked and the unchecked children's texts together are all the
      children's texts: none is lost or counted twice. */
  lemma {:induction false} ChildTextsPartition(notes: seq<Note>, parent: string)
    ensures multiset(ChildTexts(notes, parent, true)) + multiset(ChildTexts(notes, parent, false))
            == multiset(Texts(Children(notes, parent)))
    decreases |notes|
  {
    if |notes| > 0 {
      var init, last := notes[..|notes| - 1], notes[|notes| - 1];
      ChildTextsPartition(init, parent);
      if last.parentId == parent {
        assert Texts(Children(notes, parent)) == Texts(Children(init, parent)) + [last.text];
      } else {
        assert Texts(Children(notes, parent)) == Texts(Children(init, parent));
      }
    }
  }

  /** Each part keeps the store order: the children found in a later stretch
      of the store come after those of an earlier one. */
  lemma {:induction false} ChildTextsAppend(a: seq<Note>, b: seq<Note>, parent: string, checked: bool)
    ensures ChildTexts(a + b, parent, checked) == ChildTexts(a, parent, checked) + ChildTexts(b, parent, checked)
    decreases |b|
  {
    if |b| == 0 {
      assert a + b == a;
    } else {
      var init := b[..|b| - 1];
      assert (a + b)[..|a + b| - 1] == a + init;
      ChildTextsAppend(a, init, parent, checked);
    }
  }

  /** The entity `buildEntityWithChildren(note:notes:)` returns. */
  function ChildrenEntity(note: Note, notes: seq<Note>): (e: NoteEntity)
    ensures CopiesFields(e, note)
  {
    var unchecked := ChildTexts(notes, note.id, false);
    if note.noteType == "LIST" then
      NoteEntity(note.id, note.email, note.color, note.title,
                 uncheckedItems := unchecked, checkedItems := ChildTexts(notes, note.id, true),
                 noteType := note.noteType, serverId := note.serverId)
    else
      NoteEntity(note.id, note.email, note.color, note.title, text := Join(unchecked, "\n"),
                 noteType := note.noteType, serverId := note.serverId)
  }

  /** `buildEntityWithChildren(note:notes:)`: one pass over the store sorts
      the texts of the note's children into unchecked and checked items; a
      checklist keeps both lists, any other note shows the unchecked texts
      one per line and drops the checked ones. */
  method BuildEntityWithChildren(note: Note, notes: seq<Note>) returns (e: NoteEntity)
    ensures e == ChildrenEntity(note, notes)
    ensures CopiesFields(e, note)
    ensures note.noteType == "LIST" ==>
      && e.text == ""
      && e.uncheckedItems == ChildTexts(notes, note.id, false)
      && e.checkedItems == ChildTexts(notes, note.id, true)
    ensures note.noteType != "LIST" ==>
      e.text == Join(ChildTexts(notes, note.id, false), "\n") && e.uncheckedItems == [] && e.checkedItems == []
  {
    var uncheckedItems: seq<string> := [];
    var checkedItems: seq<string> := [];
    var i := 0;
    while i < |notes|
      invariant 0 <= i <= |notes|
      invariant uncheckedItems == ChildTexts(notes[..i], note.id, false)
      invariant checkedItems == ChildTexts(notes[..i], note.id, true)
    {
      var n := notes[i];
      assert notes[..i + 1][..i] == notes[..i];
      if n.parentId == note.id {
        if n.checked {
          checkedItems := checkedItems + [n.text];
        } else {
          uncheckedItems := uncheckedItems + [n.text];
        }
      }
      i := i + 1;
    }
    assert notes[..i] == notes;
    if note.noteType == "LIST" {
      return NoteEntity(note.id, note.email, note.color, note.title,
                        uncheckedItems := uncheckedItems, checkedItems := checkedItems,
                        noteType := note.noteType, serverId := note.serverId);
    }
    return NoteEntity(note.id, note.email, note.color, note.title, text := Join(uncheckedItems, "\n"),
                      noteType := note.noteType, serverId := note.serverId);
  }

  // ---------------------------------------------------------------------
  // All entities

  /** The visible root notes that carry a checkbox count, the only notes
      `fetchNotes()` builds from themselves, can be built so. */
  predicate Buildable(notes: seq<Note>) {
    forall n :: n in notes && IsVisibleRoot(n, n.email) && n.checkedCheckboxesCount != "" ==> CanBuildItself(n)
  }

  /** A store is buildable exactly when no account's root note that
      `fetchNotes()` builds from itself would trap. */
  lemma BuildableExactly(notes: seq<Note>)
    ensures Buildable(notes) <==>
      forall email, i :: 0 <= i < |GetRootNotes(notes, email)| ==>
        (GetRootNotes(notes, email)[i].checkedCheckboxesCount != "" ==> CanBuildItself(GetRootNotes(notes, email)[i]))
  {
    if Buildable(notes) {
      forall email | true {
        RootsBuildable(notes, email);
      }
    } else {
      var n :| n in notes && IsVisibleRoot(n, n.email) && n.checkedCheckboxesCount != "" && !CanBuildItself(n);
      var roots := GetRootNotes(notes, n.email);
      GetRootNotesSpec(notes, n.email);
      var i :| 0 <= i < |roots| && roots[i] == n;
    }
  }

  /** The entity of one root note: from itself when it carries a checkbox
      count, and from its children otherwise. */
  function EntityOf(root: Note, notes: seq<Note>): (e: NoteEntity)
    requires root.checkedCheckboxesCount != "" ==> CanBuildItself(root)
    ensures CopiesFields(e, root)
  {
    if root.checkedCheckboxesCount != "" then BuildEntityItself(root) else ChildrenEntity(root, notes)
  }

  /** The root notes of a buildable store can be built. */
  lemma RootsBuildable(notes: seq<Note>, email: string)
    requires Buildable(notes)
    ensures forall i :: 0 <= i < |GetRootNotes(notes, email)| ==>
      var root := GetRootNotes(notes, email)[i];
      root.checkedCheckboxesCount != "" ==> CanBuildItself(root)
  {
    var roots := GetRootNotes(notes, email);
    GetRootNotesSpec(notes, email);
    forall i | 0 <= i < |roots| ensures roots[i].checkedCheckboxesCount != "" ==> CanBuildItself(roots[i]) {
      assert roots[i] in roots;
    }
  }

  /** The entities of one account: one per root note, in root-note order. */
  function EntitiesFor(notes: seq<Note>, email: string): (r: seq<NoteEntity>)
    requires Buildable(notes)
    ensures |r| == |GetRootNotes(notes, email)|
    ensures forall i :: 0 <= i < |r| ==> CopiesFields(r[i], GetRootNotes(notes, email)[i])
  {
    var roots := GetRootNotes(notes, email);
    RootsBuildable(notes, email);
    seq(|roots|, i requires 0 <= i < |roots| => EntityOf(roots[i], notes))
  }

  /** The entities of the accounts in `order`, one account after another. */
  function EntitiesInOrder(notes: seq<Note>, order: seq<string>): seq<NoteEntity>
    requires Buildable(notes)
    decreases |order|
  {
    if |order| == 0 then []
    else EntitiesInOrder(notes, order[..|order| - 1]) + EntitiesFor(notes, order[|order| - 1])
  }

  /** Every entity belongs to an account of `order` and to a visible root
      note of it. */
  lemma {:induction false} EntitiesInOrderAreRoots(notes: seq<Note>, order: seq<string>)
    requires Buildable(notes)
    ensures forall e :: e in EntitiesInOrder(notes, order) ==>
      e.email in order && exists n :: n in notes && IsVisibleRoot(n, e.email) && n.id == e.id
    decreases |order|
  {
    if |order| > 0 {
      var init, email := order[..|order| - 1], order[|order| - 1];
      EntitiesInOrderAreRoots(notes, init);
      var roots := GetRootNotes(notes, email);
      GetRootNotesSpec(notes, email);
      forall e | e in EntitiesInOrder(notes, order)
        ensures e.email in order && exists n :: n in notes && IsVisibleRoot(n, e.email) && n.id == e.id
      {
        if e in EntitiesInOrder(notes, init) {
          assert e.email in init;
        } else {
          var added := EntitiesFor(notes, email);
          assert e in added;
          var i :| 0 <= i < |added| && added[i] == e;
          assert roots[i] in roots;
        }
      }
    }
  }

  /** How the widget's local-server request can fail: a `URLError` (no
      connection, a status other than 200, a body that is not an array of
      objects) or anything else. */
  datatype FetchFailure = UrlError | OtherError(message: string)

  /** The text of the error entity. */
  const ConnectionErrorText := "Cannot connect to the Keep local server.\nPlease make sure Keep is running in the Menubar."

  /** The entity shown when the local server cannot be reached. */
  function ErrorEntity(id: string): (e: NoteEntity)
    ensures e.email == "" && e.title == "Error" && e.noteType == "TEXT"
  {
    NoteEntity(id, "", "", "Error", text := ConnectionErrorText, noteType := "TEXT", serverId := "")
  }

  /** `fetchNotes()` for the server's reply `fetched`: a `URLError` becomes
      the single error entity (with the fresh id `errorId`), any other error
      is passed on, and otherwise every email of the notes is visited once,
      in some order, and contributes the entities of its root notes. */
  method FetchNotes(fetched: Result<seq<Note>, FetchFailure>, errorId: string)
    returns (r: Result<seq<NoteEntity>, FetchFailure>, ghost order: seq<string>)
    requires fetched.Success? ==> Buildable(fetched.value)
    ensures fetched.Failure? && fetched.error == UrlError ==> r == Success([ErrorEntity(errorId)])
    ensures fetched.Failure? && fetched.error != UrlError ==> r == Failure(fetched.error)
    ensures fetched.Success? ==>
      && Distinct(order)
      && (forall e :: e in order <==> exists n :: n in fetched.value && n.email == e)
      && r == Success(EntitiesInOrder(fetched.value, order))
  {
    if fetched.Failure? {
      if fetched.error == UrlError {
        return Success([ErrorEntity(errorId)]), [];
      }
      return Failure(fetched.error), [];
    }
    var notes := fetched.value;
    var emails := EmailsIn(notes);
    var entities;
    entities, order := VisitEmails(notes, emails);
    r := Success(entities);
  }

  /** The emails the notes belong to. */
  function EmailsIn(notes: seq<Note>): (r: set<string>)
    ensures forall e :: e in r <==> exists n :: n in notes && n.email == e
  {
    set n | n in notes :: n.email
  }

  /** The loop of `fetchNotes()`: each email is visited once, in some order,
      and contributes the entities of its root notes. */
  method VisitEmails(notes: seq<Note>, emails: set<string>) returns (entities: seq<NoteEntity>, ghost order: seq<string>)
    requires Buildable(notes)
    ensures Distinct(order)
    ensures forall e :: e in order <==> e in emails
    ensures entities == EntitiesInOrder(notes, order)
  {
    var remaining := emails;
    entities := [];
    order := [];
    while remaining != {}
      invariant remaining <= emails
      invariant forall e :: e in order <==> e in emails && e !in remaining
      invariant Distinct(order)
      invariant entities == EntitiesInOrder(notes, order)
      decreases remaining
    {
      var email :| email in remaining;
      var more := CollectEntities(notes, email);
      EntitiesInOrderSnoc(notes, order, email);
      DistinctSnoc(order, email);
      entities := entities + more;
      order := order + [email];
      remaining := remaining - {email};
    }
  }

  lemma EntitiesInOrderSnoc(notes: seq<Note>, order: seq<string>, email: string)
    requires Buildable(notes)
    ensures EntitiesInOrder(notes, order + [email]) == EntitiesInOrder(notes, order) + EntitiesFor(notes, email)
  {
    assert (order + [email])[..|order|] == order;
  }

  /** The entity of one root note, built as the loop of `fetchNotes()`
      builds it. */
  method BuildEntity(root: Note, notes: seq<Note>) returns (e: NoteEntity)
    requires root.checkedCheckboxesCount != "" ==> CanBuildItself(root)
    ensures e == EntityOf(root, notes)
  {
    if root.checkedCheckboxesCount != "" {
      e := BuildEntityItself(root);
    } else {
      e := BuildEntityWithChildren(root, notes);
    }
  }

  /** The entities of one account's root notes, built one by one. */
  method CollectEntities(notes: seq<Note>, email: string) returns (r: seq<NoteEntity>)
    requires Buildable(notes)
    ensures r == EntitiesFor(notes, email)
  {
    var roots := GetRootNotes(notes, email);
    RootsBuildable(notes, email);
    ghost var all := EntitiesFor(notes, email);
    r := [];
    var j := 0;
    while j < |roots|
      invariant 0 <= j <= |roots|
      invariant r == all[..j]
    {
      var root := roots[j];
      assert all[j] == EntityOf(root, notes);
      var e := BuildEntity(root, notes);
      PrefixSnoc(all, j);
      r := r + [e];
      j := j + 1;
    }
    assert all[..j] == all;
  }
}
