/** The widget's note entity and the text it shows in the note picker
    (NoteWidgets/NoteEntity.swift): the 30-character title and the subtitle
    that summarises either a checklist or the first lines of a text. Lengths
    count characters. */
module NoteEntities {
  import opened Common

  /** A note as the widget sees it; constructing it with only `id` and
      `email` gives the Swift initialiser's defaults. (`type` is a Dafny
      keyword, hence `noteType`.) */
  datatype NoteEntity = NoteEntity(
    id: string,
    email: string,
    color: string := "",
    title: string := "",
    text: string := "",
    uncheckedItems: seq<string> := [],
    checkedItems: seq<string> := [],
    noteType: string := "",
    serverId: string := "")

  /** `truncated(to:)`: the string itself when it fits, and otherwise its
      first `length - 3` characters followed by `"..."`. Taking a prefix of
      negative length traps, so a string longer than `length` needs
      `length >= 3`. */
  function Truncated(s: string, length: int): (r: string)
    requires |s| <= length || length >= 3
    ensures |r| <= length
    ensures |s| <= length ==> r == s
    ensures |s| > length ==> |r| == length && s[..length - 3] <= r && r[length - 3..] == "..."
    ensures forall c :: c in r ==> c in s || c == '.'
  {
    if |s| <= length then s else s[..length - 3] + "..."
  }

  /** Truncating twice to the same length truncates once. */
  lemma TruncatedIdempotent(s: string, length: int)
    requires |s| <= length || length >= 3
    ensures Truncated(Truncated(s, length), length) == Truncated(s, length)
  {
  }

  const TitleLength := 30
  const Untitled := "Untitled"

  /** `buildTitle()`: the title, or `"Untitled"` when it is empty, cut to
      30 characters. */
  function BuildTitle(e: NoteEntity): (r: string)
    ensures |r| <= TitleLength
    ensures e.title == "" ==> r == Untitled
    ensures 0 < |e.title| <= TitleLength ==> r == e.title
    ensures |e.title| > TitleLength ==> |r| == TitleLength && e.title[..TitleLength - 3] <= r
  {
    Truncated(if e.title == "" then Untitled else e.title, TitleLength)
  }

  // ---------------------------------------------------------------------
  // Subtitle

  /** The marker in front of the first unchecked item, exactly as the
      source file spells it: U+00E2 U+2013 U+00A1 and a space (the UTF-8
      bytes of a white square read as Windows-1252). */
  const ListMarker := "\U{00E2}\U{2013}\U{00A1} "

  function ItemWord(n: nat): string {
    if n == 1 then "item" else "items"
  }

  function LineWord(n: nat): string {
    if n == 1 then "line" else "lines"
  }

  /** `"+ n unchecked item(s)"` */
  function UncheckedPhrase(n: nat): string {
    "+ " + NatToString(n) + " unchecked " + ItemWord(n)
  }

  /** `"+ n checked item(s)"` */
  function CheckedPhrase(n: nat): string {
    "+ " + NatToString(n) + " checked " + ItemWord(n)
  }

  /** `"+ n line(s)"` */
  function LinesPhrase(n: nat): string {
    "+ " + NatToString(n) + " " + LineWord(n)
  }

  /** The lines of a checklist's subtitle: the first unchecked item behind
      the marker, then how many more unchecked items there are, then how
      many checked ones, each line only when its count is not zero. */
  function ListParts(e: NoteEntity): (r: seq<string>)
    ensures |r| == (if |e.uncheckedItems| > 0 then 1 else 0) + (if |e.uncheckedItems| > 1 then 1 else 0)
                   + (if |e.checkedItems| > 0 then 1 else 0)
  {
    var u, c := e.uncheckedItems, e.checkedItems;
    (if |u| > 0 then [ListMarker + Truncated(u[0], TitleLength)]
                     + (if |u| > 1 then [UncheckedPhrase(|u| - 1)] else [])
     else [])
    + (if |c| > 0 then [CheckedPhrase(|c|)] else [])
  }

  function TruncateAll(lines: seq<string>): (r: seq<string>)
    ensures |r| == |lines|
    ensures forall i :: 0 <= i < |lines| ==> r[i] == Truncated(lines[i], TitleLength)
  {
    seq(|lines|, i requires 0 <= i < |lines| => Truncated(lines[i], TitleLength))
  }

  /** A text's subtitle: up to two lines, each cut to 30 characters, then
      how many lines are left out. */
  function TextSubtitle(text: string): string {
    var lines := Components(text, '\n');
    if |lines| <= 2 then Join(TruncateAll(lines), "\n")
    else Join(TruncateAll(lines[..2]), "\n") + "\n" + LinesPhrase(|lines| - 2)
  }

  /** What `buildSubtitle()` returns. */
  function Subtitle(e: NoteEntity): string {
    if e.email == "" then ""
    else if |e.uncheckedItems| > 0 || |e.checkedItems| > 0 then Join(ListParts(e), "\n")
    else TextSubtitle(e.text)
  }

  /** `buildSubtitle()`, which collects a checklist's lines by appending;
      an entity without an email has an empty subtitle. */
  method BuildSubtitle(e: NoteEntity) returns (subtitle: string)
    ensures subtitle == Subtitle(e)
    ensures e.email == "" ==> subtitle == ""
  {
    if e.email == "" {
      return "";
    }
    var u, c := e.uncheckedItems, e.checkedItems;
    if |u| > 0 || |c| > 0 {
      var parts: seq<string> := [];
      if |u| > 0 {
        parts := parts + [ListMarker + Truncated(u[0], TitleLength)];
        if |u| > 1 {
          parts := parts + [UncheckedPhrase(|u| - 1)];
        }
      }
      if |c| > 0 {
        parts := parts + [CheckedPhrase(|c|)];
      }
      assert parts == ListParts(e);
      subtitle := Join(parts, "\n");
    } else {
      subtitle := TextSubtitle(e.text);
    }
  }

  lemma NoNewlineInNumber(n: nat)
    ensures '\n' !in NatToString(n)
  {
    NatToStringDigits(n);
  }

  /** The count a summary line states: its second space-separated word,
      read as a number. */
  function CountOf(line: string): Option<nat> {
    var words := Components(line, ' ');
    if |words| >= 2 then ParseNat(words[1]) else None
  }

  /** The last space-separated word of a line. */
  function LastWord(line: string): string {
    var words := Components(line, ' ');
    words[|words| - 1]
  }

  lemma NoSpaceInNumber(n: nat)
    ensures ' ' !in NatToString(n)
  {
    NatToStringDigits(n);
  }

  lemma CountLine(n: nat, rest: string)
    ensures CountOf("+ " + NatToString(n) + " " + rest) == Some(n)
  {
    var num := NatToString(n);
    NoSpaceInNumber(n);
    assert "+ " + num + " " + rest == "+" + [' '] + (num + [' '] + rest);
    ComponentsAppend("+", ' ', num + [' '] + rest);
    ComponentsAppend(num, ' ', rest);
    ComponentsWithout("+", ' ');
    ComponentsWithout(num, ' ');
    NatRoundTrip(n);
  }

  lemma LastWordAfterSpace(head: string, word: string)
    requires ' ' !in word
    ensures LastWord(head + " " + word) == word
  {
    ComponentsAppend(head, ' ', word);
    ComponentsWithout(word, ' ');
  }

  /** Each count line reads back as the count it was built from, and its
      noun is singular exactly when that count is one. */
  lemma PhrasesReadBack(n: nat)
    ensures CountOf(UncheckedPhrase(n)) == Some(n) && CountOf(CheckedPhrase(n)) == Some(n)
    ensures CountOf(LinesPhrase(n)) == Some(n)
    ensures LastWord(UncheckedPhrase(n)) == "item" <==> n == 1
    ensures LastWord(CheckedPhrase(n)) == "item" <==> n == 1
    ensures LastWord(LinesPhrase(n)) == "line" <==> n == 1
  {
    var num := NatToString(n);
    assert UncheckedPhrase(n) == "+ " + num + " " + ("unchecked " + ItemWord(n));
    assert CheckedPhrase(n) == "+ " + num + " " + ("checked " + ItemWord(n));
    CountLine(n, "unchecked " + ItemWord(n));
    CountLine(n, "checked " + ItemWord(n));
    CountLine(n, LineWord(n));
    assert UncheckedPhrase(n) == ("+ " + num + " unchecked") + " " + ItemWord(n);
    assert CheckedPhrase(n) == ("+ " + num + " checked") + " " + ItemWord(n);
    LastWordAfterSpace("+ " + num + " unchecked", ItemWord(n));
    LastWordAfterSpace("+ " + num + " checked", ItemWord(n));
    LastWordAfterSpace("+ " + num, LineWord(n));
  }

  /** No count line contains a line break. */
  lemma PhrasesAreLines(n: nat)
    ensures '\n' !in UncheckedPhrase(n) && '\n' !in CheckedPhrase(n) && '\n' !in LinesPhrase(n)
  {
    NoNewlineInNumber(n);
  }

  /** Cutting lines to 30 characters keeps them free of line breaks. */
  lemma CutLines(lines: seq<string>)
    requires forall i :: 0 <= i < |lines| ==> '\n' !in lines[i]
    ensures forall i :: 0 <= i < |lines| ==> '\n' !in TruncateAll(lines)[i]
  {
    forall i | 0 <= i < |lines| ensures '\n' !in TruncateAll(lines)[i] {
      assert TruncateAll(lines)[i] == Truncated(lines[i], TitleLength);
    }
  }

  /** Read line by line, a checklist's subtitle is its parts: the first
      item's line, then the counts. */
  lemma ListSubtitleLines(e: NoteEntity)
    requires e.email != "" && (|e.uncheckedItems| > 0 || |e.checkedItems| > 0)
    requires |e.uncheckedItems| > 0 ==> '\n' !in e.uncheckedItems[0]
    ensures Components(Subtitle(e), '\n') == ListParts(e)
  {
    var u, c := e.uncheckedItems, e.checkedItems;
    if |u| > 1 {
      PhrasesAreLines(|u| - 1);
    }
    PhrasesAreLines(|c|);
    var parts := ListParts(e);
    forall i | 0 <= i < |parts| ensures '\n' !in parts[i] {
    }
    JoinComponents(parts, '\n');
  }

  /** Read line by line, a text's subtitle is its first two lines cut to
      30 characters, followed, when there are more than two, by a line
      counting the rest. */
  lemma TextSubtitleLines(text: string)
    ensures var lines := Components(text, '\n');
      Components(TextSubtitle(text), '\n') ==
        if |lines| <= 2 then TruncateAll(lines)
        else TruncateAll(lines[..2]) + [LinesPhrase(|lines| - 2)]
  {
    var lines := Components(text, '\n');
    ComponentsJoin(text, '\n');
    if |lines| <= 2 {
      CutLines(lines);
      JoinComponents(TruncateAll(lines), '\n');
    } else {
      LongTextLines(lines[..2], |lines| - 2);
    }
  }

  lemma LongTextLines(shown: seq<string>, more: nat)
    requires |shown| == 2
    requires forall i :: 0 <= i < |shown| ==> '\n' !in shown[i]
    ensures Components(Join(TruncateAll(shown), "\n") + "\n" + LinesPhrase(more), '\n')
      == TruncateAll(shown) + [LinesPhrase(more)]
  {
    var cut := TruncateAll(shown);
    CutLines(shown);
    PhrasesAreLines(more);
    JoinSnoc(cut, LinesPhrase(more), "\n");
    JoinComponents(cut + [LinesPhrase(more)], '\n');
  }

  /** A text of at most two lines, none longer than 30 characters, is its
      own subtitle. */
  lemma ShortTextIsItsOwnSubtitle(text: string)
    requires |Components(text, '\n')| <= 2
    requires forall i :: 0 <= i < |Components(text, '\n')| ==> |Components(text, '\n')[i]| <= TitleLength
    ensures TextSubtitle(text) == text
  {
    var lines := Components(text, '\n');
    assert TruncateAll(lines) == lines;
    ComponentsJoin(text, '\n');
  }

  /** Read line by line, a checklist's subtitle states how many unchecked
      items follow the first one (its second line) and how many items are
      checked (its last line). */
  lemma ListSubtitleCounts(e: NoteEntity)
    requires e.email != "" && (|e.uncheckedItems| > 0 || |e.checkedItems| > 0)
    requires |e.uncheckedItems| > 0 ==> '\n' !in e.uncheckedItems[0]
    ensures var lines := Components(Subtitle(e), '\n');
      && (|e.uncheckedItems| > 1 ==> |lines| >= 2 && CountOf(lines[1]) == Some(|e.uncheckedItems| - 1))
      && (|e.checkedItems| > 0 ==> CountOf(lines[|lines| - 1]) == Some(|e.checkedItems|))
  {
    ListSubtitleLines(e);
    PhrasesReadBack(|e.uncheckedItems| - if |e.uncheckedItems| > 0 then 1 else 0);
    PhrasesReadBack(|e.checkedItems|);
  }

  /** A text of more than two lines has a subtitle whose third and last
      line states how many lines it leaves out. */
  lemma TextSubtitleCount(text: string)
    requires |Components(text, '\n')| > 2
    ensures var lines := Components(TextSubtitle(text), '\n');
      |lines| == 3 && CountOf(lines[2]) == Some(|Components(text, '\n')| - 2)
  {
    TextSubtitleLines(text);
    PhrasesReadBack(|Components(text, '\n')| - 2);
  }
}
