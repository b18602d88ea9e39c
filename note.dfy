/** The locally stored Keep note and its dictionary codec (Model/Note.swift):
    `Decode` reads a flat dictionary, `Parse` first flattens the nested
    `timestamps.trashed` and `previewData.checkedCheckboxesCount` of an API
    node, and `Encode` writes the flat dictionary back. */
module Notes {
  import opened Common
  import opened Json

  /** A note; constructing it with no arguments gives the all-defaults note of
      the Swift initialiser. (`type` is a Dafny keyword, hence `noteType`.) */
  datatype Note = Note(
    email: string := "",
    id: string := "",
    serverId: string := "",
    kind: string := "",
    parentId: string := "",
    noteType: string := "",
    trashed: string := "",
    title: string := "",
    text: string := "",
    isArchived: bool := false,
    color: string := "",
    sortValue: string := "",
    checked: bool := false,
    indexableText: string := "",
    checkedCheckboxesCount: string := "")

  /** The 15 stored fields. */
  datatype Field =
    | EmailField | IdField | ServerIdField | KindField | ParentIdField | TypeField | TrashedField
    | TitleField | TextField | IsArchivedField | ColorField | SortValueField | CheckedField
    | IndexableTextField | CheckedCountField

  /** The dictionary key of each field. */
  function Key(f: Field): string {
    match f
    case EmailField => "email"
    case IdField => "id"
    case ServerIdField => "serverId"
    case KindField => "kind"
    case ParentIdField => "parentId"
    case TypeField => "type"
    case TrashedField => "trashed"
    case TitleField => "title"
    case TextField => "text"
    case IsArchivedField => "isArchived"
    case ColorField => "color"
    case SortValueField => "sortValue"
    case CheckedField => "checked"
    case IndexableTextField => "indexableText"
    case CheckedCountField => "checkedCheckboxesCount"
  }

  /** Every field. */
  const AllFields: set<Field> := {
    EmailField, IdField, ServerIdField, KindField, ParentIdField, TypeField, TrashedField,
    TitleField, TextField, IsArchivedField, ColorField, SortValueField, CheckedField,
    IndexableTextField, CheckedCountField
  }

  /** No two fields share a key. */
  lemma KeyInjective(f: Field, g: Field)
    requires f != g
    ensures Key(f) != Key(g)
  {
  }

  lemma AllFieldsComplete(f: Field)
    ensures f in AllFields
  {
  }

  predicate IsBoolField(f: Field) {
    f == IsArchivedField || f == CheckedField
  }

  /** The dictionary value that stands for field `f` of `n`. */
  function FieldValue(n: Note, f: Field): Json {
    match f
    case EmailField => Str(n.email)
    case IdField => Str(n.id)
    case ServerIdField => Str(n.serverId)
    case KindField => Str(n.kind)
    case ParentIdField => Str(n.parentId)
    case TypeField => Str(n.noteType)
    case TrashedField => Str(n.trashed)
    case TitleField => Str(n.title)
    case TextField => Str(n.text)
    case IsArchivedField => Bool(n.isArchived)
    case ColorField => Str(n.color)
    case SortValueField => Str(n.sortValue)
    case CheckedField => Bool(n.checked)
    case IndexableTextField => Str(n.indexableText)
    case CheckedCountField => Str(n.checkedCheckboxesCount)
  }

  /** What `Decode` makes of the entry of field `f`: the value when it has the
      field's type, and otherwise `""` or `false`. */
  function DecodedValue(dict: map<string, Json>, f: Field): Json {
    if IsBoolField(f) then Bool(BoolAt(dict, Key(f)).GetOr(false))
    else Str(StringAt(dict, Key(f)).GetOr(""))
  }

  /** `Note.decode(dict:)`: each field takes the entry under its key when that
      entry has the field's type, and its default otherwise. */
  function Decode(dict: map<string, Json>): Note {
    Note(
      email := StringAt(dict, Key(EmailField)).GetOr(""),
      id := StringAt(dict, Key(IdField)).GetOr(""),
      serverId := StringAt(dict, Key(ServerIdField)).GetOr(""),
      kind := StringAt(dict, Key(KindField)).GetOr(""),
      parentId := StringAt(dict, Key(ParentIdField)).GetOr(""),
      noteType := StringAt(dict, Key(TypeField)).GetOr(""),
      trashed := StringAt(dict, Key(TrashedField)).GetOr(""),
      title := StringAt(dict, Key(TitleField)).GetOr(""),
      text := StringAt(dict, Key(TextField)).GetOr(""),
      isArchived := BoolAt(dict, Key(IsArchivedField)).GetOr(false),
      color := StringAt(dict, Key(ColorField)).GetOr(""),
      sortValue := StringAt(dict, Key(SortValueField)).GetOr(""),
      checked := BoolAt(dict, Key(CheckedField)).GetOr(false),
      indexableText := StringAt(dict, Key(IndexableTextField)).GetOr(""),
      checkedCheckboxesCount := StringAt(dict, Key(CheckedCountField)).GetOr(""))
  }

  /** `note.encode()`: the key of every field, mapped to that field's value. */
  function Encode(n: Note): map<string, Json> {
    forall f, g | Key(f) == Key(g) ensures f == g {
      if f != g { KeyInjective(f, g); }
    }
    map f | f in AllFields :: Key(f) := FieldValue(n, f)
  }

  /** The encoded dictionary holds each field's value under the field's key. */
  lemma EncodeField(n: Note, f: Field)
    ensures Key(f) in Encode(n) && Encode(n)[Key(f)] == FieldValue(n, f)
  {
    AllFieldsComplete(f);
    forall g | Key(g) == Key(f) ensures g == f {
      if f != g { KeyInjective(f, g); }
    }
  }

  /** Each field of a decoded note is what `DecodedValue` reads for it. */
  lemma DecodeField(dict: map<string, Json>, f: Field)
    ensures FieldValue(Decode(dict), f) == DecodedValue(dict, f)
  {
    match f
    case EmailField =>
    case IdField =>
    case ServerIdField =>
    case KindField =>
    case ParentIdField =>
    case TypeField =>
    case TrashedField =>
    case TitleField =>
    case TextField =>
    case IsArchivedField =>
    case ColorField =>
    case SortValueField =>
    case CheckedField =>
    case IndexableTextField =>
    case CheckedCountField =>
  }

  /** A note is determined by its 15 field values. */
  lemma FieldsDetermine(a: Note, b: Note)
    requires forall f :: FieldValue(a, f) == FieldValue(b, f)
    ensures a == b
  {
    assert a.email == b.email by { assert FieldValue(a, EmailField) == FieldValue(b, EmailField); }
    assert a.id == b.id by { assert FieldValue(a, IdField) == FieldValue(b, IdField); }
    assert a.serverId == b.serverId by { assert FieldValue(a, ServerIdField) == FieldValue(b, ServerIdField); }
    assert a.kind == b.kind by { assert FieldValue(a, KindField) == FieldValue(b, KindField); }
    assert a.parentId == b.parentId by { assert FieldValue(a, ParentIdField) == FieldValue(b, ParentIdField); }
    assert a.noteType == b.noteType by { assert FieldValue(a, TypeField) == FieldValue(b, TypeField); }
    assert a.trashed == b.trashed by { assert FieldValue(a, TrashedField) == FieldValue(b, TrashedField); }
    assert a.title == b.title by { assert FieldValue(a, TitleField) == FieldValue(b, TitleField); }
    assert a.text == b.text by { assert FieldValue(a, TextField) == FieldValue(b, TextField); }
    assert a.isArchived == b.isArchived by { assert FieldValue(a, IsArchivedField) == FieldValue(b, IsArchivedField); }
    assert a.color == b.color by { assert FieldValue(a, ColorField) == FieldValue(b, ColorField); }
    assert a.sortValue == b.sortValue by { assert FieldValue(a, SortValueField) == FieldValue(b, SortValueField); }
    assert a.checked == b.checked by { assert FieldValue(a, CheckedField) == FieldValue(b, CheckedField); }
    assert a.indexableText == b.indexableText by { assert FieldValue(a, IndexableTextField) == FieldValue(b, IndexableTextField); }
    assert a.checkedCheckboxesCount == b.checkedCheckboxesCount by { assert FieldValue(a, CheckedCountField) == FieldValue(b, CheckedCountField); }
  }

  /** The dictionary keys of the 15 fields. */
  const FieldKeys: set<string> := set f | f in AllFields :: Key(f)

  /** The encoded dictionary has exactly the 15 field keys. */
  lemma EncodeKeys(n: Note)
    ensures Encode(n).Keys == FieldKeys
  {
  }

  /** A field's value has the field's type. */
  lemma FieldTyped(n: Note, f: Field)
    ensures IsBoolField(f) ==> FieldValue(n, f).Bool?
    ensures !IsBoolField(f) ==> FieldValue(n, f).Str?
  {
  }

  /** Decoding an entry that holds a field's value gives that value. */
  lemma DecodeStored(dict: map<string, Json>, n: Note, f: Field)
    requires Key(f) in dict && dict[Key(f)] == FieldValue(n, f)
    ensures DecodedValue(dict, f) == FieldValue(n, f)
  {
    FieldTyped(n, f);
  }

  /** Encoding a note and decoding the dictionary gives the note back. */
  lemma DecodeEncode(n: Note)
    ensures Decode(Encode(n)) == n
  {
    var d := Decode(Encode(n));
    forall f ensures FieldValue(d, f) == FieldValue(n, f) {
      DecodeField(Encode(n), f);
      EncodeField(n, f);
      DecodeStored(Encode(n), n, f);
    }
    FieldsDetermine(d, n);
  }

  /** `timestamps.trashed`, or `""`. */
  function NestedTrashed(dict: map<string, Json>): string {
    StringAt(ObjectAt(dict, "timestamps").GetOr(map[]), "trashed").GetOr("")
  }

  /** `previewData.checkedCheckboxesCount`, or `""`. */
  function NestedCheckedCount(dict: map<string, Json>): string {
    StringAt(ObjectAt(dict, "previewData").GetOr(map[]), "checkedCheckboxesCount").GetOr("")
  }

  /** `Note.parse(dict:email:)`: overwrite `email`, `trashed` and
      `checkedCheckboxesCount` in a copy of the node, then decode it. The
      Swift function is declared `throws` but has no path that throws. */
  function Parse(dict: map<string, Json>, email: string): (n: Note)
    ensures n.email == email
    ensures n.trashed == NestedTrashed(dict)
    ensures n.checkedCheckboxesCount == NestedCheckedCount(dict)
  {
    var flat := dict["email" := Str(email)]
                    ["trashed" := Str(NestedTrashed(dict))]
                    ["checkedCheckboxesCount" := Str(NestedCheckedCount(dict))];
    DecodeField(flat, EmailField);
    DecodeField(flat, TrashedField);
    DecodeField(flat, CheckedCountField);
    Decode(flat)
  }

  /** The three fields `Parse` fills from the nested entries and the
      argument. */
  predicate IsOverridden(f: Field) {
    f == EmailField || f == TrashedField || f == CheckedCountField
  }

  /** Apart from the three overridden fields, parsing a node decodes it as it
      is; in particular a top-level `trashed` or `checkedCheckboxesCount`
      entry and any `email` entry are ignored. */
  lemma ParseIsDecodeWithOverrides(dict: map<string, Json>, email: string)
    ensures forall f :: !IsOverridden(f) ==> FieldValue(Parse(dict, email), f) == DecodedValue(dict, f)
  {
    var a, b, c := Str(email), Str(NestedTrashed(dict)), Str(NestedCheckedCount(dict));
    var flat := dict["email" := a]["trashed" := b]["checkedCheckboxesCount" := c];
    assert Parse(dict, email) == Decode(flat);
    forall f | !IsOverridden(f) ensures FieldValue(Parse(dict, email), f) == DecodedValue(dict, f) {
      DecodeField(flat, f);
      UnflattenedKey(f);
      LookupPast(dict, Key(f), a, b, c);
    }
  }

  /** The keys other than the three overridden ones differ from them. */
  lemma UnflattenedKey(f: Field)
    requires !IsOverridden(f)
    ensures Key(f) != "email" && Key(f) != "trashed" && Key(f) != "checkedCheckboxesCount"
  {
  }

  /** Reading a key the three overrides do not touch. */
  lemma LookupPast(dict: map<string, Json>, k: string, a: Json, b: Json, c: Json)
    requires k != "email" && k != "trashed" && k != "checkedCheckboxesCount"
    ensures var flat := dict["email" := a]["trashed" := b]["checkedCheckboxesCount" := c];
      StringAt(flat, k) == StringAt(dict, k) && BoolAt(flat, k) == BoolAt(dict, k)
  {
  }
}
