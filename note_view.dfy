/** What the widget view computes rather than draws
    (NoteWidgets/NoteView.swift): the link a tap opens, the background
    colour picked by the note's colour name and the colour scheme, and the
    decoding of a hex colour string into alpha, red, green and blue bytes.
    The division of each byte by 255 into a `Double` is not modelled. */
module NoteView {
  import opened Common
  import opened NoteEntities

  // ---------------------------------------------------------------------
  // Widget link

  const KeepHome := "https://keep.google.com"

  /** `widgetURL`: `https://keep.google.com/#<type>/<serverId>` for a note,
      the bare home page when no note is selected. */
  function WidgetUrl(entity: Option<NoteEntity>): (url: string)
    ensures KeepHome <= url
    ensures entity.None? ==> url == KeepHome
    ensures entity.Some? ==> url[|KeepHome|..] == "/#" + entity.value.noteType + "/" + entity.value.serverId
  {
    match entity
    case None => KeepHome
    case Some(e) => KeepHome + "/#" + e.noteType + "/" + e.serverId
  }

  /** The fragment of a note's link splits back into its type and its
      server id when neither contains a slash. */
  lemma WidgetUrlFragment(e: NoteEntity)
    requires '/' !in e.noteType && '/' !in e.serverId
    ensures var fragment := WidgetUrl(Some(e))[|KeepHome| + 2..];
      Components(fragment, '/') == [e.noteType, e.serverId]
  {
    var url := WidgetUrl(Some(e));
    assert url[|KeepHome| + 2..] == e.noteType + "/" + e.serverId;
    JoinComponents([e.noteType, e.serverId], '/');
  }

  // ---------------------------------------------------------------------
  // Colour names

  /** `Character.uppercased()` for ASCII letters. */
  function UpperChar(c: char): char {
    if 'a' <= c <= 'z' then (c as int - 'a' as int + 'A' as int) as char else c
  }

  function Uppercased(s: string): (r: string)
    ensures |r| == |s| && forall i :: 0 <= i < |s| ==> r[i] == UpperChar(s[i])
  {
    seq(|s|, i requires 0 <= i < |s| => UpperChar(s[i]))
  }

  /** The eleven Keep colour names and their (dark, light) hex strings. */
  const Palette: map<string, (string, string)> := map[
    "RED" := ("#77172e", "#faafa8"),
    "ORANGE" := ("#692b18", "#f39f76"),
    "YELLOW" := ("#7c4b03", "#fff8b8"),
    "GREEN" := ("#264d3b", "#e2f6d3"),
    "TEAL" := ("#0d625d", "#b4ddd2"),
    "CERULEAN" := ("#266377", "#d4e4ed"),
    "BLUE" := ("#284254", "#aeccdc"),
    "PURPLE" := ("#482e5b", "#d3bfdb"),
    "PINK" := ("#6b394f", "#f6e2dd"),
    "BROWN" := ("#4b443a", "#e9e3d4"),
    "GRAY" := ("#232427", "#efeff1")
  ]

  const DefaultDark := "#202124"
  const DefaultLight := "#ffffff"

  /** `backgroundColor(for:)`: the hex string for a colour name in either
      case, dark or light by the colour scheme; any other name gets the
      default pair. */
  function BackgroundHex(color: string, isDark: bool): (hex: string)
    ensures |hex| == 7 && hex[0] == '#' && forall i :: 1 <= i < 7 ==> IsAlphanumeric(hex[i])
    ensures Uppercased(color) !in Palette ==> hex == if isDark then DefaultDark else DefaultLight
    ensures Uppercased(color) in Palette ==>
      hex == if isDark then Palette[Uppercased(color)].0 else Palette[Uppercased(color)].1
  {
    var upper := Uppercased(color);
    if upper in Palette then
      (if isDark then Palette[upper].0 else Palette[upper].1)
    else if isDark then DefaultDark else DefaultLight
  }

  /** The background of the widget: that of the selected note's colour, or
      of `""` when no note is selected. */
  function EntityBackground(entity: Option<NoteEntity>, isDark: bool): string {
    BackgroundHex(if entity.Some? then entity.value.color else "", isDark)
  }

  /** The name lookup ignores case. */
  lemma BackgroundIgnoresCase(a: string, b: string, isDark: bool)
    requires |a| == |b|
    requires forall i :: 0 <= i < |a| ==> UpperChar(a[i]) == UpperChar(b[i])
    ensures BackgroundHex(a, isDark) == BackgroundHex(b, isDark)
  {
    assert Uppercased(a) == Uppercased(b);
  }

  // ---------------------------------------------------------------------
  // Hex decoding

  /** Letters and digits (ASCII). */
  predicate IsAlphanumeric(c: char) {
    '0' <= c <= '9' || 'a' <= c <= 'z' || 'A' <= c <= 'Z'
  }

  /** How many characters at the front are not letters or digits. */
  function LeadingTrim(s: string): (n: nat)
    ensures n <= |s|
    ensures forall i :: 0 <= i < n ==> !IsAlphanumeric(s[i])
    ensures n < |s| ==> IsAlphanumeric(s[n])
    decreases |s|
  {
    if |s| == 0 || IsAlphanumeric(s[0]) then 0 else 1 + LeadingTrim(s[1..])
  }

  /** Where the run of non-alphanumeric characters at the back starts. */
  function TrailingTrim(s: string): (n: nat)
    ensures n <= |s|
    ensures forall i :: n <= i < |s| ==> !IsAlphanumeric(s[i])
    ensures n > 0 ==> IsAlphanumeric(s[n - 1])
    decreases |s|
  {
    if |s| == 0 || IsAlphanumeric(s[|s| - 1]) then |s| else TrailingTrim(s[..|s| - 1])
  }

  /** `trimmingCharacters(in: CharacterSet.alphanumerics.inverted)`: the
      text between the first and the last letter or digit; empty when there
      is none. */
  function Trimmed(s: string): (t: string)
    ensures |t| <= |s|
    ensures |t| > 0 ==> IsAlphanumeric(t[0]) && IsAlphanumeric(t[|t| - 1])
  {
    var lo := LeadingTrim(s);
    if lo == |s| then ""
    else
      var hi := TrailingTrim(s);
      assert lo < hi by {
        assert IsAlphanumeric(s[lo]);
      }
      s[lo..hi]
  }

  predicate AllHex(s: string) {
    forall i :: 0 <= i < |s| ==> IsHexDigit(s[i])
  }

  /** The length of the run of hex digits at the front. */
  function HexRun(s: string): (n: nat)
    ensures n <= |s| && AllHex(s[..n])
    ensures n < |s| ==> !IsHexDigit(s[n])
    decreases |s|
  {
    if |s| == 0 || !IsHexDigit(s[0]) then 0
    else
      var n := 1 + HexRun(s[1..]);
      assert s[..n] == [s[0]] + s[1..][..n - 1];
      n
  }

  /** The number a run of hex digits spells, most significant first. */
  function HexNumber(s: string): nat
    requires AllHex(s)
    decreases |s|
  {
    if |s| == 0 then 0 else 16 * HexNumber(s[..|s| - 1]) + HexValue(s[|s| - 1])
  }

  function Pow16(n: nat): nat {
    if n == 0 then 1 else 16 * Pow16(n - 1)
  }

  lemma {:induction false} HexNumberBound(s: string)
    requires AllHex(s)
    ensures HexNumber(s) < Pow16(|s|)
    decreases |s|
  {
    if |s| > 0 {
      HexNumberBound(s[..|s| - 1]);
    }
  }

  /** `Scanner.scanHexInt64`: an optional `0x` or `0X` (when a hex digit
      follows it), then the longest run of hex digits; 0 when there is
      none. The run is at most as long as the text. */
  function ScanHex(s: string): (v: nat)
    ensures v < Pow16(|s|)
  {
    var body := if |s| > 2 && s[0] == '0' && (s[1] == 'x' || s[1] == 'X') && IsHexDigit(s[2]) then s[2..] else s;
    var digits := body[..HexRun(body)];
    HexNumberBound(digits);
    PowMonotone(|digits|, |s|);
    HexNumber(digits)
  }

  lemma {:induction false} PowMonotone(m: nat, n: nat)
    requires m <= n
    ensures Pow16(m) <= Pow16(n)
    decreases n
  {
    if m < n {
      PowMonotone(m, n - 1);
    }
  }

  /** An opaque or translucent colour, one byte per component. */
  datatype Argb = Argb(a: nat, r: nat, g: nat, b: nat)

  predicate IsByteColour(c: Argb) {
    c.a < 256 && c.r < 256 && c.g < 256 && c.b < 256
  }

  const White := Argb(255, 255, 255, 255)

  /** `Color(hex:)`, decoding by the trimmed text's length: 3 digits as
      12-bit RGB, 6 as 24-bit RGB, 8 as 32-bit ARGB, anything else as white.
      The shifts and masks are written as division and remainder, a shift
      by 16 or 24 bits as two or three shifts by 8. */
  function DecodeHex(hex: string): (c: Argb)
    ensures IsByteColour(c)
    ensures |Trimmed(hex)| !in {3, 6, 8} ==> c == White
    ensures |Trimmed(hex)| in {3, 6} ==> c.a == 255
  {
    var t := Trimmed(hex);
    var v := ScanHex(t);
    if |t| == 3 then
      assert Pow16(3) == 4096;
      Argb(255, (v / 256) * 17, (v / 16 % 16) * 17, (v % 16) * 17)
    else if |t| == 6 then
      assert Pow16(6) == 0x100_0000;
      Argb(255, v / 256 / 256, v / 256 % 256, v % 256)
    else if |t| == 8 then
      assert Pow16(8) == 0x1_0000_0000;
      Argb(v / 256 / 256 / 256, v / 256 / 256 % 256, v / 256 % 256, v % 256)
    else White
  }

  /** Two hex digits as one byte. */
  function Byte(hi: char, lo: char): (b: nat)
    requires IsHexDigit(hi) && IsHexDigit(lo)
    ensures b < 256
  {
    16 * HexValue(hi) + HexValue(lo)
  }

  lemma ScanAllHex(t: string)
    requires AllHex(t)
    ensures ScanHex(t) == HexNumber(t)
  {
    assert HexRun(t) == |t|;
    assert t[..|t|] == t;
  }

  lemma HexNumberSnoc(s: string, c: char)
    requires AllHex(s) && IsHexDigit(c)
    ensures AllHex(s + [c]) && HexNumber(s + [c]) == 16 * HexNumber(s) + HexValue(c)
  {
    assert (s + [c])[..|s|] == s;
  }

  /** The number spelt by the first `n` digits of `t`. */
  lemma HexPrefix(t: string, n: nat)
    requires AllHex(t) && 0 < n <= |t|
    ensures AllHex(t[..n]) && HexNumber(t[..n]) == 16 * HexNumber(t[..n - 1]) + HexValue(t[n - 1])
  {
    assert t[..n] == t[..n - 1] + [t[n - 1]];
    HexNumberSnoc(t[..n - 1], t[n - 1]);
  }

  lemma ByteSplit(x: nat, hi: nat, lo: nat)
    requires lo < 256 && x == hi * 256 + lo
    ensures x / 256 == hi && x % 256 == lo
  {
  }

  lemma NibbleSplit(x: nat, hi: nat, lo: nat)
    requires lo < 16 && x == hi * 16 + lo
    ensures x / 16 == hi && x % 16 == lo
  {
  }

  /** Three digits: each is one component, repeated (`#abc` is `#aabbcc`),
      fully opaque. */
  lemma DecodeThreeDigits(hex: string)
    requires var t := Trimmed(hex); |t| == 3 && AllHex(t)
    ensures var t := Trimmed(hex);
      DecodeHex(hex) == Argb(255, 17 * HexValue(t[0]), 17 * HexValue(t[1]), 17 * HexValue(t[2]))
  {
    var t := Trimmed(hex);
    ScanAllHex(t);
    var h0, h1, h2 := HexValue(t[0]), HexValue(t[1]), HexValue(t[2]);
    HexPrefix(t, 1);
    HexPrefix(t, 2);
    HexPrefix(t, 3);
    assert t[..0] == [] && t[..3] == t;
    var v := HexNumber(t);
    assert v == (16 * h0 + h1) * 16 + h2;
    NibbleSplit(v, 16 * h0 + h1, h2);
    NibbleSplit(16 * h0 + h1, h0, h1);
    ByteSplit(v, h0, 16 * h1 + h2);
  }

  /** Six digits: red, green and blue bytes in that order, fully opaque. */
  lemma DecodeSixDigits(hex: string)
    requires var t := Trimmed(hex); |t| == 6 && AllHex(t)
    ensures var t := Trimmed(hex);
      DecodeHex(hex) == Argb(255, Byte(t[0], t[1]), Byte(t[2], t[3]), Byte(t[4], t[5]))
  {
    var t := Trimmed(hex);
    ScanAllHex(t);
    var r, g, b := Byte(t[0], t[1]), Byte(t[2], t[3]), Byte(t[4], t[5]);
    PairsOfSix(t);
    var v := HexNumber(t);
    ByteSplit(v, r * 256 + g, b);
    ByteSplit(r * 256 + g, r, g);
  }

  lemma PairsOfSix(t: string)
    requires |t| == 6 && AllHex(t)
    ensures HexNumber(t) == (Byte(t[0], t[1]) * 256 + Byte(t[2], t[3])) * 256 + Byte(t[4], t[5])
  {
    HexPrefix(t, 1);
    HexPrefix(t, 2);
    HexPrefix(t, 3);
    HexPrefix(t, 4);
    HexPrefix(t, 5);
    HexPrefix(t, 6);
    assert t[..0] == [] && t[..6] == t;
  }

  lemma PairsOfEight(t: string)
    requires |t| == 8 && AllHex(t)
    ensures HexNumber(t) ==
      ((Byte(t[0], t[1]) * 256 + Byte(t[2], t[3])) * 256 + Byte(t[4], t[5])) * 256 + Byte(t[6], t[7])
  {
    PairsOfSix(t[..6]);
    HexPrefix(t, 7);
    HexPrefix(t, 8);
    assert t[..7][..6] == t[..6] && t[..8] == t;
  }

  /** Eight digits: alpha, red, green and blue bytes in that order. */
  lemma DecodeEightDigits(hex: string)
    requires var t := Trimmed(hex); |t| == 8 && AllHex(t)
    ensures var t := Trimmed(hex);
      DecodeHex(hex) == Argb(Byte(t[0], t[1]), Byte(t[2], t[3]), Byte(t[4], t[5]), Byte(t[6], t[7]))
  {
    var t := Trimmed(hex);
    ScanAllHex(t);
    var a, r, g, b := Byte(t[0], t[1]), Byte(t[2], t[3]), Byte(t[4], t[5]), Byte(t[6], t[7]);
    PairsOfEight(t);
    var v := HexNumber(t);
    ByteSplit(v, (a * 256 + r) * 256 + g, b);
    ByteSplit((a * 256 + r) * 256 + g, a * 256 + r, g);
    ByteSplit(a * 256 + r, a, r);
  }

  /** Every background colour of the palette is opaque. */
  lemma BackgroundIsOpaque(color: string, isDark: bool)
    ensures DecodeHex(BackgroundHex(color, isDark)).a == 255
  {
    SevenCharHex(BackgroundHex(color, isDark));
  }

  /** `#` followed by six letters or digits trims to those six. */
  lemma SevenCharHex(hex: string)
    requires |hex| == 7 && hex[0] == '#'
    requires forall i :: 1 <= i < 7 ==> IsAlphanumeric(hex[i])
    ensures Trimmed(hex) == hex[1..]
  {
    assert LeadingTrim(hex) == 1 by {
      assert LeadingTrim(hex[1..]) == 0;
    }
  }
}
