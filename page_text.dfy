/** The two text decoders `ChromeProfileService` applies to the Keep web
    page (Service/ChromeProfileService.swift:205-237): finding the note
    payload inside the page's `loadChunk(JSON.parse('…'), "…")` call, and
    undoing the JavaScript escapes in it. The regular expressions are
    written out as hand matchers with the same first-match semantics. */
module PageText {
  import opened Common

  // ---------------------------------------------------------------------
  // The loadChunk call

  /** The literal text before the payload, and after it up to the second
      argument. */
  const CallOpen: string := "loadChunk(JSON.parse('"
  const CallMiddle: string := "'), \""
  const CallClose: string := "\")"

  /** The characters `.` does not match in an ICU regular expression. */
  predicate IsLineTerminator(c: char) {
    c == '\n' || c == '\U{000B}' || c == '\U{000C}' || c == '\r'
    || c == '\U{0085}' || c == '\U{2028}' || c == '\U{2029}'
  }

  predicate StartsAt(s: string, i: nat, lit: string) {
    i + |lit| <= |s| && s[i..i + |lit|] == lit
  }

  /** The index of the first `'` at or after `j`, or `|s|`. */
  function NextQuote(s: string, j: nat): (k: nat)
    requires j <= |s|
    ensures j <= k <= |s|
    ensures k < |s| ==> s[k] == '\''
    ensures forall u :: j <= u < k ==> s[u] != '\''
    decreases |s| - j
  {
    if j == |s| || s[j] == '\'' then j else NextQuote(s, j + 1)
  }

  /** `.*\"\)` from `m`: some `")` follows on the same line. */
  function ClosesOnLine(s: string, m: nat): bool
    decreases |s| - m
  {
    if m + 2 > |s| then false
    else if StartsAt(s, m, CallClose) then true
    else if IsLineTerminator(s[m]) then false
    else ClosesOnLine(s, m + 1)
  }

  /** What `ClosesOnLine` decides, stated without the scan. */
  lemma {:induction false} ClosesOnLineMeaning(s: string, m: nat)
    ensures ClosesOnLine(s, m) <==>
      exists t :: m <= t && StartsAt(s, t, CallClose) && forall u :: m <= u < t ==> !IsLineTerminator(s[u])
    decreases |s| - m
  {
    if m + 2 <= |s| && !StartsAt(s, m, CallClose) && !IsLineTerminator(s[m]) {
      ClosesOnLineMeaning(s, m + 1);
      if exists t :: m <= t && StartsAt(s, t, CallClose) && forall u :: m <= u < t ==> !IsLineTerminator(s[u]) {
        var t :| m <= t && StartsAt(s, t, CallClose) && forall u :: m <= u < t ==> !IsLineTerminator(s[u]);
        assert t != m;
      }
    } else if m + 2 > |s| {
      forall t | m <= t ensures !StartsAt(s, t, CallClose) { }
    }
  }

  /** The capture group when the whole pattern matches at `i`. The group
      `[^']+` is followed by `'`, so it is the run of non-quote characters
      after the opening literal and must not be empty. */
  function MatchAt(s: string, i: nat): (r: Option<string>)
    ensures r.Some? ==> r.value != "" && '\'' !in r.value
    ensures r.Some? ==> StartsAt(s, i, CallOpen) && StartsAt(s, i + |CallOpen| + |r.value|, CallMiddle)
    ensures r.Some? ==> s[i + |CallOpen|..i + |CallOpen| + |r.value|] == r.value
  {
    if !StartsAt(s, i, CallOpen) then None
    else
      var j := i + |CallOpen|;
      var k := NextQuote(s, j);
      if k > j && StartsAt(s, k, CallMiddle) && ClosesOnLine(s, k + |CallMiddle|) then
        assert forall u :: 0 <= u < k - j ==> s[j..k][u] == s[j + u];
        Some(s[j..k])
      else None
  }

  /** The first match at or after `i`. */
  function FirstMatchFrom(s: string, i: nat): (r: Option<string>)
    ensures r.Some? ==> exists p :: i <= p <= |s| && MatchAt(s, p) == r && forall q :: i <= q < p ==> MatchAt(s, q).None?
    ensures r.None? ==> forall q :: i <= q <= |s| ==> MatchAt(s, q).None?
    decreases |s| + 1 - i
  {
    if i > |s| then None
    else if MatchAt(s, i).Some? then MatchAt(s, i)
    else FirstMatchFrom(s, i + 1)
  }

  /** `extractLoadChunkJSON(from:)`: the payload of the leftmost match, a
      non-empty text without `'`, or nothing when the page has no match. */
  function ExtractLoadChunkJSON(html: string): (r: Option<string>)
    ensures r.Some? ==> r.value != "" && '\'' !in r.value
    ensures r.Some? ==> exists p :: 0 <= p <= |html| && MatchAt(html, p) == r && forall q :: 0 <= q < p ==> MatchAt(html, q).None?
    ensures r.None? <==> forall q :: 0 <= q <= |html| ==> MatchAt(html, q).None?
  {
    FirstMatchFrom(html, 0)
  }

  /** A page that starts with the call gives back exactly its first
      argument, whatever the second argument holds on its line. */
  lemma ExtractFromCall(payload: string, arg: string, rest: string)
    requires payload != "" && '\'' !in payload
    requires forall u :: 0 <= u < |arg| ==> !IsLineTerminator(arg[u])
    ensures ExtractLoadChunkJSON(CallOpen + payload + CallMiddle + arg + CallClose + rest) == Some(payload)
  {
    var s := CallOpen + payload + CallMiddle + arg + CallClose + rest;
    FivePieces(CallOpen, payload, CallMiddle, arg, CallClose, rest);
    var j := |CallOpen|;
    var k := j + |payload|;
    var m := k + |CallMiddle|;
    var t := m + |arg|;
    forall u | j <= u < k ensures s[u] != '\'' {
      assert s[u] == s[j..k][u - j];
    }
    assert s[k] == s[k..m][0];
    forall u | m <= u < t ensures !IsLineTerminator(s[u]) {
      assert s[u] == s[m..t][u - m];
    }
    MatchAtCall(s, k, t);
  }

  /** The first five pieces of a concatenation, found again by position. */
  lemma FivePieces<T>(a: seq<T>, b: seq<T>, c: seq<T>, d: seq<T>, e: seq<T>, f: seq<T>)
    ensures var s := a + b + c + d + e + f;
      var i1, i2 := |a|, |a| + |b|;
      var i3, i4 := i2 + |c|, i2 + |c| + |d|;
      i4 + |e| <= |s| && s[..i1] == a && s[i1..i2] == b && s[i2..i3] == c && s[i3..i4] == d && s[i4..i4 + |e|] == e
  {
  }

  /** The call at the start of `s`, found by its pieces: a non-empty run up
      to the quote at `k`, the middle literal, and a `")` at `t` on the same
      line. */
  lemma MatchAtCall(s: string, k: nat, t: nat)
    requires StartsAt(s, 0, CallOpen) && |CallOpen| < k < |s| && s[k] == '\''
    requires forall u :: |CallOpen| <= u < k ==> s[u] != '\''
    requires StartsAt(s, k, CallMiddle) && k + |CallMiddle| <= t && StartsAt(s, t, CallClose)
    requires forall u :: k + |CallMiddle| <= u < t ==> !IsLineTerminator(s[u])
    ensures ExtractLoadChunkJSON(s) == Some(s[|CallOpen|..k])
  {
    NextQuoteIs(s, |CallOpen|, k);
    ClosesOnLineMeaning(s, k + |CallMiddle|);
    assert MatchAt(s, 0) == Some(s[|CallOpen|..k]);
  }

  lemma {:induction false} NextQuoteIs(s: string, j: nat, k: nat)
    requires j <= k < |s| && s[k] == '\''
    requires forall u :: j <= u < k ==> s[u] != '\''
    ensures NextQuote(s, j) == k
    decreases k - j
  {
    if j < k {
      NextQuoteIs(s, j + 1, k);
    }
  }

  // ---------------------------------------------------------------------
  // Escapes

  /** `\\x([0-9a-fA-F]{2})` matches at `i`. */
  predicate HexEscapeAt(s: string, i: nat) {
    i + 4 <= |s| && s[i] == '\\' && s[i + 1] == 'x' && IsHexDigit(s[i + 2]) && IsHexDigit(s[i + 3])
  }

  /** `String(UnicodeScalar(UInt8(hex, radix: 16)))` for the escape at `i`. */
  function EscapedChar(s: string, i: nat): (c: char)
    requires HexEscapeAt(s, i)
    ensures (c as int) == 16 * HexValue(s[i + 2]) + HexValue(s[i + 3])
  {
    (16 * HexValue(s[i + 2]) + HexValue(s[i + 3])) as char
  }

  /** The start positions of the escapes the regular expression finds in
      one left-to-right scan from `i`; matches do not overlap. */
  function MatchesFrom(s: string, i: nat): (r: seq<nat>)
    ensures forall k :: 0 <= k < |r| ==> i <= r[k] && HexEscapeAt(s, r[k])
    decreases |s| - i
  {
    if i + 4 > |s| then []
    else if HexEscapeAt(s, i) then [i] + MatchesFrom(s, i + 4)
    else MatchesFrom(s, i + 1)
  }

  /** The text from `i` on with every escape of that scan decoded. */
  function DecodeFrom(s: string, i: nat): string
    decreases |s| - i
  {
    if i >= |s| then ""
    else if HexEscapeAt(s, i) then [EscapedChar(s, i)] + DecodeFrom(s, i + 4)
    else [s[i]] + DecodeFrom(s, i + 1)
  }

  /** `replacingOccurrences(of: "\\\\", with: "\\")`: each pair of
      backslashes, taken left to right, becomes one. */
  function CollapseBackslashes(s: string): string
    decreases |s|
  {
    if |s| == 0 then ""
    else if |s| >= 2 && s[0] == '\\' && s[1] == '\\' then "\\" + CollapseBackslashes(s[2..])
    else [s[0]] + CollapseBackslashes(s[1..])
  }

  /** What `unescapeJSONString` computes. */
  function Unescape(s: string): string {
    CollapseBackslashes(DecodeFrom(s, 0))
  }

  /** The scan goes on four characters after each match. */
  lemma {:induction false} MatchesAfterFirst(s: string, i: nat)
    requires |MatchesFrom(s, i)| > 0
    ensures MatchesFrom(s, i)[0] + 4 <= |s|
    ensures MatchesFrom(s, MatchesFrom(s, i)[0] + 4) == MatchesFrom(s, i)[1..]
    decreases |s| - i
  {
    if !HexEscapeAt(s, i) {
      MatchesAfterFirst(s, i + 1);
    }
  }

  /** Between `i` and the scan's next match, the text is copied as is. */
  lemma {:induction false} DecodeUpToMatch(s: string, i: nat)
    requires i <= |s|
    requires |MatchesFrom(s, i)| > 0
    ensures MatchesFrom(s, i)[0] + 4 <= |s|
    ensures DecodeFrom(s, i) == s[i..MatchesFrom(s, i)[0]] + DecodeFrom(s, MatchesFrom(s, i)[0])
    ensures MatchesFrom(s, MatchesFrom(s, i)[0] + 4) == MatchesFrom(s, i)[1..]
    decreases |s| - i
  {
    MatchesAfterFirst(s, i);
    var p := MatchesFrom(s, i)[0];
    if !HexEscapeAt(s, i) {
      assert MatchesFrom(s, i) == MatchesFrom(s, i + 1);
      DecodeUpToMatch(s, i + 1);
      assert DecodeFrom(s, i) == [s[i]] + DecodeFrom(s, i + 1);
      ConsSplice(s, i, p, DecodeFrom(s, p));
    } else {
      EmptySplice(s, i, DecodeFrom(s, i));
    }
  }

  /** With no match after `i`, the rest is copied as is. */
  lemma {:induction false} DecodeWithoutMatch(s: string, i: nat)
    requires i <= |s|
    requires |MatchesFrom(s, i)| == 0
    ensures DecodeFrom(s, i) == s[i..]
    decreases |s| - i
  {
    if i < |s| {
      if i + 4 <= |s| {
        assert !HexEscapeAt(s, i);
      }
      DecodeWithoutMatch(s, i + 1);
      SliceCons(s, i, |s|);
    }
  }

  /** The text between consecutive matches of the scan, and after the last. */
  function Gap(s: string, ms: seq<nat>, k: nat): nat
    requires k < |ms|
  {
    if k + 1 < |ms| then ms[k + 1] else |s|
  }

  /** Decoding an escape gives its character, then the decoding after it. */
  lemma DecodeAtEscape(s: string, p: nat)
    requires HexEscapeAt(s, p)
    ensures DecodeFrom(s, p) == [EscapedChar(s, p)] + DecodeFrom(s, p + 4)
  {
  }

  /** Decoding from the end of an escape: the gap up to the next match
      copied, then the decoding from there. */
  lemma DecodeAfterEscape(s: string, q: nat, g: nat)
    requires q <= |s|
    requires g == if |MatchesFrom(s, q)| > 0 then MatchesFrom(s, q)[0] else |s|
    ensures q <= g <= |s|
    ensures DecodeFrom(s, q) == s[q..g] + DecodeFrom(s, g)
  {
    if |MatchesFrom(s, q)| == 0 {
      DecodeWithoutMatch(s, q);
      assert DecodeFrom(s, g) == "";
      assert s[q..] == s[q..g];
    } else {
      DecodeUpToMatch(s, q);
    }
  }

  /** After the `k`-th match the scan goes on with the matches after it. */
  lemma {:induction false} MatchesSuffix(s: string, i: nat, k: nat)
    requires k < |MatchesFrom(s, i)|
    ensures MatchesFrom(s, i)[k] + 4 <= |s|
    ensures MatchesFrom(s, MatchesFrom(s, i)[k] + 4) == MatchesFrom(s, i)[k + 1..]
    decreases |s| - i
  {
    var ms := MatchesFrom(s, i);
    if k > 0 {
      var q := ms[0] + 4;
      assert MatchesFrom(s, q) == ms[1..] by {
        MatchesAfterFirst(s, i);
      }
      MatchesSuffix(s, q, k - 1);
      DropOneMore(ms, k);
    } else {
      MatchesAfterFirst(s, i);
    }
  }

  /** Decoding the `k`-th match in place: with the text after the next
      match already decoded, replacing the four characters of the escape by
      its character leaves the text decoded from the `k`-th match on. */
  lemma ReplaceEscape(input: string, matches: seq<nat>, k: nat, result: string)
    requires matches == MatchesFrom(input, 0) && k < |matches|
    requires Gap(input, matches, k) <= |input|
    requires result == input[..Gap(input, matches, k)] + DecodeFrom(input, Gap(input, matches, k))
    ensures matches[k] + 4 <= |result|
    ensures result[..matches[k]] + [EscapedChar(input, matches[k])] + result[matches[k] + 4..]
            == input[..matches[k]] + DecodeFrom(input, matches[k])
  {
    var p, end := matches[k], Gap(input, matches, k);
    var rest := MatchesFrom(input, p + 4);
    assert end == if |rest| > 0 then rest[0] else |input| by {
      MatchesSuffix(input, 0, k);
    }
    EscapeThenGap(input, p, end);
    SpliceOne(input, p, end, DecodeFrom(input, end), EscapedChar(input, p), DecodeFrom(input, p));
  }

  /** Decoding from an escape: its character, the gap up to the scan's
      next match copied, then the decoding from there. */
  lemma EscapeThenGap(input: string, p: nat, end: nat)
    requires HexEscapeAt(input, p)
    requires end == if |MatchesFrom(input, p + 4)| > 0 then MatchesFrom(input, p + 4)[0] else |input|
    ensures p + 4 <= end <= |input|
    ensures DecodeFrom(input, p) == [EscapedChar(input, p)] + input[p + 4..end] + DecodeFrom(input, end)
  {
    DecodeAtEscape(input, p);
    DecodeAfterEscape(input, p + 4, end);
    AppendAssoc([EscapedChar(input, p)], input[p + 4..end], DecodeFrom(input, end));
  }

  /** `unescapeJSONString(_:)`: find every escape in the original text,
      replace them from the last to the first so earlier positions stay
      valid, then collapse doubled backslashes. */
  method UnescapeJSONString(input: string) returns (result: string)
    ensures result == Unescape(input)
  {
    result := input;
    var matches := MatchesFrom(input, 0);
    var k := |matches|;
    // `result` is the input up to `end`, followed by the decoding from there
    ghost var end := |input|;
    assert result == input[..end] + DecodeFrom(input, end);
    while k > 0
      invariant 0 <= k <= |matches|
      invariant end == if k < |matches| then matches[k] else |input|
      invariant end <= |input|
      invariant result == input[..end] + DecodeFrom(input, end)
    {
      k := k - 1;
      var p := matches[k];
      ReplaceEscape(input, matches, k, result);
      result := result[..p] + [EscapedChar(input, p)] + result[p + 4..];
      end := p;
    }
    UnescapeStart(input, matches, end, result);
    result := CollapseBackslashes(result);
  }

  /** Once every match is replaced, the text is the decoding of the whole
      input. */
  lemma UnescapeStart(input: string, matches: seq<nat>, end: nat, result: string)
    requires matches == MatchesFrom(input, 0)
    requires end == if 0 < |matches| then matches[0] else |input|
    requires end <= |input|
    requires result == input[..end] + DecodeFrom(input, end)
    ensures result == DecodeFrom(input, 0)
  {
    if |matches| > 0 {
      DecodeUpToMatch(input, 0);
      assert input[..end] == input[0..matches[0]];
    } else {
      DecodeWithoutMatch(input, 0);
      assert input[..end] + DecodeFrom(input, end) == input;
    }
  }

  /** Text without backslashes is left as it is. */
  lemma {:induction false} NoBackslashUnchanged(s: string)
    requires '\\' !in s
    ensures Unescape(s) == s
  {
    CopiedWithoutBackslash(s, 0);
    CollapseWithoutBackslash(s);
  }

  lemma {:induction false} CopiedWithoutBackslash(s: string, i: nat)
    requires i <= |s| && '\\' !in s
    ensures DecodeFrom(s, i) == s[i..]
    decreases |s| - i
  {
    if i < |s| {
      CopiedWithoutBackslash(s, i + 1);
      assert s[i..] == [s[i]] + s[i + 1..];
    }
  }

  lemma {:induction false} CollapseWithoutBackslash(s: string)
    requires '\\' !in s
    ensures CollapseBackslashes(s) == s
    decreases |s|
  {
    if |s| > 0 {
      assert s[0] in s;
      CollapseWithoutBackslash(s[1..]);
      assert s == [s[0]] + s[1..];
    }
  }

  /** A backslash at the very end is kept. */
  lemma TrailingBackslashKept(s: string)
    requires '\\' !in s
    ensures Unescape(s + "\\") == s + "\\"
  {
    var t := s + "\\";
    CopiedUpToBackslash(t, 0);
    CollapseWithTrailing(s);
  }

  lemma {:induction false} CopiedUpToBackslash(t: string, i: nat)
    requires |t| >= 1 && i <= |t| && t[|t| - 1] == '\\'
    requires forall u :: 0 <= u < |t| - 1 ==> t[u] != '\\'
    ensures DecodeFrom(t, i) == t[i..]
    decreases |t| - i
  {
    if i < |t| {
      CopiedUpToBackslash(t, i + 1);
      assert t[i..] == [t[i]] + t[i + 1..];
    }
  }

  lemma {:induction false} CollapseWithTrailing(s: string)
    requires '\\' !in s
    ensures CollapseBackslashes(s + "\\") == s + "\\"
    decreases |s|
  {
    if |s| > 0 {
      assert s[0] in s;
      assert (s + "\\")[1..] == s[1..] + "\\";
      CollapseWithTrailing(s[1..]);
    }
  }

  /** `\xHH` becomes the character with code point HH, for instance `\x41`
      becomes `A`. */
  lemma HexEscapeDecoded(hi: char, lo: char)
    requires IsHexDigit(hi) && IsHexDigit(lo)
    ensures Unescape(['\\', 'x', hi, lo]) == [(16 * HexValue(hi) + HexValue(lo)) as char]
  {
    var s := ['\\', 'x', hi, lo];
    assert HexEscapeAt(s, 0);
    assert DecodeFrom(s, 4) == "";
    var c := (16 * HexValue(hi) + HexValue(lo)) as char;
    assert DecodeFrom(s, 0) == [c];
    assert CollapseBackslashes([c]) == [c] + CollapseBackslashes([]);
  }

  /** An escaped backslash collapses to a single one, unless an `x` and
      two hex digits follow: the escape scan runs before the collapse, so
      it reads the second backslash as the start of an escape. */
  lemma DoubledBackslashCollapses(s: string)
    requires '\\' !in s
    requires |s| == 0 || s[0] != 'x'
    ensures Unescape("\\\\" + s) == "\\" + s
  {
    var t := "\\\\" + s;
    assert !HexEscapeAt(t, 0);
    assert !HexEscapeAt(t, 1) by {
      if |t| > 2 { assert t[2] == s[0]; }
    }
    assert t[2..] == s;
    ShiftedCopy(t, 2, s);
    assert DecodeFrom(t, 0) == t;
    assert CollapseBackslashes(t) == "\\" + CollapseBackslashes(s);
    CollapseWithoutBackslash(s);
  }

  /** An escaped backslash followed by `x41` comes out as a backslash and
      `A`, not as the text `\x41`. */
  lemma EscapedBackslashBeforeHex(hi: char, lo: char)
    requires IsHexDigit(hi) && IsHexDigit(lo)
    requires 16 * HexValue(hi) + HexValue(lo) != 0x5C
    ensures Unescape(['\\', '\\', 'x', hi, lo]) == ['\\', (16 * HexValue(hi) + HexValue(lo)) as char]
  {
    var t := ['\\', '\\', 'x', hi, lo];
    var c := (16 * HexValue(hi) + HexValue(lo)) as char;
    assert !HexEscapeAt(t, 0) && HexEscapeAt(t, 1);
    assert DecodeFrom(t, 5) == "";
    assert DecodeFrom(t, 1) == [c];
    assert DecodeFrom(t, 0) == ['\\', c];
    assert c != '\\';
    assert CollapseBackslashes(['\\', c]) == ['\\'] + CollapseBackslashes([c]);
    assert CollapseBackslashes([c]) == [c] + CollapseBackslashes([]);
  }

  lemma {:induction false} ShiftedCopy(t: string, i: nat, s: string)
    requires i <= |t| && t[i..] == s && '\\' !in s
    ensures DecodeFrom(t, i) == s
    decreases |t| - i
  {
    if i < |t| {
      assert t[i] == s[0] && s[0] in s;
      ShiftedCopy(t, i + 1, s[1..]);
    }
  }
}
