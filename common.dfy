/** Shared vocabulary of the Keep model: optional values and results, the
    errors the services raise, the two ways Swift splits a string, and the
    decimal codec used for integers that travel as text. */
module Common {

  datatype Option<+T> = None | Some(value: T) {
    function GetOr(default: T): T {
      match this
      case Some(v) => v
      case None => default
    }
  }

  datatype Result<+T, +E> = Success(value: T) | Failure(error: E)

  /** Every error the modelled services throw, with the text the app shows
      for it (`localizedDescription`). `ApiFailure` stands for the
      `NSError`s built by the token client, `Transport` for errors raised by
      URLSession, FileManager or process spawning, whose text is not ours. */
  datatype Error =
    | ChromedriverNotFound
    | ChromeNotFound
    | SessionCreationFailed
    | DataDirectoryNotFound
    | NoteParsingFailed
    | ApiFailure(message: string)
    | Transport(message: string)
  {
    function Description(): string {
      match this
      case ChromedriverNotFound => "ChromeDriver not found"
      case ChromeNotFound => "Chrome browser not found"
      case SessionCreationFailed => "Failed to create Chrome session"
      case DataDirectoryNotFound => "Could not create Chrome data directory"
      case NoteParsingFailed => "Failed to parse notes from Keep page"
      case ApiFailure(m) => m
      case Transport(m) => m
    }
  }

  // ---------------------------------------------------------------------
  // Splitting and joining

  /** Foundation's `components(separatedBy:)` for a one-character separator:
      every piece is kept, including empty ones. */
  function Components(s: string, sep: char): (r: seq<string>)
    ensures |r| >= 1
    decreases |s|
  {
    if |s| == 0 then [""]
    else
      var rest := Components(s[1..], sep);
      if s[0] == sep then [""] + rest else [[s[0]] + rest[0]] + rest[1..]
  }

  /** `parts.joined(separator: sep)` */
  function Join(parts: seq<string>, sep: string): string
    decreases |parts|
  {
    if |parts| == 0 then ""
    else if |parts| == 1 then parts[0]
    else parts[0] + sep + Join(parts[1..], sep)
  }

  function NonEmptyPieces(pieces: seq<string>): (r: seq<string>)
    ensures forall i :: 0 <= i < |r| ==> r[i] != ""
    ensures forall p :: p in r ==> p in pieces
    decreases |pieces|
  {
    if |pieces| == 0 then []
    else if pieces[0] == "" then NonEmptyPieces(pieces[1..])
    else [pieces[0]] + NonEmptyPieces(pieces[1..])
  }

  /** Swift's `split(separator:)`, which omits empty subsequences. */
  function SplitOmitting(s: string, sep: char): seq<string> {
    NonEmptyPieces(Components(s, sep))
  }

  /** No piece contains the separator, and joining the pieces with it gives
      the text back. */
  lemma {:induction false} ComponentsJoin(s: string, sep: char)
    ensures Join(Components(s, sep), [sep]) == s
    ensures forall i :: 0 <= i < |Components(s, sep)| ==> sep !in Components(s, sep)[i]
    decreases |s|
  {
    if |s| > 0 {
      ComponentsJoin(s[1..], sep);
      var rest := Components(s[1..], sep);
      if s[0] == sep {
        assert Components(s, sep) == [""] + rest;
      } else {
        var r := Components(s, sep);
        assert r == [[s[0]] + rest[0]] + rest[1..];
        if |rest| == 1 {
          assert Join(r, [sep]) == [s[0]] + rest[0];
        } else {
          assert r[1..] == rest[1..];
          assert Join(r, [sep]) == [s[0]] + rest[0] + [sep] + Join(rest[1..], [sep]);
        }
        assert s == [s[0]] + s[1..];
      }
    }
  }

  /** Joining pieces that do not contain the separator and splitting the
      result on it gives the pieces back. */
  lemma {:induction false} JoinComponents(parts: seq<string>, sep: char)
    requires |parts| >= 1
    requires forall i :: 0 <= i < |parts| ==> sep !in parts[i]
    ensures Components(Join(parts, [sep]), sep) == parts
    decreases |parts|
  {
    ComponentsWithout(parts[0], sep);
    if |parts| > 1 {
      JoinComponents(parts[1..], sep);
      ComponentsAppend(parts[0], sep, Join(parts[1..], [sep]));
      assert parts == [parts[0]] + parts[1..];
    }
  }

  /** Joining one more piece puts one more separator before it. */
  lemma {:induction false} JoinSnoc(parts: seq<string>, last: string, sep: string)
    requires |parts| >= 1
    ensures Join(parts + [last], sep) == Join(parts, sep) + sep + last
    decreases |parts|
  {
    if |parts| > 1 {
      assert (parts + [last])[1..] == parts[1..] + [last];
      JoinSnoc(parts[1..], last, sep);
    }
  }

  /** A separator splits the pieces of the text around it apart. */
  lemma {:induction false} ComponentsAppend(a: string, sep: char, b: string)
    ensures Components(a + [sep] + b, sep) == Components(a, sep) + Components(b, sep)
    decreases |a|
  {
    if |a| == 0 {
      assert a + [sep] + b == [sep] + b;
      assert ([sep] + b)[1..] == b;
    } else {
      assert (a + [sep] + b)[1..] == a[1..] + [sep] + b;
      assert (a + [sep] + b)[0] == a[0];
      ComponentsAppend(a[1..], sep, b);
    }
  }

  lemma {:induction false} NonEmptyPiecesAppend(x: seq<string>, y: seq<string>)
    ensures NonEmptyPieces(x + y) == NonEmptyPieces(x) + NonEmptyPieces(y)
    decreases |x|
  {
    if |x| == 0 {
      assert x + y == y;
    } else {
      assert (x + y)[0] == x[0];
      assert (x + y)[1..] == x[1..] + y;
      NonEmptyPiecesAppend(x[1..], y);
    }
  }

  lemma SplitOmittingAppend(a: string, sep: char, b: string)
    ensures SplitOmitting(a + [sep] + b, sep) == SplitOmitting(a, sep) + SplitOmitting(b, sep)
  {
    ComponentsAppend(a, sep, b);
    NonEmptyPiecesAppend(Components(a, sep), Components(b, sep));
  }

  lemma {:induction false} ComponentsWithout(s: string, sep: char)
    requires sep !in s
    ensures Components(s, sep) == [s]
    decreases |s|
  {
    if |s| > 0 {
      ComponentsWithout(s[1..], sep);
      assert s == [s[0]] + s[1..];
    }
  }

  // ---------------------------------------------------------------------
  // Decimal text

  predicate IsDigit(c: char) {
    '0' <= c <= '9'
  }

  predicate AllDigits(s: string) {
    forall i :: 0 <= i < |s| ==> IsDigit(s[i])
  }

  function DigitChar(d: nat): (c: char)
    requires d < 10
    ensures IsDigit(c) && (c as int) - ('0' as int) == d
  {
    (('0' as int) + d) as char
  }

  function DigitsValue(s: string): nat
    requires AllDigits(s)
    decreases |s|
  {
    if |s| == 0 then 0
    else DigitsValue(s[..|s| - 1]) * 10 + ((s[|s| - 1] as int) - ('0' as int))
  }

  /** `"\(n)"` for a non-negative number. */
  function NatToString(n: nat): string
    decreases n
  {
    if n < 10 then [DigitChar(n)] else NatToString(n / 10) + [DigitChar(n % 10)]
  }

  /** `"\(i)"` for any integer. */
  function IntToString(i: int): string {
    if i < 0 then "-" + NatToString(-i) else NatToString(i)
  }

  lemma {:induction false} NatToStringDigits(n: nat)
    ensures |NatToString(n)| >= 1 && AllDigits(NatToString(n))
    ensures DigitsValue(NatToString(n)) == n
    decreases n
  {
    if n >= 10 {
      NatToStringDigits(n / 10);
      var s := NatToString(n);
      assert s[..|s| - 1] == NatToString(n / 10);
    }
  }

  /** No element occurs twice. */
  predicate Distinct<T(==)>(xs: seq<T>) {
    forall i, j :: 0 <= i < j < |xs| ==> xs[i] != xs[j]
  }

  /** One more element of a prefix. */
  lemma PrefixSnoc<T>(s: seq<T>, j: nat)
    requires j < |s|
    ensures s[..j + 1] == s[..j] + [s[j]]
  {
  }

  /** `f` applied to every element together with its index. */
  function MapIndexed<T, U>(xs: seq<T>, f: (nat, T) -> U): (r: seq<U>)
    ensures |r| == |xs|
    ensures forall i :: 0 <= i < |xs| ==> r[i] == f(i, xs[i])
  {
    seq(|xs|, i requires 0 <= i < |xs| => f(i, xs[i]))
  }

  /** One more element mapped adds its image at the end. */
  lemma MapIndexedSnoc<T, U>(xs: seq<T>, f: (nat, T) -> U, i: nat)
    requires i < |xs|
    ensures MapIndexed(xs[..i + 1], f) == MapIndexed(xs[..i], f) + [f(i, xs[i])]
  {
    var a, b := MapIndexed(xs[..i + 1], f), MapIndexed(xs[..i], f);
    forall k | 0 <= k < i ensures a[k] == b[k] {
      assert xs[..i + 1][k] == xs[..i][k];
    }
  }

  /** The last element and the rest of a concatenation with a non-empty
      right part. */
  lemma AppendInit<T>(x: seq<T>, y: seq<T>)
    requires |y| > 0
    ensures (x + y)[..|x + y| - 1] == x + y[..|y| - 1]
    ensures (x + y)[|x + y| - 1] == y[|y| - 1]
  {
  }

  /** A non-empty slice is its first element and the rest. */
  lemma SliceCons<T>(s: seq<T>, i: nat, j: nat)
    requires i < j <= |s|
    ensures s[i..j] == [s[i]] + s[i + 1..j]
  {
  }

  lemma ConsSplice<T>(s: seq<T>, i: nat, p: nat, d: seq<T>)
    requires i < p <= |s|
    ensures [s[i]] + (s[i + 1..p] + d) == s[i..p] + d
  {
    SliceCons(s, i, p);
  }

  lemma EmptySplice<T>(s: seq<T>, i: nat, d: seq<T>)
    requires i <= |s|
    ensures s[i..i] + d == d
  {
  }

  lemma AppendAssoc<T>(a: seq<T>, b: seq<T>, c: seq<T>)
    ensures a + (b + c) == a + b + c
  {
  }

  /** Replacing the four elements at `p` of `s[..end] + d` by `x`, where
      `decoded` is `x`, the rest of `s` up to `end`, then `d`. */
  lemma SpliceOne<T>(s: seq<T>, p: nat, end: nat, d: seq<T>, x: T, decoded: seq<T>)
    requires p + 4 <= end <= |s|
    requires decoded == [x] + s[p + 4..end] + d
    ensures p + 4 <= |s[..end] + d|
    ensures (s[..end] + d)[..p] + [x] + (s[..end] + d)[p + 4..] == s[..p] + decoded
  {
    var r := s[..end] + d;
    assert r[..p] == s[..p];
    assert r[p + 4..] == s[p + 4..end] + d;
  }

  lemma InitOfSnoc<T>(xs: seq<T>, x: T)
    ensures (xs + [x])[..|xs|] == xs
    ensures forall i :: 0 <= i < |xs| ==> (xs + [x])[i] == xs[i]
    ensures (xs + [x])[|xs|] == x
  {
  }

  lemma RemoveUpdated<K, V>(m: map<K, V>, k: K, v: V)
    ensures m[k := v] - {k} == m - {k}
  {
  }

  lemma RemoveOtherUpdated<K, V>(m: map<K, V>, k: K, v: V, j: K)
    requires k != j
    ensures m[k := v] - {j} == (m - {j})[k := v]
  {
  }

  lemma DistinctParts<T>(xs: seq<T>, ys: seq<T>)
    requires Distinct(xs + ys)
    ensures Distinct(xs) && Distinct(ys)
  {
    var zs := xs + ys;
    forall i, j | 0 <= i < j < |ys| ensures ys[i] != ys[j] {
      assert zs[|xs| + i] == ys[i] && zs[|xs| + j] == ys[j];
    }
    forall i, j | 0 <= i < j < |xs| ensures xs[i] != xs[j] {
      assert zs[i] == xs[i] && zs[j] == xs[j];
    }
  }

  lemma DropOneMore<T>(s: seq<T>, k: nat)
    requires 0 < k < |s|
    ensures s[1..][k - 1] == s[k] && s[1..][k..] == s[k + 1..]
  {
  }

  lemma MultisetCons<T>(x: T, t: seq<T>)
    ensures multiset([x] + t) == multiset{x} + multiset(t)
  {
  }

  lemma DistinctSnoc<T>(xs: seq<T>, x: T)
    requires Distinct(xs) && x !in xs
    ensures Distinct(xs + [x])
  {
  }

  /** A hexadecimal digit, either case. */
  predicate IsHexDigit(c: char) {
    '0' <= c <= '9' || 'a' <= c <= 'f' || 'A' <= c <= 'F'
  }

  function HexValue(c: char): (v: nat)
    requires IsHexDigit(c)
    ensures v < 16
  {
    if '0' <= c <= '9' then (c as int) - ('0' as int)
    else if 'a' <= c <= 'f' then (c as int) - ('a' as int) + 10
    else (c as int) - ('A' as int) + 10
  }

  /** A non-empty run of decimal digits and its value. */
  function ParseNat(s: string): Option<nat> {
    if |s| > 0 && AllDigits(s) then Some(DigitsValue(s)) else None
  }

  /** An optional sign followed by at least one digit, with no bound. */
  function ParseSigned(s: string): Option<int> {
    if |s| > 0 && (s[0] == '+' || s[0] == '-') then
      match ParseNat(s[1..])
      case None => None
      case Some(v) =>
        var x: int := if s[0] == '-' then -(v as int) else v as int;
        Some(x)
    else
      match ParseNat(s)
      case None => None
      case Some(v) =>
        var x: int := v;
        Some(x)
  }

  const IntMin: int := -0x8000_0000_0000_0000
  const IntMax: int := 0x7fff_ffff_ffff_ffff

  /** Swift's `Int(_: String)`: a signed decimal that must fit in 64 bits. */
  function ParseInt(s: string): (r: Option<int>)
    ensures r.Some? ==> IntMin <= r.value <= IntMax && ParseSigned(s) == r
    ensures r.None? ==> ParseSigned(s).None? || !(IntMin <= ParseSigned(s).value <= IntMax)
  {
    match ParseSigned(s)
    case None => None
    case Some(v) => if IntMin <= v <= IntMax then Some(v) else None
  }

  lemma NatRoundTrip(n: nat)
    ensures ParseNat(NatToString(n)) == Some(n)
  {
    NatToStringDigits(n);
  }

  lemma ParseNegative(t: string)
    requires |t| > 0 && AllDigits(t)
    ensures ParseSigned("-" + t) == Some(-(DigitsValue(t) as int))
  {
    var s := "-" + t;
    assert s[0] == '-' && s[1..] == t;
  }

  lemma ParseUnsigned(t: string)
    requires |t| > 0 && AllDigits(t)
    ensures ParseSigned(t) == Some(DigitsValue(t) as int)
  {
    assert IsDigit(t[0]);
  }

  /** Printing an integer and reading it back is lossless. */
  lemma SignedRoundTrip(i: int)
    ensures ParseSigned(IntToString(i)) == Some(i)
  {
    if i < 0 {
      NatToStringDigits(-i);
      ParseNegative(NatToString(-i));
    } else {
      NatToStringDigits(i);
      ParseUnsigned(NatToString(i));
    }
  }

  lemma IntRoundTrip(i: int)
    requires IntMin <= i <= IntMax
    ensures ParseInt(IntToString(i)) == Some(i)
  {
    SignedRoundTrip(i);
  }
}
