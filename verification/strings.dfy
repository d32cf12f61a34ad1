/** The string operations of Rust's standard library that the translator
    relies on: `format!("{}", n)` for an unsigned integer, `str::parse::<usize>`,
    `split`, `trim_end_matches`, `starts_with` and `trim`'s notion of white
    space. Strings are `seq<char>`; no Unicode normalisation is involved. */
module Strings {
  import opened Wrappers

  // ---------------------------------------------------------------------
  // Decimal rendering and parsing
  // ---------------------------------------------------------------------

  predicate IsDigit(c: char) {
    '0' <= c <= '9'
  }

  /** A non-empty run of ASCII decimal digits: what `usize::parse` accepts
      (a leading `+` and overflow past `usize::MAX` are not modelled). */
  predicate IsDigits(s: string) {
    |s| > 0 && forall i :: 0 <= i < |s| ==> IsDigit(s[i])
  }

  function DigitChar(d: nat): (c: char)
    requires d < 10
    ensures IsDigit(c)
    ensures c as int - '0' as int == d
  {
    ('0' as int + d) as char
  }

  /** `format!("{}", n)`: the shortest decimal rendering of `n`. */
  function NatToString(n: nat): (s: string)
    ensures IsDigits(s)
    ensures s[0] == '0' <==> n == 0
    decreases n
  {
    if n < 10 then [DigitChar(n)] else NatToString(n / 10) + [DigitChar(n % 10)]
  }

  /** Value of a string of digits, most significant first. */
  function DigitsValue(s: string): nat
    requires forall i :: 0 <= i < |s| ==> IsDigit(s[i])
  {
    if |s| == 0 then 0
    else DigitsValue(s[..|s| - 1]) * 10 + DigitOf(s[|s| - 1])
  }

  function DigitOf(c: char): nat
    requires IsDigit(c)
  {
    c as int - '0' as int
  }

  /** `s.parse::<usize>()`: `Some` exactly for a non-empty run of digits. */
  function ParseNat(s: string): (r: Option<nat>)
    ensures r.Some? <==> IsDigits(s)
  {
    if IsDigits(s) then Some(DigitsValue(s)) else None
  }

  /** Rendering then parsing gives the number back. */
  lemma {:induction false} ParseNatToString(n: nat)
    ensures ParseNat(NatToString(n)) == Some(n)
    decreases n
  {
    var s := NatToString(n);
    if n >= 10 {
      ParseNatToString(n / 10);
      assert s[..|s| - 1] == NatToString(n / 10);
      assert DigitOf(s[|s| - 1]) == n % 10;
      assert DigitsValue(s) == (n / 10) * 10 + n % 10;
    } else {
      assert DigitsValue(s) == DigitsValue(s[..0]) * 10 + DigitOf(s[0]);
    }
  }

  /** A leading zero does not change the value parsed. */
  lemma ParseNatLeadingZero(s: string)
    requires IsDigits(s)
    ensures ParseNat("0" + s) == ParseNat(s)
  {
    LeadingZeroValue(s);
  }

  lemma {:induction false} LeadingZeroValue(s: string)
    requires forall i :: 0 <= i < |s| ==> IsDigit(s[i])
    ensures DigitsValue("0" + s) == DigitsValue(s)
    decreases |s|
  {
    var t := "0" + s;
    if |s| == 0 {
      assert t[..0] == [];
    } else {
      assert t[..|t| - 1] == "0" + s[..|s| - 1];
      LeadingZeroValue(s[..|s| - 1]);
    }
  }

  /** `push constant 007` pushes 7. */
  lemma ParseNatPadded()
    ensures ParseNat("007") == Some(7)
  {
    ParseNatToString(7);
    assert NatToString(7) == "7";
    ParseNatLeadingZero("7");
    assert "0" + "7" == "07";
    ParseNatLeadingZero("07");
    assert "0" + "07" == "007";
  }

  /** Distinct numbers render to distinct strings. */
  lemma NatToStringInjective(m: nat, n: nat)
    ensures NatToString(m) == NatToString(n) <==> m == n
  {
    if NatToString(m) == NatToString(n) {
      ParseNatToString(m);
      ParseNatToString(n);
    }
  }

  // ---------------------------------------------------------------------
  // Prefixes, suffixes, white space
  // ---------------------------------------------------------------------

  predicate StartsWith(s: string, prefix: string) {
    |prefix| <= |s| && s[..|prefix|] == prefix
  }

  predicate EndsWith(s: string, suffix: string) {
    |suffix| <= |s| && s[|s| - |suffix|..] == suffix
  }

  /** `char::is_whitespace`: the Unicode White_Space property. */
  predicate IsWhitespace(c: char) {
    var u := c as int;
    || u == 0x20 || (0x09 <= u <= 0x0D)
    || u == 0x85 || u == 0xA0 || u == 0x1680
    || (0x2000 <= u <= 0x200A)
    || u == 0x2028 || u == 0x2029 || u == 0x202F || u == 0x205F || u == 0x3000
  }

  /** `s.trim() == ""`: every character of `s` is white space. */
  predicate IsBlank(s: string) {
    forall i :: 0 <= i < |s| ==> IsWhitespace(s[i])
  }

  /** `s.trim_end_matches(suffix)`: strips `suffix` from the end as often as
      it occurs there. An empty pattern leaves the string alone. */
  function TrimEndMatches(s: string, suffix: string): (r: string)
    ensures StartsWith(s, r)
    ensures |suffix| > 0 ==> !EndsWith(r, suffix)
    ensures !EndsWith(s, suffix) ==> r == s
    decreases |s|
  {
    if |suffix| > 0 && EndsWith(s, suffix) then
      TrimEndMatches(s[..|s| - |suffix|], suffix)
    else s
  }

  /** `suffix` repeated `k` times. */
  function Repeat(suffix: string, k: nat): string {
    if k == 0 then "" else suffix + Repeat(suffix, k - 1)
  }

  /** What `trim_end_matches` removes is a whole number of copies of the
      pattern: the input is the result followed by `k` copies. */
  lemma {:induction false} TrimEndMatchesRemovesCopies(s: string, suffix: string)
    ensures exists k: nat :: s == TrimEndMatches(s, suffix) + Repeat(suffix, k)
    decreases |s|
  {
    if |suffix| > 0 && EndsWith(s, suffix) {
      var t := s[..|s| - |suffix|];
      TrimEndMatchesRemovesCopies(t, suffix);
      var k: nat :| t == TrimEndMatches(t, suffix) + Repeat(suffix, k);
      RepeatAppend(suffix, k);
      assert s == t + suffix;
      assert s == TrimEndMatches(s, suffix) + Repeat(suffix, k + 1);
    } else {
      assert s == TrimEndMatches(s, suffix) + Repeat(suffix, 0);
    }
  }

  lemma {:induction false} RepeatAppend(suffix: string, k: nat)
    ensures Repeat(suffix, k) + suffix == Repeat(suffix, k + 1)
  {
    if k > 0 {
      RepeatAppend(suffix, k - 1);
    }
  }

  // ---------------------------------------------------------------------
  // Splitting on a single character
  // ---------------------------------------------------------------------

  /** `s.split(sep)` for a one-character pattern: every occurrence of `sep`
      separates two pieces, so adjacent separators produce empty pieces and
      the result is never empty. */
  function Split(s: string, sep: char): (r: seq<string>)
    ensures |r| >= 1
    ensures forall k, i :: 0 <= k < |r| && 0 <= i < |r[k]| ==> r[k][i] != sep
    decreases |s|
  {
    if |s| == 0 then [""]
    else if s[0] == sep then [""] + Split(s[1..], sep)
    else
      var rest := Split(s[1..], sep);
      [[s[0]] + rest[0]] + rest[1..]
  }

  /** `pieces.join(sep)`. */
  function Join(pieces: seq<string>, sep: char): string
    requires |pieces| >= 1
  {
    if |pieces| == 1 then pieces[0] else pieces[0] + [sep] + Join(pieces[1..], sep)
  }

  /** Splitting loses nothing: joining the pieces with the separator gives
      back the original string. */
  lemma {:induction false} JoinSplit(s: string, sep: char)
    ensures Join(Split(s, sep), sep) == s
    decreases |s|
  {
    if |s| == 0 {
    } else if s[0] == sep {
      JoinSplit(s[1..], sep);
      assert s == [sep] + s[1..];
    } else {
      var rest := Split(s[1..], sep);
      JoinSplit(s[1..], sep);
      if |rest| == 1 {
        assert s == [s[0]] + rest[0];
      } else {
        assert rest[1..][1..] == rest[2..];
        assert Join(rest, sep) == rest[0] + [sep] + Join(rest[1..], sep);
        assert s == [s[0]] + s[1..];
      }
    }
  }

  /** A string without the separator is a single piece. */
  lemma {:induction false} SplitWithoutSeparator(s: string, sep: char)
    requires forall i :: 0 <= i < |s| ==> s[i] != sep
    ensures Split(s, sep) == [s]
    decreases |s|
  {
    if |s| > 0 {
      SplitWithoutSeparator(s[1..], sep);
      assert [s[0]] + s[1..] == s;
    }
  }

  /** A piece without the separator, then the separator: splitting peels
      that piece off. */
  lemma {:induction false} SplitAfterPiece(piece: string, rest: string, sep: char)
    requires forall i :: 0 <= i < |piece| ==> piece[i] != sep
    ensures Split(piece + [sep] + rest, sep) == [piece] + Split(rest, sep)
    decreases |piece|
  {
    var s := piece + [sep] + rest;
    if |piece| == 0 {
      assert s == [sep] + rest;
    } else {
      assert s[1..] == piece[1..] + [sep] + rest;
      SplitAfterPiece(piece[1..], rest, sep);
      assert [s[0]] + piece[1..] == piece;
    }
  }

  /** Three pieces, each followed by the separator, then the rest. */
  lemma SplitThreeThenRest(a: string, b: string, c: string, rest: string, sep: char)
    requires forall i :: 0 <= i < |a| ==> a[i] != sep
    requires forall i :: 0 <= i < |b| ==> b[i] != sep
    requires forall i :: 0 <= i < |c| ==> c[i] != sep
    ensures Split(a + [sep] + b + [sep] + c + [sep] + rest, sep) == [a, b, c] + Split(rest, sep)
  {
    var t := c + [sep] + rest;
    var u := b + [sep] + t;
    assert a + [sep] + b + [sep] + c + [sep] + rest == a + [sep] + u;
    SplitAfterPiece(c, rest, sep);
    SplitAfterPiece(b, t, sep);
    SplitAfterPiece(a, u, sep);
    assert [a] + ([b] + ([c] + Split(rest, sep))) == [a, b, c] + Split(rest, sep);
  }

  /** Three pieces joined by the separator. */
  lemma SplitThree(a: string, b: string, c: string, sep: char)
    requires forall i :: 0 <= i < |a| ==> a[i] != sep
    requires forall i :: 0 <= i < |b| ==> b[i] != sep
    requires forall i :: 0 <= i < |c| ==> c[i] != sep
    ensures Split(a + [sep] + b + [sep] + c, sep) == [a, b, c]
  {
    var u := b + [sep] + c;
    assert a + [sep] + b + [sep] + c == a + [sep] + u;
    SplitWithoutSeparator(c, sep);
    SplitAfterPiece(b, c, sep);
    SplitAfterPiece(a, u, sep);
    assert [a] + ([b] + [c]) == [a, b, c];
  }

  /** Joining pieces that do not contain the separator and splitting
      again gives the pieces back. */
  lemma {:induction false} SplitJoin(pieces: seq<string>, sep: char)
    requires |pieces| >= 1
    requires forall k, i :: 0 <= k < |pieces| && 0 <= i < |pieces[k]| ==> pieces[k][i] != sep
    ensures Split(Join(pieces, sep), sep) == pieces
    decreases |pieces|
  {
    if |pieces| == 1 {
      SplitWithoutSeparator(pieces[0], sep);
    } else {
      assert forall i :: 0 <= i < |pieces[0]| ==> pieces[0][i] != sep;
      SplitAfterPiece(pieces[0], Join(pieces[1..], sep), sep);
      SplitJoin(pieces[1..], sep);
    }
  }
}
