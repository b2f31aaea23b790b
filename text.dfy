/**
 * Character-level string functions with the meaning of the Rust `str`
 * methods the server calls. A Rust `String` is a sequence of Unicode scalar
 * values, as a Dafny `string` is; where the source measures or slices a
 * string in UTF-8 bytes, the byte count is made explicit (`Utf8Len`,
 * `Utf8Prefix`).
 */
module Text {
  import opened Maybe

  // ---------------------------------------------------------------------
  // Prefixes, suffixes and substrings

  predicate StartsWith(s: string, p: string) {
    |p| <= |s| && s[..|p|] == p
  }

  predicate EndsWith(s: string, p: string) {
    |p| <= |s| && s[|s| - |p|..] == p
  }

  /** One differing position is enough to rule a prefix out. */
  lemma DiffersAt(s: string, p: string, i: nat)
    requires i < |s| && i < |p| && s[i] != p[i]
    ensures !StartsWith(s, p)
  {
    if |p| <= |s| {
      assert s[..|p|][i] == s[i];
    }
  }

  /** `str::contains` with a string pattern. */
  predicate Contains(s: string, p: string)
    decreases |s|
  {
    StartsWith(s, p) || (s != [] && Contains(s[1..], p))
  }

  lemma StartsWithAppend(p: string, q: string)
    ensures StartsWith(p + q, p)
  {
    assert (p + q)[..|p|] == p;
  }

  /** A string contains every string pasted into it. */
  lemma {:induction false} ContainsInfix(a: string, p: string, b: string)
    ensures Contains(a + p + b, p)
    decreases |a|
  {
    if a == [] {
      assert a + p + b == p + b;
      StartsWithAppend(p, b);
    } else {
      assert (a + p + b)[1..] == a[1..] + p + b;
      ContainsInfix(a[1..], p, b);
    }
  }

  /** Text put in front keeps every occurrence. */
  lemma {:induction false} ContainsPrefixed(a: string, s: string, p: string)
    requires Contains(s, p)
    ensures Contains(a + s, p)
    decreases |a|
  {
    if a == [] {
      assert a + s == s;
    } else {
      assert (a + s)[1..] == a[1..] + s;
      ContainsPrefixed(a[1..], s, p);
    }
  }

  /** Text put behind keeps every occurrence. */
  lemma {:induction false} ContainsExtended(s: string, b: string, p: string)
    requires Contains(s, p)
    ensures Contains(s + b, p)
    decreases |s|
  {
    if StartsWith(s, p) {
      assert (s + b)[..|p|] == s[..|p|];
    } else {
      assert (s + b)[1..] == s[1..] + b;
      ContainsExtended(s[1..], b, p);
    }
  }

  /** A string starts with what it is built from first. */
  lemma ContainsHead(p: string, b: string)
    ensures Contains(p + b, p)
  {
    StartsWithAppend(p, b);
  }

  /** An occurrence is a slice of the string. */
  lemma {:induction false} ContainsAt(s: string, p: string) returns (i: nat)
    requires Contains(s, p)
    ensures i + |p| <= |s| && s[i..i + |p|] == p
    decreases |s|
  {
    if StartsWith(s, p) {
      i := 0;
    } else {
      var j := ContainsAt(s[1..], p);
      i := j + 1;
      assert s[i..i + |p|] == s[1..][j..j + |p|];
    }
  }

  /** What occurs in an occurrence occurs in the whole. */
  lemma ContainsTrans(s: string, t: string, u: string)
    requires Contains(s, t) && Contains(t, u)
    ensures Contains(s, u)
  {
    var i := ContainsAt(s, t);
    var j := ContainsAt(t, u);
    var k := i + j;
    assert s[k..k + |u|] == u;
    assert s == s[..k] + u + s[k + |u|..];
    ContainsInfix(s[..k], u, s[k + |u|..]);
  }

  /** A string cannot contain a pattern holding a character the string lacks. */
  lemma {:induction false} NotContainsMissingChar(s: string, p: string, c: char)
    requires c in p && c !in s
    ensures !Contains(s, p)
    decreases |s|
  {
    if s != [] {
      NotContainsMissingChar(s[1..], p, c);
    }
  }

  // ---------------------------------------------------------------------
  // Replacement

  /** `str::replace` with a `char` pattern: every occurrence of `c` becomes `r`. */
  function ReplaceChar(s: string, c: char, r: string): string
    decreases |s|
  {
    if s == [] then [] else (if s[0] == c then r else [s[0]]) + ReplaceChar(s[1..], c, r)
  }

  /** Replacing a single character distributes over concatenation. */
  lemma {:induction false} ReplaceCharAppend(a: string, b: string, c: char, r: string)
    ensures ReplaceChar(a + b, c, r) == ReplaceChar(a, c, r) + ReplaceChar(b, c, r)
    decreases |a|
  {
    if a == [] {
      assert a + b == b;
    } else {
      assert (a + b)[1..] == a[1..] + b;
      ReplaceCharAppend(a[1..], b, c, r);
    }
  }

  lemma ReplaceCharSingle(c: char, x: char, r: string)
    ensures ReplaceChar([c], x, r) == if c == x then r else [c]
  {
    assert [c][1..] == [];
  }

  lemma {:induction false} ReplaceCharAbsent(s: string, c: char, r: string)
    requires c !in s
    ensures ReplaceChar(s, c, r) == s
    decreases |s|
  {
    if s != [] {
      ReplaceCharAbsent(s[1..], c, r);
    }
  }

  // ---------------------------------------------------------------------
  // Trimming

  /** `char::is_whitespace`: the characters with the Unicode White_Space property. */
  predicate IsWhitespace(c: char) {
    c == ' ' || ('\t' <= c <= '\r') || c == '\U{85}' || c == '\U{A0}' || c == '\U{1680}'
    || ('\U{2000}' <= c <= '\U{200A}') || c == '\U{2028}' || c == '\U{2029}'
    || c == '\U{202F}' || c == '\U{205F}' || c == '\U{3000}'
  }

  /** `str::trim_start`. */
  function TrimStart(s: string): (t: string)
    ensures t == [] || !IsWhitespace(t[0])
    decreases |s|
  {
    if s != [] && IsWhitespace(s[0]) then TrimStart(s[1..]) else s
  }

  /** `str::trim_end`. */
  function TrimEnd(s: string): (t: string)
    ensures t == [] || !IsWhitespace(t[|t| - 1])
    decreases |s|
  {
    if s != [] && IsWhitespace(s[|s| - 1]) then TrimEnd(s[..|s| - 1]) else s
  }

  /** `str::trim`. */
  function Trim(s: string): string {
    TrimEnd(TrimStart(s))
  }

  /** A string with no whitespace at either end is its own trim. */
  lemma TrimUnchanged(s: string)
    requires s == [] || (!IsWhitespace(s[0]) && !IsWhitespace(s[|s| - 1]))
    ensures Trim(s) == s
  {
  }

  /** `str::trim_start_matches` with a `char` pattern: all leading `c` removed. */
  function TrimStartMatches(s: string, c: char): (t: string)
    ensures t == [] || t[0] != c
    ensures EndsWith(s, t)
    decreases |s|
  {
    if s != [] && s[0] == c then
      var t := TrimStartMatches(s[1..], c);
      assert s[1..][|s| - 1 - |t|..] == s[|s| - |t|..];
      t
    else s
  }

  /** `str::trim_end_matches` with a string pattern: every trailing repetition of `p` removed. */
  function TrimEndMatches(s: string, p: string): (t: string)
    ensures p != [] ==> !EndsWith(t, p)
    ensures StartsWith(s, t)
    decreases |s|
  {
    if p != [] && EndsWith(s, p) then TrimEndMatches(s[..|s| - |p|], p) else s
  }

  // ---------------------------------------------------------------------
  // Splitting

  /** `str::split` with a `char` separator: the pieces between separators, always at least one. */
  function Split(s: string, sep: char): (parts: seq<string>)
    ensures |parts| >= 1
    ensures forall i :: 0 <= i < |parts| ==> sep !in parts[i]
    decreases |s|
  {
    if s == [] then [[]]
    else if s[0] == sep then [[]] + Split(s[1..], sep)
    else
      var rest := Split(s[1..], sep);
      [[s[0]] + rest[0]] + rest[1..]
  }

  /** `[&str]::join` with a one-character separator. */
  function Join(parts: seq<string>, sep: char): string
    decreases |parts|
  {
    if |parts| == 0 then []
    else if |parts| == 1 then parts[0]
    else parts[0] + [sep] + Join(parts[1..], sep)
  }

  /** Splitting loses nothing: joining the pieces gives the string back. */
  lemma {:induction false} JoinSplit(s: string, sep: char)
    ensures Join(Split(s, sep), sep) == s
    decreases |s|
  {
    if s == [] {
    } else if s[0] == sep {
      var rest := Split(s[1..], sep);
      JoinSplit(s[1..], sep);
      assert ([[]] + rest)[1..] == rest;
      assert Join([[]] + rest, sep) == [] + [sep] + Join(rest, sep);
      assert s == [sep] + s[1..];
    } else {
      var rest := Split(s[1..], sep);
      JoinSplit(s[1..], sep);
      var parts := [[s[0]] + rest[0]] + rest[1..];
      assert parts[1..] == rest[1..];
      if |rest| == 1 {
        assert Join(parts, sep) == [s[0]] + rest[0];
      } else {
        assert Join(rest, sep) == rest[0] + [sep] + Join(rest[1..], sep);
        assert Join(parts, sep) == [s[0]] + rest[0] + [sep] + Join(rest[1..], sep);
      }
      assert s == [s[0]] + s[1..];
    }
  }

  /** A separator splits the string into the pieces of its two sides. */
  lemma {:induction false} SplitSeparated(a: string, b: string, sep: char)
    ensures Split(a + [sep] + b, sep) == Split(a, sep) + Split(b, sep)
    decreases |a|
  {
    if a == [] {
      assert a + [sep] + b == [sep] + b;
      assert ([sep] + b)[1..] == b;
    } else {
      assert (a + [sep] + b)[1..] == a[1..] + [sep] + b;
      assert (a + [sep] + b)[0] == a[0];
      SplitSeparated(a[1..], b, sep);
    }
  }

  lemma {:induction false} SplitWithoutSeparator(s: string, sep: char)
    requires sep !in s
    ensures Split(s, sep) == [s]
    decreases |s|
  {
    if s != [] {
      SplitWithoutSeparator(s[1..], sep);
      assert s == [s[0]] + s[1..];
    }
  }

  /** A leading piece without the separator comes out first. */
  lemma SplitCons(a: string, b: string, sep: char)
    requires sep !in a
    ensures Split(a + [sep] + b, sep) == [a] + Split(b, sep)
  {
    SplitSeparated(a, b, sep);
    SplitWithoutSeparator(a, sep);
  }

  /** The last piece of `split(sep)` is what follows the last separator. */
  lemma LastPieceAfterSeparator(a: string, b: string, sep: char)
    requires sep !in b
    ensures var parts := Split(a + [sep] + b, sep); parts[|parts| - 1] == b
  {
    SplitSeparated(a, b, sep);
    SplitWithoutSeparator(b, sep);
  }

  // ---------------------------------------------------------------------
  // Lines

  /** Removes one trailing carriage return. */
  function StripCr(line: string): string {
    if line != [] && line[|line| - 1] == '\r' then line[..|line| - 1] else line
  }

  /**
   * `str::lines`: the pieces between `\n`s, each with one `\r` that stood
   * right before its `\n` removed; a final `\n` does not start an empty line,
   * and the empty string has no lines.
   */
  function Lines(s: string): seq<string> {
    if s == [] then []
    else
      var parts := Split(s, '\n');
      var ended := StripEach(parts[..|parts| - 1]);
      if s[|s| - 1] == '\n' then ended else ended + [parts[|parts| - 1]]
  }

  function StripEach(pieces: seq<string>): (r: seq<string>)
    ensures |r| == |pieces|
  {
    seq(|pieces|, i requires 0 <= i < |pieces| => StripCr(pieces[i]))
  }

  /** Lines each terminated by CR LF, as the iCalendar content-line rule asks. */
  function CrlfLines(ls: seq<string>): string
    decreases |ls|
  {
    if ls == [] then [] else ls[0] + "\r\n" + CrlfLines(ls[1..])
  }

  lemma {:induction false} CrlfLinesAppend(a: seq<string>, b: seq<string>)
    ensures CrlfLines(a + b) == CrlfLines(a) + CrlfLines(b)
    decreases |a|
  {
    if a == [] {
      assert a + b == b;
    } else {
      assert (a + b)[0] == a[0];
      assert (a + b)[1..] == a[1..] + b;
      CrlfLinesAppend(a[1..], b);
    }
  }

  function WithCr(ls: seq<string>): (r: seq<string>)
    ensures |r| == |ls|
  {
    seq(|ls|, i requires 0 <= i < |ls| => ls[i] + "\r")
  }

  lemma {:induction false} SplitCrlfLines(ls: seq<string>)
    requires forall i :: 0 <= i < |ls| ==> '\n' !in ls[i]
    ensures Split(CrlfLines(ls), '\n') == WithCr(ls) + [[]]
    decreases |ls|
  {
    if ls != [] {
      var rest := CrlfLines(ls[1..]);
      assert CrlfLines(ls) == (ls[0] + "\r") + ['\n'] + rest;
      SplitSeparated(ls[0] + "\r", rest, '\n');
      SplitWithoutSeparator(ls[0] + "\r", '\n');
      SplitCrlfLines(ls[1..]);
      assert WithCr(ls) == [ls[0] + "\r"] + WithCr(ls[1..]);
    }
  }

  lemma StripEachWithCr(ls: seq<string>)
    ensures StripEach(WithCr(ls)) == ls
  {
    forall i | 0 <= i < |ls|
      ensures StripCr(ls[i] + "\r") == ls[i]
    {
      assert (ls[i] + "\r")[..|ls[i]|] == ls[i];
    }
  }

  /** Reading CR LF terminated lines back with `str::lines` gives exactly those lines. */
  lemma LinesOfCrlfLines(ls: seq<string>)
    requires forall i :: 0 <= i < |ls| ==> '\n' !in ls[i]
    ensures Lines(CrlfLines(ls)) == ls
  {
    if ls != [] {
      var s := CrlfLines(ls);
      CrlfLinesEnd(ls);
      SplitCrlfLines(ls);
      var parts := Split(s, '\n');
      assert parts[..|parts| - 1] == WithCr(ls);
      StripEachWithCr(ls);
    }
  }

  /** No line holds a line feed. */
  predicate NoNewlines(ls: seq<string>) {
    forall i :: 0 <= i < |ls| ==> '\n' !in ls[i]
  }

  lemma NoNewlinesAppend(a: seq<string>, b: seq<string>)
    requires NoNewlines(a) && NoNewlines(b)
    ensures NoNewlines(a + b)
  {
    forall i | 0 <= i < |a + b|
      ensures '\n' !in (a + b)[i]
    {
      if i >= |a| {
        assert (a + b)[i] == b[i - |a|];
      }
    }
  }

  /** Three runs of CR LF terminated lines read back as one run. */
  lemma LinesOfCrlfLines3(a: seq<string>, b: seq<string>, c: seq<string>)
    requires NoNewlines(a) && NoNewlines(b) && NoNewlines(c)
    ensures Lines(CrlfLines(a) + CrlfLines(b) + CrlfLines(c)) == a + b + c
  {
    CrlfLinesAppend(a, b);
    CrlfLinesAppend(a + b, c);
    NoNewlinesAppend(a, b);
    NoNewlinesAppend(a + b, c);
    LinesOfCrlfLines(a + b + c);
  }

  lemma {:induction false} CrlfLinesEnd(ls: seq<string>)
    requires ls != []
    ensures var s := CrlfLines(ls); |s| >= 2 && s[|s| - 1] == '\n'
    decreases |ls|
  {
    if |ls| > 1 {
      CrlfLinesEnd(ls[1..]);
    }
  }

  // ---------------------------------------------------------------------
  // UTF-8 byte measure

  /** Number of bytes of `c` in UTF-8. */
  function Utf8Width(c: char): nat {
    if c as int < 0x80 then 1 else if c as int < 0x800 then 2 else if c as int < 0x10000 then 3 else 4
  }

  /** `str::len`: the length in UTF-8 bytes. */
  function Utf8Len(s: string): nat
    decreases |s|
  {
    if s == [] then 0 else Utf8Width(s[0]) + Utf8Len(s[1..])
  }

  /**
   * `&s[..n]`: the prefix made of exactly `n` bytes, or None where Rust
   * panics (`n` past the end, or inside a multi-byte character).
   */
  function Utf8Prefix(s: string, n: nat): (r: Option<string>)
    ensures r.Some? ==> StartsWith(s, r.value) && Utf8Len(r.value) == n
    decreases |s|
  {
    if n == 0 then Some([])
    else if s == [] || Utf8Width(s[0]) > n then None
    else
      match Utf8Prefix(s[1..], n - Utf8Width(s[0]))
      case None => None
      case Some(p) =>
        assert ([s[0]] + p)[1..] == p;
        Some([s[0]] + p)
  }

  /** Asking for more bytes than the string has always panics. */
  lemma {:induction false} Utf8PrefixTooShort(s: string, n: nat)
    requires Utf8Len(s) < n
    ensures Utf8Prefix(s, n).None?
    decreases |s|
  {
    if s != [] && Utf8Width(s[0]) <= n {
      Utf8PrefixTooShort(s[1..], n - Utf8Width(s[0]));
    }
  }

  predicate IsAscii(s: string) {
    forall i :: 0 <= i < |s| ==> s[i] as int < 0x80
  }

  lemma {:induction false} AsciiUtf8Len(s: string)
    requires IsAscii(s)
    ensures Utf8Len(s) == |s|
    decreases |s|
  {
    if s != [] {
      AsciiUtf8Len(s[1..]);
    }
  }

  lemma {:induction false} AsciiUtf8Prefix(s: string, n: nat)
    requires IsAscii(s) && n <= |s|
    ensures Utf8Prefix(s, n) == Some(s[..n])
    decreases |s|
  {
    if n > 0 {
      AsciiUtf8Prefix(s[1..], n - 1);
      assert [s[0]] + s[1..][..n - 1] == s[..n];
    }
  }

  // ---------------------------------------------------------------------
  // Decimal digits

  predicate IsDigit(c: char) {
    '0' <= c <= '9'
  }

  predicate AllDigits(s: string) {
    forall i :: 0 <= i < |s| ==> IsDigit(s[i])
  }

  /** The number a string of decimal digits denotes. */
  function DigitsValue(s: string): nat
    requires AllDigits(s)
    decreases |s|
  {
    if s == [] then 0 else 10 * DigitsValue(s[..|s| - 1]) + (s[|s| - 1] as int - '0' as int)
  }

  function DigitChar(d: nat): (c: char)
    requires d < 10
    ensures IsDigit(c)
  {
    ('0' as int + d) as char
  }

  function Pow10(w: nat): nat {
    if w == 0 then 1 else 10 * Pow10(w - 1)
  }

  /** `n` in exactly `width` decimal digits, zero-padded (`{:0width}`). */
  function PadDigits(n: nat, width: nat): (s: string)
    ensures |s| == width && AllDigits(s)
  {
    if width == 0 then [] else PadDigits(n / 10, width - 1) + [DigitChar(n % 10)]
  }

  /** Zero-padded formatting is read back as the same number. */
  lemma {:induction false} PadDigitsValue(n: nat, width: nat)
    requires n < Pow10(width)
    ensures DigitsValue(PadDigits(n, width)) == n
  {
    if width > 0 {
      var front := PadDigits(n / 10, width - 1);
      assert n / 10 < Pow10(width - 1);
      PadDigitsValue(n / 10, width - 1);
      var s := front + [DigitChar(n % 10)];
      assert s[..|s| - 1] == front;
    }
  }

  /** `n.to_string()` for a natural number. */
  function Decimal(n: nat): (s: string)
    ensures s != [] && AllDigits(s)
  {
    if n < 10 then [DigitChar(n)] else Decimal(n / 10) + [DigitChar(n % 10)]
  }

  /** Decimal formatting is read back as the same number. */
  lemma {:induction false} DecimalValue(n: nat)
    ensures DigitsValue(Decimal(n)) == n
  {
    if n < 10 {
      assert Decimal(n)[..0] == [];
    } else {
      DecimalValue(n / 10);
      var s := Decimal(n);
      assert s[..|s| - 1] == Decimal(n / 10);
    }
  }
}
