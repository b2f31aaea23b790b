/**
 * Identifiers of users, calendars, events and shares. The model keeps the
 * canonical text that `Uuid::to_string` produces (8-4-4-4-12 lower-case
 * hexadecimal digits). `Uuid::parse_str` also accepts upper-case digits and
 * the simple, braced and URN forms, and yields the same identifier.
 */
module Uuids {
  import opened Maybe
  import opened Text

  datatype Uuid = Uuid(text: string)

  predicate IsLowerHex(c: char) {
    '0' <= c <= '9' || 'a' <= c <= 'f'
  }

  predicate IsHyphenPosition(i: int) {
    i == 8 || i == 13 || i == 18 || i == 23
  }

  predicate IsCanonical(s: string) {
    |s| == 36 && forall i :: 0 <= i < 36 ==> if IsHyphenPosition(i) then s[i] == '-' else IsLowerHex(s[i])
  }

  /** An identifier the store can hold: its text is canonical. */
  predicate ValidUuid(u: Uuid) {
    IsCanonical(u.text)
  }

  /** `Uuid::to_string`. */
  function ToString(u: Uuid): string {
    u.text
  }

  predicate IsHex(c: char) {
    '0' <= c <= '9' || 'a' <= c <= 'f' || 'A' <= c <= 'F'
  }

  /** A hexadecimal digit in lower case. */
  function HexLower(c: char): (d: char)
    requires IsHex(c)
    ensures IsLowerHex(d)
    ensures IsLowerHex(c) ==> d == c
  {
    if 'A' <= c <= 'F' then (c as int - 'A' as int + 'a' as int) as char else c
  }

  /** The 8-4-4-4-12 layout, digits in either case. */
  predicate IsHyphenated(s: string) {
    |s| == 36 && forall i :: 0 <= i < 36 ==> if IsHyphenPosition(i) then s[i] == '-' else IsHex(s[i])
  }

  /** The simple form: 32 digits, no hyphens. */
  predicate IsSimple(s: string) {
    |s| == 32 && forall i :: 0 <= i < 32 ==> IsHex(s[i])
  }

  const UrnPrefix := "urn:uuid:"

  /** The four forms `parse_str` accepts: hyphenated, simple, braced and URN. */
  predicate IsUuidText(s: string) {
    || IsHyphenated(s)
    || IsSimple(s)
    || (|s| == 38 && s[0] == '{' && s[37] == '}' && IsHyphenated(s[1..37]))
    || (|s| == 45 && s[..9] == UrnPrefix && IsHyphenated(s[9..]))
  }

  /** Lower-cases the digits of hyphenated text, giving canonical text. */
  function LowerHyphenated(s: string): (t: string)
    requires IsHyphenated(s)
    ensures IsCanonical(t)
    ensures IsCanonical(s) ==> t == s
  {
    seq(36, i requires 0 <= i < 36 => if IsHyphenPosition(i) then '-' else HexLower(s[i]))
  }

  /** Puts the hyphens into simple-form text. */
  function Hyphenate(s: string): (t: string)
    requires IsSimple(s)
    ensures IsHyphenated(t)
  {
    var t := s[0..8] + "-" + s[8..12] + "-" + s[12..16] + "-" + s[16..20] + "-" + s[20..32];
    assert forall i :: 0 <= i < 36 ==> t[i] == (if i < 8 then s[i] else if i == 8 then '-'
      else if i < 13 then s[i - 1] else if i == 13 then '-' else if i < 18 then s[i - 2]
      else if i == 18 then '-' else if i < 23 then s[i - 3] else if i == 23 then '-' else s[i - 4]);
    t
  }

  /** `Uuid::parse_str`: one of the four forms, digits in either case; the identifier is its canonical text. */
  function ParseUuid(s: string): (r: Option<Uuid>)
    ensures r.Some? <==> IsUuidText(s)
    ensures r.Some? ==> ValidUuid(r.value)
    ensures IsCanonical(s) ==> r == Some(Uuid(s))
  {
    if IsHyphenated(s) then Some(Uuid(LowerHyphenated(s)))
    else if IsSimple(s) then Some(Uuid(LowerHyphenated(Hyphenate(s))))
    else if |s| == 38 && s[0] == '{' && s[37] == '}' && IsHyphenated(s[1..37]) then Some(Uuid(LowerHyphenated(s[1..37])))
    else if |s| == 45 && s[..9] == UrnPrefix && IsHyphenated(s[9..]) then Some(Uuid(LowerHyphenated(s[9..])))
    else None
  }

  /** Printing and parsing an identifier gives it back. */
  lemma ParseToString(u: Uuid)
    requires ValidUuid(u)
    ensures ParseUuid(ToString(u)) == Some(u)
  {
  }

  /** The upper-case spelling of a digit. */
  function HexUpper(c: char): char {
    if 'a' <= c <= 'f' then (c as int - 'a' as int + 'A' as int) as char else c
  }

  /** The other spellings `parse_str` accepts name the same identifier. */
  lemma ParseOtherForms(u: Uuid)
    requires ValidUuid(u)
    ensures ParseUuid(seq(36, i requires 0 <= i < 36 => HexUpper(u.text[i]))) == Some(u)
    ensures ParseUuid("{" + u.text + "}") == Some(u)
    ensures ParseUuid(UrnPrefix + u.text) == Some(u)
  {
    var up := seq(36, i requires 0 <= i < 36 => HexUpper(u.text[i]));
    assert IsHyphenated(up);
    assert LowerHyphenated(up) == u.text;
    var braced := "{" + u.text + "}";
    assert braced[1..37] == u.text;
    assert !IsHyphenated(braced) && !IsSimple(braced);
    var urn := UrnPrefix + u.text;
    assert urn[..9] == UrnPrefix && urn[9..] == u.text;
    assert !IsHyphenated(urn) && !IsSimple(urn);
  }

  /** Simple-form text names the identifier with those digits. */
  lemma ParseSimple(u: Uuid)
    requires ValidUuid(u)
    ensures ParseUuid(u.text[0..8] + u.text[9..13] + u.text[14..18] + u.text[19..23] + u.text[24..36]) == Some(u)
  {
    var t := u.text;
    var s := t[0..8] + t[9..13] + t[14..18] + t[19..23] + t[24..36];
    assert forall i :: 0 <= i < 32 ==> s[i] == (if i < 8 then t[i] else if i < 12 then t[i + 1]
      else if i < 16 then t[i + 2] else if i < 20 then t[i + 3] else t[i + 4]);
    assert IsSimple(s);
    assert s[0..8] == t[0..8] && s[8..12] == t[9..13] && s[12..16] == t[14..18];
    assert s[16..20] == t[19..23] && s[20..32] == t[24..36];
    assert t == t[0..8] + "-" + t[9..13] + "-" + t[14..18] + "-" + t[19..23] + "-" + t[24..36];
  }

  /** The text of an identifier holds only hexadecimal digits and hyphens. */
  lemma UuidChar(u: Uuid, c: char)
    requires ValidUuid(u) && c in u.text
    ensures c == '-' || IsLowerHex(c)
  {
    var i :| 0 <= i < |u.text| && u.text[i] == c;
  }

  /** Identifier text holds no line break, colon, equals sign or quote. */
  lemma UuidNoPunctuation(u: Uuid)
    requires ValidUuid(u)
    ensures '\n' !in u.text && ':' !in u.text && '=' !in u.text && '"' !in u.text && '/' !in u.text
  {
    forall c | c in u.text
      ensures c == '-' || IsLowerHex(c)
    {
      UuidChar(u, c);
    }
  }

  /** Identifier text is plain ASCII. */
  lemma UuidAscii(u: Uuid)
    requires ValidUuid(u)
    ensures IsAscii(u.text)
  {
    forall i | 0 <= i < |u.text|
      ensures u.text[i] as int < 0x80
    {
      UuidChar(u, u.text[i]);
    }
  }

  /** `trim_end_matches(".ics")` on `<id>.ics` gives back the identifier text. */
  lemma IcsSuffixRemoved(u: Uuid)
    requires ValidUuid(u)
    ensures TrimEndMatches(u.text + ".ics", ".ics") == u.text
  {
    var s := u.text + ".ics";
    assert EndsWith(s, ".ics");
    assert s[..|s| - 4] == u.text;
    UuidChar(u, u.text[35]);
    assert !EndsWith(u.text, ".ics") by {
      assert u.text[35] != 's';
    }
  }
}
