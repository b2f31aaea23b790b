/**
 * `escape_xml`: the five markup characters of section 2.4 of XML 1.0 are
 * replaced by their predefined entity references (section 4.6 of XML 1.0),
 * ampersand first.
 */
module XmlEscape {
  import opened Text

  predicate IsMarkup(c: char) {
    c == '&' || c == '<' || c == '>' || c == '"' || c == '\''
  }

  /** `escape_xml`: five `str::replace` calls in source order. */
  function EscapeXml(s: string): string {
    ReplaceChar(ReplaceChar(ReplaceChar(ReplaceChar(ReplaceChar(s, '&', "&amp;"), '<', "&lt;"), '>', "&gt;"), '"', "&quot;"), '\'', "&apos;")
  }

  /** The entity reference of one character. */
  function EntityOf(c: char): (r: string)
    ensures r != []
  {
    if c == '&' then "&amp;"
    else if c == '<' then "&lt;"
    else if c == '>' then "&gt;"
    else if c == '"' then "&quot;"
    else if c == '\'' then "&apos;"
    else [c]
  }

  /** Reference escape: each character replaced on its own. */
  function EscapeEachXml(s: string): string
    decreases |s|
  {
    if s == [] then [] else EntityOf(s[0]) + EscapeEachXml(s[1..])
  }

  /** Reference decoder of the five predefined entities; any other text is literal. */
  function UnescapeXml(s: string): string
    decreases |s|
  {
    if s == [] then []
    else if StartsWith(s, "&amp;") then "&" + UnescapeXml(s[5..])
    else if StartsWith(s, "&lt;") then "<" + UnescapeXml(s[4..])
    else if StartsWith(s, "&gt;") then ">" + UnescapeXml(s[4..])
    else if StartsWith(s, "&quot;") then "\"" + UnescapeXml(s[6..])
    else if StartsWith(s, "&apos;") then "'" + UnescapeXml(s[6..])
    else [s[0]] + UnescapeXml(s[1..])
  }

  lemma EscapeXmlAppend(a: string, b: string)
    ensures EscapeXml(a + b) == EscapeXml(a) + EscapeXml(b)
  {
    var r1a, r1b := ReplaceChar(a, '&', "&amp;"), ReplaceChar(b, '&', "&amp;");
    ReplaceCharAppend(a, b, '&', "&amp;");
    var r2a, r2b := ReplaceChar(r1a, '<', "&lt;"), ReplaceChar(r1b, '<', "&lt;");
    ReplaceCharAppend(r1a, r1b, '<', "&lt;");
    var r3a, r3b := ReplaceChar(r2a, '>', "&gt;"), ReplaceChar(r2b, '>', "&gt;");
    ReplaceCharAppend(r2a, r2b, '>', "&gt;");
    var r4a, r4b := ReplaceChar(r3a, '"', "&quot;"), ReplaceChar(r3b, '"', "&quot;");
    ReplaceCharAppend(r3a, r3b, '"', "&quot;");
    ReplaceCharAppend(r4a, r4b, '\'', "&apos;");
  }

  /** Once a character has become its entity, the later replaces leave it alone. */
  lemma EntityStays(e: string)
    requires '<' !in e && '>' !in e && '"' !in e && '\'' !in e
    ensures ReplaceChar(ReplaceChar(ReplaceChar(ReplaceChar(e, '<', "&lt;"), '>', "&gt;"), '"', "&quot;"), '\'', "&apos;") == e
  {
    ReplaceCharAbsent(e, '<', "&lt;");
    ReplaceCharAbsent(e, '>', "&gt;");
    ReplaceCharAbsent(e, '"', "&quot;");
    ReplaceCharAbsent(e, '\'', "&apos;");
  }

  /**
   * Four replaces in a row on one character: the first that matches it
   * decides the result, because no replacement holds a character that a
   * later replace looks for.
   */
  lemma ReplaceChainSingle(c: char, x1: char, r1: string, x2: char, r2: string, x3: char, r3: string, x4: char, r4: string)
    requires x2 !in r1 && x3 !in r1 && x4 !in r1
    requires x3 !in r2 && x4 !in r2
    requires x4 !in r3
    ensures ReplaceChar(ReplaceChar(ReplaceChar(ReplaceChar([c], x1, r1), x2, r2), x3, r3), x4, r4)
         == if c == x1 then r1 else if c == x2 then r2 else if c == x3 then r3 else if c == x4 then r4 else [c]
  {
    ReplaceCharSingle(c, x1, r1);
    if c == x1 {
      ReplaceCharAbsent(r1, x2, r2);
      ReplaceCharAbsent(r1, x3, r3);
      ReplaceCharAbsent(r1, x4, r4);
    } else {
      ReplaceCharSingle(c, x2, r2);
      if c == x2 {
        ReplaceCharAbsent(r2, x3, r3);
        ReplaceCharAbsent(r2, x4, r4);
      } else {
        ReplaceCharSingle(c, x3, r3);
        if c == x3 {
          ReplaceCharAbsent(r3, x4, r4);
        } else {
          ReplaceCharSingle(c, x4, r4);
        }
      }
    }
  }

  /** The last four replaces on one character other than `&`. */
  lemma LastFourChar(c: char)
    requires c != '&'
    ensures ReplaceChar(ReplaceChar(ReplaceChar(ReplaceChar([c], '<', "&lt;"), '>', "&gt;"), '"', "&quot;"), '\'', "&apos;") == EntityOf(c)
  {
    ReplaceChainSingle(c, '<', "&lt;", '>', "&gt;", '"', "&quot;", '\'', "&apos;");
  }

  lemma EscapeXmlChar(c: char)
    ensures EscapeXml([c]) == EntityOf(c)
  {
    ReplaceCharSingle(c, '&', "&amp;");
    if c == '&' {
      EntityStays("&amp;");
    } else {
      LastFourChar(c);
    }
  }

  /** The replace chain escapes each character independently: no later replace touches an earlier entity. */
  lemma {:induction false} EscapeXmlIsEscapeEach(s: string)
    ensures EscapeXml(s) == EscapeEachXml(s)
    decreases |s|
  {
    if s != [] {
      assert s == [s[0]] + s[1..];
      EscapeXmlAppend([s[0]], s[1..]);
      EscapeXmlChar(s[0]);
      EscapeXmlIsEscapeEach(s[1..]);
    }
  }

  lemma {:induction false} EscapeEachXmlNoMarkup(s: string)
    ensures forall i :: 0 <= i < |EscapeEachXml(s)| ==> var c := EscapeEachXml(s)[i]; c != '<' && c != '>' && c != '"' && c != '\''
    decreases |s|
  {
    if s != [] {
      EscapeEachXmlNoMarkup(s[1..]);
      var e, rest := EntityOf(s[0]), EscapeEachXml(s[1..]);
      forall i | 0 <= i < |e + rest|
        ensures var c := (e + rest)[i]; c != '<' && c != '>' && c != '"' && c != '\''
      {
        if i >= |e| {
          assert (e + rest)[i] == rest[i - |e|];
        }
      }
    }
  }

  /** The escaped text holds no `<`, `>`, `"` or `'`: it can stand in element content and in attribute values. */
  lemma EscapeXmlNoMarkup(s: string)
    ensures var e := EscapeXml(s); '<' !in e && '>' !in e && '"' !in e && '\'' !in e
  {
    EscapeXmlIsEscapeEach(s);
    EscapeEachXmlNoMarkup(s);
  }

  /** Text without the five markup characters is written unchanged. */
  lemma EscapeXmlIdentity(s: string)
    requires forall i :: 0 <= i < |s| ==> !IsMarkup(s[i])
    ensures EscapeXml(s) == s
  {
    ReplaceCharAbsent(s, '&', "&amp;");
    ReplaceCharAbsent(s, '<', "&lt;");
    ReplaceCharAbsent(s, '>', "&gt;");
    ReplaceCharAbsent(s, '"', "&quot;");
    ReplaceCharAbsent(s, '\'', "&apos;");
  }

  lemma UnescapeEntity(c: char, rest: string)
    ensures UnescapeXml(EntityOf(c) + rest) == [c] + UnescapeXml(rest)
  {
    var e := EntityOf(c) + rest;
    assert e[|EntityOf(c)|..] == rest;
    StartsWithAppend(EntityOf(c), rest);
    if c == '&' {
    } else if c == '<' {
      DiffersAt(e, "&amp;", 1);
    } else if c == '>' {
      DiffersAt(e, "&amp;", 1);
      DiffersAt(e, "&lt;", 1);
    } else if c == '"' {
      DiffersAt(e, "&amp;", 1);
      DiffersAt(e, "&lt;", 1);
      DiffersAt(e, "&gt;", 1);
    } else if c == '\'' {
      DiffersAt(e, "&amp;", 2);
      DiffersAt(e, "&lt;", 1);
      DiffersAt(e, "&gt;", 1);
      DiffersAt(e, "&quot;", 1);
    } else {
      DiffersAt(e, "&amp;", 0);
      DiffersAt(e, "&lt;", 0);
      DiffersAt(e, "&gt;", 0);
      DiffersAt(e, "&quot;", 0);
      DiffersAt(e, "&apos;", 0);
    }
  }

  lemma {:induction false} UnescapeEscapeEachXml(s: string)
    ensures UnescapeXml(EscapeEachXml(s)) == s
    decreases |s|
  {
    if s != [] {
      UnescapeEntity(s[0], EscapeEachXml(s[1..]));
      UnescapeEscapeEachXml(s[1..]);
    }
  }

  /** Escaping loses nothing: decoding the entities gives the text back. */
  lemma UnescapeEscapeXml(s: string)
    ensures UnescapeXml(EscapeXml(s)) == s
  {
    EscapeXmlIsEscapeEach(s);
    UnescapeEscapeEachXml(s);
  }
}
