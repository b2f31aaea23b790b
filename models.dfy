/**
 * The records the server stores (users, calendars, events, shares), the
 * permission level of a share, and the iCalendar export of one event: a
 * VEVENT component written as CRLF-terminated content lines (section 3.1 and
 * section 3.6.1 of RFC 5545) with TEXT values escaped as section 3.3.11 of
 * RFC 5545 asks.
 */
module Models {
  import opened Maybe
  import opened Text
  import opened Uuids
  import opened Times

  datatype User = User(id: Uuid, name: string, email: string, passwordHash: string)

  datatype Calendar = Calendar(
    id: Uuid, userId: Uuid, name: string,
    description: Option<string>, color: Option<string>, isPublic: bool)

  datatype Event = Event(
    id: Uuid, calendarId: Uuid, title: string,
    description: Option<string>, location: Option<string>,
    startTime: Instant, endTime: Instant, isAllDay: bool)

  /** A grant of access to a calendar: `userId` is the owner who made it. */
  datatype Share = Share(
    id: Uuid, calendarId: Uuid, userId: Uuid,
    sharedWithUserId: Option<Uuid>, sharedWithEmail: Option<string>, permissionLevel: string)

  /** The fields of an event a client supplies; the store adds the id and the calendar. */
  datatype NewEvent = NewEvent(
    title: string, description: Option<string>, location: Option<string>,
    startTime: Instant, endTime: Instant, isAllDay: bool)

  datatype NewCalendar = NewCalendar(
    name: string, description: Option<string>, color: Option<string>, isPublic: bool)

  /** Partial updates: each `Some` field replaces the stored one. */
  datatype UpdateCalendar = UpdateCalendar(
    name: Option<string>, description: Option<string>, color: Option<string>, isPublic: Option<bool>)

  datatype UpdateEvent = UpdateEvent(
    title: Option<string>, description: Option<string>, location: Option<string>,
    startTime: Option<Instant>, endTime: Option<Instant>, isAllDay: Option<bool>)

  datatype NewShare = NewShare(sharedWithEmail: string, permission: string)

  // ---------------------------------------------------------------------
  // Permission levels

  datatype PermissionLevel = Read | Write | Admin

  /** `PermissionLevel::as_str`. */
  function AsStr(p: PermissionLevel): string {
    match p
    case Read => "read"
    case Write => "write"
    case Admin => "admin"
  }

  /** `PermissionLevel::from_str`: exactly the three lower-case names are accepted. */
  function FromStr(s: string): (r: Option<PermissionLevel>)
    ensures r.Some? <==> (s == "read" || s == "write" || s == "admin")
    ensures r.Some? ==> AsStr(r.value) == s
  {
    if s == "read" then Some(Read)
    else if s == "write" then Some(Write)
    else if s == "admin" then Some(Admin)
    else None
  }

  /** Every level survives printing and parsing. */
  lemma FromStrAsStr(p: PermissionLevel)
    ensures FromStr(AsStr(p)) == Some(p)
  {
  }

  /** The three names are distinct, so printing loses nothing. */
  lemma AsStrInjective(p: PermissionLevel, q: PermissionLevel)
    requires AsStr(p) == AsStr(q)
    ensures p == q
  {
    FromStrAsStr(p);
    FromStrAsStr(q);
  }

  // ---------------------------------------------------------------------
  // TEXT escaping

  /** The characters the TEXT escape of section 3.3.11 of RFC 5545 rewrites. */
  predicate IsIcalSpecial(c: char) {
    c == '\\' || c == ';' || c == ',' || c == '\n'
  }

  /** `escape_ical_text`: four `str::replace` calls, backslash first. */
  function EscapeIcalText(s: string): string {
    ReplaceChar(ReplaceChar(ReplaceChar(ReplaceChar(s, '\\', "\\\\"), ';', "\\;"), ',', "\\,"), '\n', "\\n")
  }

  /** The escape of one character, as section 3.3.11 of RFC 5545 gives it. */
  function EscapeChar(c: char): (r: string)
    ensures |r| == 1 || |r| == 2
  {
    if c == '\\' then "\\\\"
    else if c == ';' then "\\;"
    else if c == ',' then "\\,"
    else if c == '\n' then "\\n"
    else [c]
  }

  /** Reference escape: each character escaped on its own, left to right. */
  function EscapeEach(s: string): string
    decreases |s|
  {
    if s == [] then [] else EscapeChar(s[0]) + EscapeEach(s[1..])
  }

  /**
   * Reference unescape (section 3.3.11 of RFC 5545): `\\`, `\;`, `\,`, and
   * `\n` or `\N` stand for the character; anything else is literal.
   */
  function UnescapeIcalText(s: string): string
    decreases |s|
  {
    if s == [] then []
    else if |s| >= 2 && s[0] == '\\' && s[1] in "\\;,nN" then
      [if s[1] == 'n' || s[1] == 'N' then '\n' else s[1]] + UnescapeIcalText(s[2..])
    else [s[0]] + UnescapeIcalText(s[1..])
  }

  lemma EscapeIcalTextAppend(a: string, b: string)
    ensures EscapeIcalText(a + b) == EscapeIcalText(a) + EscapeIcalText(b)
  {
    var r1a, r1b := ReplaceChar(a, '\\', "\\\\"), ReplaceChar(b, '\\', "\\\\");
    ReplaceCharAppend(a, b, '\\', "\\\\");
    var r2a, r2b := ReplaceChar(r1a, ';', "\\;"), ReplaceChar(r1b, ';', "\\;");
    ReplaceCharAppend(r1a, r1b, ';', "\\;");
    var r3a, r3b := ReplaceChar(r2a, ',', "\\,"), ReplaceChar(r2b, ',', "\\,");
    ReplaceCharAppend(r2a, r2b, ',', "\\,");
    ReplaceCharAppend(r3a, r3b, '\n', "\\n");
  }

  lemma EscapeIcalTextChar(c: char)
    ensures EscapeIcalText([c]) == EscapeChar(c)
  {
    ReplaceCharSingle(c, '\\', "\\\\");
    var r1 := ReplaceChar([c], '\\', "\\\\");
    if c == '\\' {
      ReplaceCharAbsent(r1, ';', "\\;");
      ReplaceCharAbsent(r1, ',', "\\,");
      ReplaceCharAbsent(r1, '\n', "\\n");
    } else {
      ReplaceCharSingle(c, ';', "\\;");
      var r2 := ReplaceChar(r1, ';', "\\;");
      if c == ';' {
        ReplaceCharAbsent(r2, ',', "\\,");
        ReplaceCharAbsent(r2, '\n', "\\n");
      } else {
        ReplaceCharSingle(c, ',', "\\,");
        var r3 := ReplaceChar(r2, ',', "\\,");
        if c == ',' {
          ReplaceCharAbsent(r3, '\n', "\\n");
        } else {
          ReplaceCharSingle(c, '\n', "\\n");
        }
      }
    }
  }

  /** The replace chain escapes each character independently: no later replace touches an earlier escape. */
  lemma {:induction false} EscapeIcalTextIsEscapeEach(s: string)
    ensures EscapeIcalText(s) == EscapeEach(s)
    decreases |s|
  {
    if s != [] {
      assert s == [s[0]] + s[1..];
      EscapeIcalTextAppend([s[0]], s[1..]);
      EscapeIcalTextChar(s[0]);
      EscapeIcalTextIsEscapeEach(s[1..]);
    }
  }

  /** Text without the four special characters is written unchanged. */
  lemma EscapeIcalTextIdentity(s: string)
    requires forall i :: 0 <= i < |s| ==> !IsIcalSpecial(s[i])
    ensures EscapeIcalText(s) == s
  {
    ReplaceCharAbsent(s, '\\', "\\\\");
    ReplaceCharAbsent(s, ';', "\\;");
    ReplaceCharAbsent(s, ',', "\\,");
    ReplaceCharAbsent(s, '\n', "\\n");
  }

  lemma {:induction false} UnescapeEscapeEach(s: string)
    ensures UnescapeIcalText(EscapeEach(s)) == s
    decreases |s|
  {
    if s != [] {
      var c, rest := s[0], EscapeEach(s[1..]);
      UnescapeEscapeEach(s[1..]);
      if IsIcalSpecial(c) {
        var e := EscapeChar(c) + rest;
        assert e[2..] == rest;
      } else {
        var e := [c] + rest;
        assert e[1..] == rest;
      }
    }
  }

  /** Escaping loses nothing: the standard's unescape recovers the text. */
  lemma UnescapeEscape(s: string)
    ensures UnescapeIcalText(EscapeIcalText(s)) == s
  {
    EscapeIcalTextIsEscapeEach(s);
    UnescapeEscapeEach(s);
  }

  /** Neither end of the text is whitespace, so `str::trim` leaves it alone. */
  predicate NoEdgeWhitespace(s: string) {
    s == [] || (!IsWhitespace(s[0]) && !IsWhitespace(s[|s| - 1]))
  }

  lemma EscapeCharEdges(c: char)
    requires !IsWhitespace(c)
    ensures !IsWhitespace(EscapeChar(c)[0]) && !IsWhitespace(EscapeChar(c)[|EscapeChar(c)| - 1])
  {
  }

  /** Escaping never puts whitespace at either end of a value that had none there. */
  lemma EscapeKeepsEdges(s: string)
    requires NoEdgeWhitespace(s)
    ensures NoEdgeWhitespace(EscapeIcalText(s))
  {
    if s != [] {
      var n := |s|;
      var front, c := s[..n - 1], s[n - 1];
      assert s == front + [c];
      EscapeIcalTextAppend(front, [c]);
      EscapeIcalTextChar(c);
      EscapeIcalTextIsEscapeEach(s);
      EscapeCharEdges(s[0]);
      EscapeCharEdges(c);
      var e := EscapeIcalText(s);
      assert e == EscapeChar(s[0]) + EscapeEach(s[1..]);
      assert e[0] == EscapeChar(s[0])[0];
      assert e == EscapeIcalText(front) + EscapeChar(c);
      assert e[|e| - 1] == EscapeChar(c)[|EscapeChar(c)| - 1];
    }
  }

  /** Every special character adds one character to the escaped text. */
  lemma {:induction false} EscapeEachGrows(s: string)
    ensures |EscapeEach(s)| >= |s|
    ensures (exists i :: 0 <= i < |s| && IsIcalSpecial(s[i])) ==> |EscapeEach(s)| > |s|
    decreases |s|
  {
    if s != [] {
      EscapeEachGrows(s[1..]);
      if exists i :: 0 <= i < |s| && IsIcalSpecial(s[i]) {
        var i :| 0 <= i < |s| && IsIcalSpecial(s[i]);
        if i > 0 {
          assert s[1..][i - 1] == s[i];
        }
      }
    }
  }

  /** Escaping leaves a text unchanged exactly when it holds none of the four special characters. */
  lemma EscapeUnchangedIff(s: string)
    ensures EscapeIcalText(s) == s <==> forall i :: 0 <= i < |s| ==> !IsIcalSpecial(s[i])
  {
    EscapeIcalTextIsEscapeEach(s);
    EscapeEachGrows(s);
    if forall i :: 0 <= i < |s| ==> !IsIcalSpecial(s[i]) {
      EscapeIcalTextIdentity(s);
    }
  }

  lemma {:induction false} EscapeEachNoNewline(s: string)
    ensures '\n' !in EscapeEach(s)
    decreases |s|
  {
    if s != [] {
      EscapeEachNoNewline(s[1..]);
    }
  }

  /** An escaped value never breaks its content line: it holds no line feed. */
  lemma EscapedHasNoNewline(s: string)
    ensures '\n' !in EscapeIcalText(s)
  {
    EscapeIcalTextIsEscapeEach(s);
    EscapeEachNoNewline(s);
  }

  /** A carriage return is not escaped: it passes through. */
  lemma CarriageReturnPassesThrough(a: string, b: string)
    ensures EscapeIcalText(a + "\r" + b) == EscapeIcalText(a) + "\r" + EscapeIcalText(b)
  {
    EscapeIcalTextAppend(a + "\r", b);
    EscapeIcalTextAppend(a, "\r");
    EscapeIcalTextChar('\r');
  }

  // ---------------------------------------------------------------------
  // The exported VEVENT

  datatype ICalendarEvent = ICalendarEvent(
    uid: string, summary: string, description: Option<string>, location: Option<string>,
    dtstart: DateTime, dtend: DateTime)

  /** `From<&Event> for ICalendarEvent`: the all-day flag has no place in the export. */
  function FromEvent(e: Event): (r: ICalendarEvent)
    ensures r.uid == ToString(e.id) && r.summary == e.title
    ensures r.description == e.description && r.location == e.location
    ensures r.dtstart == e.startTime && r.dtend == e.endTime
  {
    ICalendarEvent(ToString(e.id), e.title, e.description, e.location, e.startTime, e.endTime)
  }

  /** `Option::map(escape_ical_text).unwrap_or_default()`. */
  function EscapeOptional(v: Option<string>): string {
    match v
    case Some(s) => EscapeIcalText(s)
    case None => ""
  }

  /** `ICalendarEvent::to_ical_string`: one `format!` of the eight content lines. */
  function ToIcalString(ev: ICalendarEvent): string
    requires ValidTime(ev.dtstart) && ValidTime(ev.dtend)
  {
    "BEGIN:VEVENT\r\n"
    + ("UID:" + ev.uid + "\r\n"
    + ("SUMMARY:" + EscapeIcalText(ev.summary) + "\r\n"
    + ("DESCRIPTION:" + EscapeOptional(ev.description) + "\r\n"
    + ("LOCATION:" + EscapeOptional(ev.location) + "\r\n"
    + ("DTSTART:" + FormatUtc(ev.dtstart) + "\r\n"
    + ("DTEND:" + FormatUtc(ev.dtend) + "\r\n"
    + "END:VEVENT\r\n"))))))
  }

  /** The content lines of the export, in order and without their CR LF. */
  function IcalLines(ev: ICalendarEvent): (ls: seq<string>)
    requires ValidTime(ev.dtstart) && ValidTime(ev.dtend)
    ensures |ls| == 8
  {
    ["BEGIN:VEVENT",
     "UID:" + ev.uid,
     "SUMMARY:" + EscapeIcalText(ev.summary),
     "DESCRIPTION:" + EscapeOptional(ev.description),
     "LOCATION:" + EscapeOptional(ev.location),
     "DTSTART:" + FormatUtc(ev.dtstart),
     "DTEND:" + FormatUtc(ev.dtend),
     "END:VEVENT"]
  }

  lemma FormatUtcNoNewline(t: DateTime)
    requires ValidTime(t)
    ensures '\n' !in FormatUtc(t)
  {
    FormatUtcChars(t);
  }

  /** The export is the eight lines of `IcalLines`, each followed by CR LF. */
  lemma ToIcalStringIsCrlfLines(ev: ICalendarEvent)
    requires ValidTime(ev.dtstart) && ValidTime(ev.dtend)
    ensures ToIcalString(ev) == CrlfLines(IcalLines(ev))
  {
    var ls := IcalLines(ev);
    assert CrlfLines(ls[7..]) == "END:VEVENT\r\n" by {
      assert ls[7..] == ["END:VEVENT"];
      assert ls[7..][1..] == [];
    }
    assert ls[6..][1..] == ls[7..];
    assert CrlfLines(ls[6..]) == ls[6] + "\r\n" + CrlfLines(ls[7..]);
    assert ls[5..][1..] == ls[6..];
    assert CrlfLines(ls[5..]) == ls[5] + "\r\n" + CrlfLines(ls[6..]);
    assert ls[4..][1..] == ls[5..];
    assert CrlfLines(ls[4..]) == ls[4] + "\r\n" + CrlfLines(ls[5..]);
    assert ls[3..][1..] == ls[4..];
    assert CrlfLines(ls[3..]) == ls[3] + "\r\n" + CrlfLines(ls[4..]);
    assert ls[2..][1..] == ls[3..];
    assert CrlfLines(ls[2..]) == ls[2] + "\r\n" + CrlfLines(ls[3..]);
    assert ls[1..][1..] == ls[2..];
    assert CrlfLines(ls[1..]) == ls[1] + "\r\n" + CrlfLines(ls[2..]);
    assert ls[1..] == ls[1..];
    assert CrlfLines(ls) == ls[0] + "\r\n" + CrlfLines(ls[1..]);
    assert "BEGIN:VEVENT" + "\r\n" == "BEGIN:VEVENT\r\n";
  }

  lemma IcalLinesNoNewline(ev: ICalendarEvent)
    requires ValidTime(ev.dtstart) && ValidTime(ev.dtend) && '\n' !in ev.uid
    ensures forall i :: 0 <= i < 8 ==> '\n' !in IcalLines(ev)[i]
  {
    EscapedHasNoNewline(ev.summary);
    FormatUtcNoNewline(ev.dtstart);
    FormatUtcNoNewline(ev.dtend);
    var ls := IcalLines(ev);
    TaggedNoNewline("UID:", ev.uid);
    TaggedNoNewline("SUMMARY:", EscapeIcalText(ev.summary));
    OptionalNoNewline(ev.description);
    TaggedNoNewline("DESCRIPTION:", EscapeOptional(ev.description));
    OptionalNoNewline(ev.location);
    TaggedNoNewline("LOCATION:", EscapeOptional(ev.location));
    TaggedNoNewline("DTSTART:", FormatUtc(ev.dtstart));
    TaggedNoNewline("DTEND:", FormatUtc(ev.dtend));
    forall i | 0 <= i < 8
      ensures '\n' !in ls[i]
    {
    }
  }

  /** A property name followed by a value without line feeds holds none. */
  lemma TaggedNoNewline(tag: string, v: string)
    requires '\n' !in tag && '\n' !in v
    ensures '\n' !in tag + v
  {
  }

  /** An optional value, escaped or empty, holds no line feed. */
  lemma OptionalNoNewline(v: Option<string>)
    ensures '\n' !in EscapeOptional(v)
  {
    if v.Some? {
      EscapedHasNoNewline(v.value);
    }
  }

  /**
   * The export is exactly the eight content lines of `IcalLines`, each
   * terminated by CR LF, and reading it with `str::lines` gives them back
   * one by one (the identifier must hold no line feed, as a UUID never does).
   */
  lemma ToIcalStringLines(ev: ICalendarEvent)
    requires ValidTime(ev.dtstart) && ValidTime(ev.dtend) && '\n' !in ev.uid
    ensures ToIcalString(ev) == CrlfLines(IcalLines(ev))
    ensures Lines(ToIcalString(ev)) == IcalLines(ev)
  {
    ToIcalStringIsCrlfLines(ev);
    IcalLinesNoNewline(ev);
    LinesOfCrlfLines(IcalLines(ev));
  }

  /** A missing description or location still gets its line, with an empty value. */
  lemma MissingFieldsStillEmitted(ev: ICalendarEvent)
    requires ValidTime(ev.dtstart) && ValidTime(ev.dtend)
    requires ev.description.None? && ev.location.None?
    ensures IcalLines(ev)[3] == "DESCRIPTION:" && IcalLines(ev)[4] == "LOCATION:"
  {
  }

  /** Two events that differ only in the all-day flag are exported identically. */
  lemma AllDayDropped(e: Event)
    requires ValidTime(e.startTime) && ValidTime(e.endTime)
    ensures ToIcalString(FromEvent(e)) == ToIcalString(FromEvent(e.(isAllDay := !e.isAllDay)))
  {
  }
}
