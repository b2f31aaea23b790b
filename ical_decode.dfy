/**
 * The iCalendar reader behind CalDAV PUT: a VEVENT body is read line by
 * line into the fields of a new event. Values are taken verbatim after
 * their property name (TEXT is never unescaped) and DTSTART/DTEND accept
 * the DATE form (section 3.3.4 of RFC 5545) and both DATE-TIME forms
 * (section 3.3.5 of RFC 5545).
 */
module IcalDecode {
  import opened Maybe
  import opened Text
  import opened Uuids
  import opened Times
  import opened Errors
  import opened Models

  // ---------------------------------------------------------------------
  // Date and date-time values

  /**
   * `parse_ical_datetime`. The value is trimmed; eight bytes are a DATE at
   * midnight; a value ending in `Z` is cut to its first fifteen bytes, which
   * panics when there are fewer or the cut falls inside a character; any
   * other value is read whole as a floating DATE-TIME taken as UTC. Dates
   * and times are read in their zero-padded fixed-width spelling only.
   */
  function ParseIcalDatetime(dateStr: string): (r: Result<Instant>)
    ensures r.Err? ==> r.error.ValidationError?
    ensures r.Panic? ==> Utf8Len(Trim(dateStr)) != 8 && EndsWith(Trim(dateStr), "Z")
  {
    var t := Trim(dateStr);
    if Utf8Len(t) == 8 then
      match ParseBasicDate(t)
      case Some(d) => Ok(d)
      case None => Err(ValidationError("Invalid date format"))
    else if EndsWith(t, "Z") then
      match Utf8Prefix(t, 15)
      case None => Panic
      case Some(p) =>
        match ParseBasicDateTime(p)
        case Some(d) => Ok(d)
        case None => Err(ValidationError("Invalid datetime format"))
    else
      match ParseBasicDateTime(t)
      case Some(d) => Ok(d)
      case None => Err(ValidationError("Invalid datetime format"))
  }

  /** A `Z`-terminated value shorter than fifteen bytes (and not eight) makes the slice panic. */
  lemma ShortUtcValuePanics(dateStr: string)
    requires var t := Trim(dateStr); Utf8Len(t) != 8 && Utf8Len(t) < 15 && EndsWith(t, "Z")
    ensures ParseIcalDatetime(dateStr).Panic?
  {
    Utf8PrefixTooShort(Trim(dateStr), 15);
  }

  lemma DigitsAscii(s: string)
    requires AllDigits(s)
    ensures IsAscii(s)
  {
    forall i | 0 <= i < |s|
      ensures s[i] as int < 0x80
    {
      assert IsDigit(s[i]);
    }
  }

  /** The UTC DATE-TIME the encoder writes is read back as the same instant. */
  lemma ParseIcalDatetimeUtc(t: DateTime)
    requires ValidTime(t)
    ensures ParseIcalDatetime(FormatUtc(t)) == Ok(t)
  {
    var s := FormatUtc(t);
    ParseFormatUtc(t);
    FormatUtcChars(t);
    TrimUnchanged(s);
    AsciiUtf8Len(s);
    assert EndsWith(s, "Z");
    AsciiUtf8Prefix(s, 15);
  }

  /** A DATE value is read as midnight UTC of that day. */
  lemma ParseIcalDatetimeDate(t: DateTime)
    requires ValidTime(t)
    ensures ParseIcalDatetime(FormatBasicDate(t)) == Ok(DateTime(t.year, t.month, t.day, 0, 0, 0))
  {
    var s := FormatBasicDate(t);
    ParseFormatBasicDate(t);
    assert IsDigit(s[0]) && IsDigit(s[|s| - 1]);
    TrimUnchanged(s);
    DigitsAscii(s);
    AsciiUtf8Len(s);
  }

  /** A floating DATE-TIME (no `Z`) is read as the same wall-clock time in UTC. */
  lemma ParseIcalDatetimeFloating(t: DateTime)
    requires ValidTime(t)
    ensures ParseIcalDatetime(FormatUtc(t)[..15]) == Ok(t)
  {
    var p := FormatUtc(t)[..15];
    ParseFormatUtc(t);
    FormatUtcChars(t);
    assert IsDigit(p[0]) && IsDigit(p[14]);
    TrimUnchanged(p);
    assert IsAscii(p);
    AsciiUtf8Len(p);
  }

  // ---------------------------------------------------------------------
  // Reading the VEVENT

  /** The mutable locals of `parse_icalendar`. */
  datatype Fields = Fields(
    title: Option<string>, description: Option<string>, location: Option<string>,
    start: Option<Instant>, end: Option<Instant>, allDay: bool)

  const Initial := Fields(None, None, None, None, None, false)

  /** `line.split(':').last()`: what follows the last colon, or the whole line. */
  function AfterLastColon(line: string): (v: string)
    ensures ':' !in v
  {
    var parts := Split(line, ':');
    parts[|parts| - 1]
  }

  /** A line that sets the all-day flag: it matches none of the earlier branches and mentions `VALUE=DATE`. */
  predicate IsAllDayMarker(line: string) {
    && !StartsWith(line, "SUMMARY:") && !StartsWith(line, "DESCRIPTION:") && !StartsWith(line, "LOCATION:")
    && !StartsWith(line, "DTSTART") && !StartsWith(line, "DTEND")
    && Contains(line, "VALUE=DATE")
  }

  /** Which branch of the loop body a trimmed line takes. */
  datatype LineKind = SummaryLine | DescriptionLine | LocationLine | StartLine | EndLine | AllDayLine | OtherLine

  /** The `if`/`else if` chain of the loop body, first match wins. */
  function Classify(line: string): (k: LineKind)
    ensures k == SummaryLine <==> StartsWith(line, "SUMMARY:")
    ensures k == DescriptionLine ==> StartsWith(line, "DESCRIPTION:")
    ensures k == LocationLine ==> StartsWith(line, "LOCATION:")
    ensures k == AllDayLine <==> IsAllDayMarker(line)
  {
    if StartsWith(line, "SUMMARY:") then SummaryLine
    else if StartsWith(line, "DESCRIPTION:") then DescriptionLine
    else if StartsWith(line, "LOCATION:") then LocationLine
    else if StartsWith(line, "DTSTART") then StartLine
    else if StartsWith(line, "DTEND") then EndLine
    else if Contains(line, "VALUE=DATE") then AllDayLine
    else OtherLine
  }

  /** One pass of the loop of `parse_icalendar`, on the trimmed line. */
  function Step(f: Fields, raw: string): (r: Result<Fields>)
    ensures r.Ok? ==> r.value.allDay == (f.allDay || IsAllDayMarker(Trim(raw)))
  {
    var line := Trim(raw);
    match Classify(line)
    case SummaryLine => Ok(f.(title := Some(line[8..])))
    case DescriptionLine => Ok(f.(description := Some(line[12..])))
    case LocationLine => Ok(f.(location := Some(line[9..])))
    case StartLine =>
      (match ParseIcalDatetime(AfterLastColon(line))
       case Ok(t) => Ok(f.(start := Some(t)))
       case Err(e) => Err(e)
       case Panic => Panic)
    case EndLine =>
      (match ParseIcalDatetime(AfterLastColon(line))
       case Ok(t) => Ok(f.(end := Some(t)))
       case Err(e) => Err(e)
       case Panic => Panic)
    case AllDayLine => Ok(f.(allDay := true))
    case OtherLine => Ok(f)
  }

  /** The loop over all lines; the first failing date value ends it. */
  function ScanLines(f: Fields, ls: seq<string>): Result<Fields>
    decreases |ls|
  {
    if ls == [] then Ok(f)
    else
      match Step(f, ls[0])
      case Ok(g) => ScanLines(g, ls[1..])
      case Err(e) => Err(e)
      case Panic => Panic
  }

  /** The checks after the loop: SUMMARY, then DTSTART, then DTEND must have been seen. */
  function Finish(f: Fields): (r: Result<NewEvent>)
    ensures r.Ok? <==> f.title.Some? && f.start.Some? && f.end.Some?
    ensures f.title.None? ==> r == Err(ValidationError("Missing SUMMARY"))
    ensures f.title.Some? && f.start.None? ==> r == Err(ValidationError("Missing DTSTART"))
    ensures f.title.Some? && f.start.Some? && f.end.None? ==> r == Err(ValidationError("Missing DTEND"))
    ensures r.Ok? ==> r.value == NewEvent(f.title.value, f.description, f.location, f.start.value, f.end.value, f.allDay)
  {
    if f.title.None? then Err(ValidationError("Missing SUMMARY"))
    else if f.start.None? then Err(ValidationError("Missing DTSTART"))
    else if f.end.None? then Err(ValidationError("Missing DTEND"))
    else Ok(NewEvent(f.title.value, f.description, f.location, f.start.value, f.end.value, f.allDay))
  }

  /** `parse_icalendar` as a function of its input. */
  function DecodeVEvent(data: string): Result<NewEvent> {
    match ScanLines(Initial, Lines(data))
    case Ok(f) => Finish(f)
    case Err(e) => Err(e)
    case Panic => Panic
  }

  /** `parse_icalendar`: the loop updates the six locals line by line. */
  method ParseICalendar(data: string) returns (r: Result<NewEvent>)
    ensures r == DecodeVEvent(data)
  {
    var lines := Lines(data);
    var title: Option<string> := None;
    var description: Option<string> := None;
    var location: Option<string> := None;
    var startTime: Option<Instant> := None;
    var endTime: Option<Instant> := None;
    var isAllDay := false;
    var i := 0;
    while i < |lines|
      invariant 0 <= i <= |lines|
      invariant ScanLines(Initial, lines)
             == ScanLines(Fields(title, description, location, startTime, endTime, isAllDay), lines[i..])
    {
      assert lines[i..][1..] == lines[i + 1..];
      var line := Trim(lines[i]);
      if StartsWith(line, "SUMMARY:") {
        title := Some(line[8..]);
      } else if StartsWith(line, "DESCRIPTION:") {
        description := Some(line[12..]);
      } else if StartsWith(line, "LOCATION:") {
        location := Some(line[9..]);
      } else if StartsWith(line, "DTSTART") {
        var parsed := ParseIcalDatetime(AfterLastColon(line));
        if parsed.Err? {
          return Err(parsed.error);
        } else if parsed.Panic? {
          return Panic;
        }
        startTime := Some(parsed.value);
      } else if StartsWith(line, "DTEND") {
        var parsed := ParseIcalDatetime(AfterLastColon(line));
        if parsed.Err? {
          return Err(parsed.error);
        } else if parsed.Panic? {
          return Panic;
        }
        endTime := Some(parsed.value);
      } else if Contains(line, "VALUE=DATE") {
        isAllDay := true;
      }
      i := i + 1;
    }
    if title.None? {
      return Err(ValidationError("Missing SUMMARY"));
    }
    if startTime.None? {
      return Err(ValidationError("Missing DTSTART"));
    }
    if endTime.None? {
      return Err(ValidationError("Missing DTEND"));
    }
    r := Ok(NewEvent(title.value, description, location, startTime.value, endTime.value, isAllDay));
  }

  // ---------------------------------------------------------------------
  // Properties of the reader

  lemma {:induction false} ScanLinesAppend(f: Fields, a: seq<string>, b: seq<string>)
    ensures ScanLines(f, a + b) == match ScanLines(f, a)
                                   case Ok(g) => ScanLines(g, b)
                                   case Err(e) => Err(e)
                                   case Panic => Panic
    decreases |a|
  {
    if a == [] {
      assert a + b == b;
    } else {
      assert (a + b)[0] == a[0];
      assert (a + b)[1..] == a[1..] + b;
      match Step(f, a[0]) {
        case Ok(g) => ScanLinesAppend(g, a[1..], b);
        case Err(e) =>
        case Panic =>
      }
    }
  }

  /** Three lines that each leave the fields alone leave them alone together. */
  lemma ScanThreeUnchanged(f: Fields, a: string, b: string, c: string)
    requires Step(f, a) == Ok(f) && Step(f, b) == Ok(f) && Step(f, c) == Ok(f)
    ensures ScanLines(f, [a, b, c]) == Ok(f)
  {
    ScanLinesUnchanged(f, [a, b, c]);
  }

  /** Lines that each leave the fields alone leave them alone together. */
  lemma {:induction false} ScanLinesUnchanged(f: Fields, ls: seq<string>)
    requires forall i :: 0 <= i < |ls| ==> Step(f, ls[i]) == Ok(f)
    ensures ScanLines(f, ls) == Ok(f)
    decreases |ls|
  {
    if ls != [] {
      assert Step(f, ls[0]) == Ok(f);
      ScanLinesUnchanged(f, ls[1..]);
    }
  }

  /** Lines around a body that leave every field alone do not change what the body reads. */
  lemma ScanLinesAround(pre: seq<string>, body: seq<string>, post: seq<string>)
    requires forall f: Fields :: ScanLines(f, pre) == Ok(f)
    requires forall f: Fields :: ScanLines(f, post) == Ok(f)
    ensures ScanLines(Initial, pre + body + post) == ScanLines(Initial, body)
  {
    ScanLinesAppend(Initial, pre + body, post);
    ScanLinesAppend(Initial, pre, body);
    assert ScanLines(Initial, pre) == Ok(Initial);
    match ScanLines(Initial, body) {
      case Ok(g) => assert ScanLines(g, post) == Ok(g);
      case Err(_) =>
      case Panic =>
    }
  }

  /** A later SUMMARY line overwrites whatever title the earlier lines gave. */
  lemma LaterSummaryWins(f: Fields, ls: seq<string>, v: string, g: Fields)
    requires ScanLines(f, ls) == Ok(g)
    requires v == [] || !IsWhitespace(v[|v| - 1])
    ensures ScanLines(f, ls + ["SUMMARY:" + v]) == Ok(g.(title := Some(v)))
  {
    ScanLinesAppend(f, ls, ["SUMMARY:" + v]);
    var line := "SUMMARY:" + v;
    TrimUnchanged(line);
    StartsWithAppend("SUMMARY:", v);
    assert line[8..] == v;
    assert ["SUMMARY:" + v][1..] == [];
  }

  /** The all-day flag ends up set exactly when some line is an all-day marker. */
  lemma {:induction false} AllDayIff(f: Fields, ls: seq<string>, g: Fields)
    requires ScanLines(f, ls) == Ok(g)
    ensures g.allDay <==> f.allDay || exists i :: 0 <= i < |ls| && IsAllDayMarker(Trim(ls[i]))
    decreases |ls|
  {
    if ls != [] {
      var h := Step(f, ls[0]).value;
      AllDayIff(h, ls[1..], g);
      if exists i :: 0 <= i < |ls| && IsAllDayMarker(Trim(ls[i])) {
        var i :| 0 <= i < |ls| && IsAllDayMarker(Trim(ls[i]));
        if i > 0 {
          assert ls[1..][i - 1] == ls[i];
        }
      }
      if exists j :: 0 <= j < |ls[1..]| && IsAllDayMarker(Trim(ls[1..][j])) {
        var j :| 0 <= j < |ls[1..]| && IsAllDayMarker(Trim(ls[1..][j]));
        assert ls[j + 1] == ls[1..][j];
      }
    }
  }

  /** `DTSTART;VALUE=DATE:…` is taken by the DTSTART branch and does not set the all-day flag. */
  lemma DateStartIsNotAllDay(f: Fields, v: string)
    requires v == [] || !IsWhitespace(v[|v| - 1])
    ensures !IsAllDayMarker(Trim("DTSTART;VALUE=DATE:" + v))
  {
    var line := "DTSTART;VALUE=DATE:" + v;
    TrimUnchanged(line);
    assert line[..7] == "DTSTART";
  }

  // ---------------------------------------------------------------------
  // Reading back what the encoder writes

  /** The trimmed line starts with none of the five property names the loop looks for. */
  predicate NamesNoProperty(line: string) {
    && !StartsWith(line, "SUMMARY:") && !StartsWith(line, "DESCRIPTION:") && !StartsWith(line, "LOCATION:")
    && !StartsWith(line, "DTSTART") && !StartsWith(line, "DTEND")
  }

  /**
   * A line naming none of the five properties changes nothing, except that
   * one containing `VALUE=DATE` sets the all-day flag.
   */
  lemma PlainLine(f: Fields, raw: string)
    requires NamesNoProperty(Trim(raw))
    ensures Contains(Trim(raw), "VALUE=DATE") ==> Step(f, raw) == Ok(f.(allDay := true))
    ensures !Contains(Trim(raw), "VALUE=DATE") ==> Step(f, raw) == Ok(f)
  {
  }

  /**
   * A trimmed line that differs from each property name at some index, and
   * lacks a character of `VALUE=DATE`, changes nothing.
   */
  lemma OtherLineAt(f: Fields, line: string, c: char, iS: nat, iDe: nat, iL: nat, iDs: nat, iDe2: nat)
    requires Trim(line) == line
    requires iS < |line| && iS < |"SUMMARY:"| && line[iS] != "SUMMARY:"[iS]
    requires iDe < |line| && iDe < |"DESCRIPTION:"| && line[iDe] != "DESCRIPTION:"[iDe]
    requires iL < |line| && iL < |"LOCATION:"| && line[iL] != "LOCATION:"[iL]
    requires iDs < |line| && iDs < |"DTSTART"| && line[iDs] != "DTSTART"[iDs]
    requires iDe2 < |line| && iDe2 < |"DTEND"| && line[iDe2] != "DTEND"[iDe2]
    requires c in "VALUE=DATE" && c !in line
    ensures Step(f, line) == Ok(f)
  {
    DiffersAt(line, "SUMMARY:", iS);
    DiffersAt(line, "DESCRIPTION:", iDe);
    DiffersAt(line, "LOCATION:", iL);
    DiffersAt(line, "DTSTART", iDs);
    DiffersAt(line, "DTEND", iDe2);
    NotContainsMissingChar(line, "VALUE=DATE", c);
    PlainLine(f, line);
  }

  /** The VEVENT opening line changes nothing. */
  lemma BeginLineStep(f: Fields)
    ensures Step(f, "BEGIN:VEVENT") == Ok(f)
  {
    TrimUnchanged("BEGIN:VEVENT");
    OtherLineAt(f, "BEGIN:VEVENT", '=', 0, 0, 0, 0, 0);
  }

  /** The VEVENT closing line changes nothing. */
  lemma EndLineStep(f: Fields)
    ensures Step(f, "END:VEVENT") == Ok(f)
  {
    TrimUnchanged("END:VEVENT");
    OtherLineAt(f, "END:VEVENT", '=', 0, 1, 0, 1, 1);
  }

  /** A STATUS line, which the loop does not look for, changes nothing. */
  lemma StatusStep(f: Fields)
    ensures Step(f, "STATUS:CONFIRMED") == Ok(f)
  {
    TrimUnchanged("STATUS:CONFIRMED");
    OtherLineAt(f, "STATUS:CONFIRMED", '=', 1, 0, 0, 0, 0);
  }

  /** A DTSTAMP line changes nothing: it shares only `DTST` with `DTSTART`. */
  lemma StampStep(f: Fields)
    ensures Step(f, "DTSTAMP:20240101T000000Z") == Ok(f)
  {
    TrimUnchanged("DTSTAMP:20240101T000000Z");
    OtherLineAt(f, "DTSTAMP:20240101T000000Z", '=', 0, 1, 0, 5, 2);
  }

  /** An ATTENDEE line with parameters changes nothing, though it holds `=`. */
  lemma AttendeeStep(f: Fields)
    ensures Step(f, "ATTENDEE;CN=x:mailto:y") == Ok(f)
  {
    TrimUnchanged("ATTENDEE;CN=x:mailto:y");
    OtherLineAt(f, "ATTENDEE;CN=x:mailto:y", 'V', 0, 0, 0, 0, 0);
  }

  /** A trimmed line that differs from each property name at some index and holds `VALUE=DATE` only sets the all-day flag. */
  lemma MarkerLineAt(f: Fields, a: string, b: string, iS: nat, iDe: nat, iL: nat, iDs: nat, iDe2: nat)
    requires var line := a + "VALUE=DATE" + b;
      && Trim(line) == line
      && iS < |line| && iS < |"SUMMARY:"| && line[iS] != "SUMMARY:"[iS]
      && iDe < |line| && iDe < |"DESCRIPTION:"| && line[iDe] != "DESCRIPTION:"[iDe]
      && iL < |line| && iL < |"LOCATION:"| && line[iL] != "LOCATION:"[iL]
      && iDs < |line| && iDs < |"DTSTART"| && line[iDs] != "DTSTART"[iDs]
      && iDe2 < |line| && iDe2 < |"DTEND"| && line[iDe2] != "DTEND"[iDe2]
    ensures Step(f, a + "VALUE=DATE" + b) == Ok(f.(allDay := true))
  {
    var line := a + "VALUE=DATE" + b;
    DiffersAt(line, "SUMMARY:", iS);
    DiffersAt(line, "DESCRIPTION:", iDe);
    DiffersAt(line, "LOCATION:", iL);
    DiffersAt(line, "DTSTART", iDs);
    DiffersAt(line, "DTEND", iDe2);
    ContainsInfix(a, "VALUE=DATE", b);
    PlainLine(f, line);
  }

  /** A line of another property carrying `VALUE=DATE` sets only the all-day flag. */
  lemma UnknownDateValueLine(f: Fields)
    ensures Step(f, "X-FOO;VALUE=DATE:1") == Ok(f.(allDay := true))
  {
    assert "X-FOO;VALUE=DATE:1" == "X-FOO;" + "VALUE=DATE" + ":1";
    TrimUnchanged("X-FOO;VALUE=DATE:1");
    MarkerLineAt(f, "X-FOO;", ":1", 0, 0, 0, 0, 0);
  }

  /** A sufficient condition on the characters of a line for it to name no property. */
  lemma PlainChars(line: string)
    requires NoEdgeWhitespace(line) && |line| >= 2
    requires line[0] != 'S' && line[0] != 'D' && line[0] != 'L'
    ensures Trim(line) == line && NamesNoProperty(line)
  {
    TrimUnchanged(line);
    DiffersAt(line, "SUMMARY:", 0);
    DiffersAt(line, "DESCRIPTION:", 0);
    DiffersAt(line, "LOCATION:", 0);
    DiffersAt(line, "DTSTART", 0);
    DiffersAt(line, "DTEND", 0);
  }

  lemma ValueLine(name: string, v: string)
    requires name == "SUMMARY:" || name == "DESCRIPTION:" || name == "LOCATION:"
    requires NoEdgeWhitespace(v)
    ensures var line := name + v; Trim(line) == line && StartsWith(line, name) && line[|name|..] == v
  {
    var line := name + v;
    TrimUnchanged(line);
    StartsWithAppend(name, v);
    assert line[|name|..] == v;
  }

  lemma SummaryStep(f: Fields, v: string)
    requires NoEdgeWhitespace(v)
    ensures Step(f, "SUMMARY:" + v) == Ok(f.(title := Some(v)))
  {
    ValueLine("SUMMARY:", v);
  }

  lemma DescriptionStep(f: Fields, v: string)
    requires NoEdgeWhitespace(v)
    ensures Step(f, "DESCRIPTION:" + v) == Ok(f.(description := Some(v)))
  {
    ValueLine("DESCRIPTION:", v);
    var line := "DESCRIPTION:" + v;
    DiffersAt(line, "SUMMARY:", 0);
    assert Classify(line) == DescriptionLine;
  }

  lemma LocationStep(f: Fields, v: string)
    requires NoEdgeWhitespace(v)
    ensures Step(f, "LOCATION:" + v) == Ok(f.(location := Some(v)))
  {
    ValueLine("LOCATION:", v);
    var line := "LOCATION:" + v;
    DiffersAt(line, "SUMMARY:", 0);
    DiffersAt(line, "DESCRIPTION:", 0);
    assert Classify(line) == LocationLine;
  }

  /** What a DTSTART or DTEND line with a well-formed value does. */
  lemma DateLineShape(name: string, v: string)
    requires name == "DTSTART" || name == "DTEND"
    requires v != [] && NoEdgeWhitespace(v) && ':' !in v
    ensures var line := name + ":" + v;
      && Trim(line) == line && StartsWith(line, name) && AfterLastColon(line) == v
      && !StartsWith(line, "SUMMARY:") && !StartsWith(line, "DESCRIPTION:") && !StartsWith(line, "LOCATION:")
      && (name == "DTEND" ==> !StartsWith(line, "DTSTART"))
  {
    var line := name + ":" + v;
    TrimUnchanged(line);
    StartsWithAppend(name, ":" + v);
    assert line == name + [':'] + v;
    LastPieceAfterSeparator(name, v, ':');
    DiffersAt(line, "SUMMARY:", 0);
    DiffersAt(line, "DESCRIPTION:", 1);
    DiffersAt(line, "LOCATION:", 0);
    if name == "DTEND" {
      DiffersAt(line, "DTSTART", 2);
    }
  }

  lemma StartStepOf(f: Fields, v: string, t: Instant)
    requires v != [] && NoEdgeWhitespace(v) && ':' !in v
    requires ParseIcalDatetime(v) == Ok(t)
    ensures Step(f, "DTSTART:" + v) == Ok(f.(start := Some(t)))
  {
    var line := "DTSTART:" + v;
    DateLineShape("DTSTART", v);
    assert "DTSTART" + ":" + v == line;
    assert Trim(line) == line && AfterLastColon(line) == v;
    assert Classify(line) == StartLine;
    assert Step(f, line) == (match ParseIcalDatetime(v)
                            case Ok(t) => Ok(f.(start := Some(t)))
                            case Err(e) => Err(e)
                            case Panic => Panic);
  }

  lemma EndStepOf(f: Fields, v: string, t: Instant)
    requires v != [] && NoEdgeWhitespace(v) && ':' !in v
    requires ParseIcalDatetime(v) == Ok(t)
    ensures Step(f, "DTEND:" + v) == Ok(f.(end := Some(t)))
  {
    var line := "DTEND:" + v;
    DateLineShape("DTEND", v);
    assert "DTEND" + ":" + v == line;
    assert Trim(line) == line && AfterLastColon(line) == v;
    assert Classify(line) == EndLine;
    assert Step(f, line) == (match ParseIcalDatetime(v)
                            case Ok(t) => Ok(f.(end := Some(t)))
                            case Err(e) => Err(e)
                            case Panic => Panic);
  }

  lemma UtcValueFacts(t: DateTime)
    requires ValidTime(t)
    ensures var v := FormatUtc(t); v != [] && NoEdgeWhitespace(v) && ':' !in v
  {
    FormatUtcChars(t);
  }

  lemma StartStep(f: Fields, t: Instant)
    requires ValidTime(t)
    ensures Step(f, "DTSTART:" + FormatUtc(t)) == Ok(f.(start := Some(t)))
  {
    UtcValueFacts(t);
    ParseIcalDatetimeUtc(t);
    StartStepOf(f, FormatUtc(t), t);
  }

  lemma EndStep(f: Fields, t: Instant)
    requires ValidTime(t)
    ensures Step(f, "DTEND:" + FormatUtc(t)) == Ok(f.(end := Some(t)))
  {
    UtcValueFacts(t);
    ParseIcalDatetimeUtc(t);
    EndStepOf(f, FormatUtc(t), t);
  }

  lemma UidStep(f: Fields, u: Uuid)
    requires ValidUuid(u)
    ensures Step(f, "UID:" + u.text) == Ok(f)
  {
    var line := "UID:" + u.text;
    UuidChar(u, u.text[35]);
    assert line[|line| - 1] == u.text[35];
    UuidNoPunctuation(u);
    PlainChars(line);
    NotContainsMissingChar(line, "VALUE=DATE", '=');
    PlainLine(f, line);
  }

  lemma ScanLinesCons(f: Fields, line: string, rest: seq<string>, g: Fields)
    requires Step(f, line) == Ok(g)
    ensures ScanLines(f, [line] + rest) == ScanLines(g, rest)
  {
    assert ([line] + rest)[1..] == rest;
  }

  /** Four lines read one after another, each step succeeding. */
  lemma ScanFour(f: Fields, l0: string, l1: string, l2: string, l3: string, g1: Fields, g2: Fields, g3: Fields, g4: Fields)
    requires Step(f, l0) == Ok(g1) && Step(g1, l1) == Ok(g2) && Step(g2, l2) == Ok(g3) && Step(g3, l3) == Ok(g4)
    ensures ScanLines(f, [l0, l1, l2, l3]) == Ok(g4)
  {
    ScanLinesCons(g3, l3, [], g4);
    assert [l2, l3] == [l2] + [l3];
    ScanLinesCons(g2, l2, [l3], g3);
    assert [l1, l2, l3] == [l1] + [l2, l3];
    ScanLinesCons(g1, l1, [l2, l3], g2);
    assert [l0, l1, l2, l3] == [l0] + [l1, l2, l3];
    ScanLinesCons(f, l0, [l1, l2, l3], g1);
  }

  /** The first half of an export: the header, UID, SUMMARY and DESCRIPTION lines. */
  lemma ScanHead(f: Fields, u: Uuid, s: string, d: string)
    requires ValidUuid(u) && NoEdgeWhitespace(s) && NoEdgeWhitespace(d)
    ensures ScanLines(f, ["BEGIN:VEVENT", "UID:" + u.text, "SUMMARY:" + s, "DESCRIPTION:" + d])
         == Ok(f.(title := Some(s), description := Some(d)))
  {
    var f2 := f.(title := Some(s));
    BeginLineStep(f);
    UidStep(f, u);
    SummaryStep(f, s);
    DescriptionStep(f2, d);
    ScanFour(f, "BEGIN:VEVENT", "UID:" + u.text, "SUMMARY:" + s, "DESCRIPTION:" + d,
             f, f, f2, f2.(description := Some(d)));
  }

  /** The second half of an export: the LOCATION, DTSTART, DTEND and trailer lines. */
  lemma ScanTail(f: Fields, l: string, a: string, ta: Instant, b: string, tb: Instant)
    requires NoEdgeWhitespace(l)
    requires a != [] && NoEdgeWhitespace(a) && ':' !in a && ParseIcalDatetime(a) == Ok(ta)
    requires b != [] && NoEdgeWhitespace(b) && ':' !in b && ParseIcalDatetime(b) == Ok(tb)
    ensures ScanLines(f, ["LOCATION:" + l, "DTSTART:" + a, "DTEND:" + b, "END:VEVENT"])
         == Ok(f.(location := Some(l), start := Some(ta), end := Some(tb)))
  {
    var f4 := f.(location := Some(l));
    var f5 := f4.(start := Some(ta));
    var f6 := f5.(end := Some(tb));
    LocationStep(f, l);
    StartStepOf(f4, a, ta);
    EndStepOf(f5, b, tb);
    EndLineStep(f6);
    ScanFour(f, "LOCATION:" + l, "DTSTART:" + a, "DTEND:" + b, "END:VEVENT", f4, f5, f6, f6);
  }

  /** The fields read from eight lines shaped like an export. */
  lemma ScanEightLines(f: Fields, u: Uuid, s: string, d: string, l: string, a: string, ta: Instant, b: string, tb: Instant)
    requires ValidUuid(u) && NoEdgeWhitespace(s) && NoEdgeWhitespace(d) && NoEdgeWhitespace(l)
    requires a != [] && NoEdgeWhitespace(a) && ':' !in a && ParseIcalDatetime(a) == Ok(ta)
    requires b != [] && NoEdgeWhitespace(b) && ':' !in b && ParseIcalDatetime(b) == Ok(tb)
    ensures ScanLines(f, ["BEGIN:VEVENT", "UID:" + u.text, "SUMMARY:" + s, "DESCRIPTION:" + d,
                          "LOCATION:" + l, "DTSTART:" + a, "DTEND:" + b, "END:VEVENT"])
         == Ok(f.(title := Some(s), description := Some(d), location := Some(l), start := Some(ta), end := Some(tb)))
  {
    var head := ["BEGIN:VEVENT", "UID:" + u.text, "SUMMARY:" + s, "DESCRIPTION:" + d];
    var tail := ["LOCATION:" + l, "DTSTART:" + a, "DTEND:" + b, "END:VEVENT"];
    var g := f.(title := Some(s), description := Some(d));
    ScanHead(f, u, s, d);
    ScanTail(g, l, a, ta, b, tb);
    ScanLinesAppend(f, head, tail);
    FourAndFour("BEGIN:VEVENT", "UID:" + u.text, "SUMMARY:" + s, "DESCRIPTION:" + d,
                "LOCATION:" + l, "DTSTART:" + a, "DTEND:" + b, "END:VEVENT");
  }

  lemma FourAndFour<T>(x0: T, x1: T, x2: T, x3: T, x4: T, x5: T, x6: T, x7: T)
    ensures [x0, x1, x2, x3] + [x4, x5, x6, x7] == [x0, x1, x2, x3, x4, x5, x6, x7]
  {
  }

  /** The fields read from the eight lines of an export. */
  lemma ScanIcalLines(ev: ICalendarEvent, u: Uuid)
    requires ValidTime(ev.dtstart) && ValidTime(ev.dtend) && ValidUuid(u) && ev.uid == u.text
    requires NoEdgeWhitespace(EscapeIcalText(ev.summary))
    requires NoEdgeWhitespace(EscapeOptional(ev.description))
    requires NoEdgeWhitespace(EscapeOptional(ev.location))
    ensures ScanLines(Initial, IcalLines(ev))
         == Ok(Fields(Some(EscapeIcalText(ev.summary)), Some(EscapeOptional(ev.description)),
                      Some(EscapeOptional(ev.location)), Some(ev.dtstart), Some(ev.dtend), false))
  {
    UtcValueFacts(ev.dtstart);
    UtcValueFacts(ev.dtend);
    ParseIcalDatetimeUtc(ev.dtstart);
    ParseIcalDatetimeUtc(ev.dtend);
    ScanEightLines(Initial, u, EscapeIcalText(ev.summary), EscapeOptional(ev.description), EscapeOptional(ev.location),
                   FormatUtc(ev.dtstart), ev.dtstart, FormatUtc(ev.dtend), ev.dtend);
  }

  /**
   * Reading back an exported event gives its title, start and end, no
   * all-day flag, and the description and location as they were written:
   * escaped, and an absent one as the empty string.
   */
  lemma DecodeExport(e: Event)
    requires ValidUuid(e.id) && ValidTime(e.startTime) && ValidTime(e.endTime)
    requires NoEdgeWhitespace(e.title)
    requires NoEdgeWhitespace(e.description.GetOr("")) && NoEdgeWhitespace(e.location.GetOr(""))
    ensures DecodeVEvent(ToIcalString(FromEvent(e)))
         == Ok(NewEvent(EscapeIcalText(e.title), Some(EscapeOptional(e.description)),
                        Some(EscapeOptional(e.location)), e.startTime, e.endTime, false))
  {
    var ev := FromEvent(e);
    EscapeKeepsEdges(e.title);
    EscapeKeepsEdges(e.description.GetOr(""));
    EscapeKeepsEdges(e.location.GetOr(""));
    ReplaceCharAbsent("", '\\', "\\\\");
    UuidNoPunctuation(e.id);
    ToIcalStringLines(ev);
    ScanIcalLines(ev, e.id);
  }

  /**
   * Round trip: an event whose text values hold none of `\ ; , newline`
   * and have no whitespace at either end is read back with the same title,
   * description, location and times, all-day false, and a missing
   * description or location as `Some("")`.
   */
  lemma RoundTrip(e: Event)
    requires ValidUuid(e.id) && ValidTime(e.startTime) && ValidTime(e.endTime)
    requires NoEdgeWhitespace(e.title)
    requires NoEdgeWhitespace(e.description.GetOr("")) && NoEdgeWhitespace(e.location.GetOr(""))
    requires forall i :: 0 <= i < |e.title| ==> !IsIcalSpecial(e.title[i])
    requires forall i :: 0 <= i < |e.description.GetOr("")| ==> !IsIcalSpecial(e.description.GetOr("")[i])
    requires forall i :: 0 <= i < |e.location.GetOr("")| ==> !IsIcalSpecial(e.location.GetOr("")[i])
    ensures DecodeVEvent(ToIcalString(FromEvent(e)))
         == Ok(NewEvent(e.title, Some(e.description.GetOr("")), Some(e.location.GetOr("")),
                        e.startTime, e.endTime, false))
  {
    DecodeExport(e);
    EscapeIcalTextIdentity(e.title);
    EscapeIcalTextIdentity(e.description.GetOr(""));
    EscapeIcalTextIdentity(e.location.GetOr(""));
  }

  /**
   * The reader does not undo the TEXT escape: the title comes back exactly
   * when it holds none of `\ ; , newline`, and what comes back is always
   * the escaped form, from which only the standard's unescape recovers it.
   */
  lemma TitleReadBackIff(e: Event)
    requires ValidUuid(e.id) && ValidTime(e.startTime) && ValidTime(e.endTime)
    requires NoEdgeWhitespace(e.title)
    requires NoEdgeWhitespace(e.description.GetOr("")) && NoEdgeWhitespace(e.location.GetOr(""))
    ensures DecodeVEvent(ToIcalString(FromEvent(e))).Ok?
    ensures DecodeVEvent(ToIcalString(FromEvent(e))).value.title == e.title
        <==> forall i :: 0 <= i < |e.title| ==> !IsIcalSpecial(e.title[i])
    ensures UnescapeIcalText(DecodeVEvent(ToIcalString(FromEvent(e))).value.title) == e.title
  {
    DecodeExport(e);
    EscapeUnchangedIff(e.title);
    UnescapeEscape(e.title);
  }
}
