/**
 * How the CalDAV handlers read a request path such as
 * `/calendars/<calendar id>/` or `/calendars/<calendar id>/<event id>.ics`:
 * every leading `/` is stripped, the rest is split on `/`, segment 1 names
 * the calendar and segment 2 the event file. Segment 0 is never looked at.
 */
module CalDavPath {
  import opened Maybe
  import opened Text
  import opened Uuids

  /** `path.trim_start_matches('/').split('/').collect()`. */
  function Segments(path: string): (parts: seq<string>)
    ensures |parts| >= 1
  {
    Split(TrimStartMatches(path, '/'), '/')
  }

  /** `trim_end_matches(".ics")`: the event file name with every trailing `.ics` removed. */
  function EventIdText(fileName: string): (t: string)
    ensures !EndsWith(t, ".ics") && StartsWith(fileName, t)
  {
    TrimEndMatches(fileName, ".ics")
  }

  /** A GET names the whole calendar when there is no third segment or it is empty. */
  predicate NamesWholeCalendar(parts: seq<string>)
    requires |parts| >= 2
  {
    |parts| == 2 || parts[2] == []
  }

  /** The collection URL the server writes for a calendar. */
  function CalendarHref(calendarId: Uuid): string {
    "/calendars/" + calendarId.text + "/"
  }

  /** The resource URL the server writes for an event. */
  function EventHref(calendarId: Uuid, eventId: Uuid): string {
    "/calendars/" + calendarId.text + "/" + eventId.text + ".ics"
  }

  lemma StripOneSlash(x: string)
    requires x != [] && x[0] != '/'
    ensures TrimStartMatches("/" + x, '/') == x
  {
    assert ("/" + x)[1..] == x;
  }

  /** A path of three slash-free segments, the first non-empty, reads back as those segments. */
  lemma SegmentsOfThree(a: string, b: string, c: string)
    requires a != [] && '/' !in a && '/' !in b && '/' !in c
    ensures Segments("/" + a + "/" + b + "/" + c) == [a, b, c]
  {
    var rest := a + "/" + b + "/" + c;
    assert "/" + a + "/" + b + "/" + c == "/" + rest;
    assert a[0] in a;
    StripOneSlash(rest);
    assert rest == a + ['/'] + (b + ['/'] + c);
    SplitCons(a, b + ['/'] + c, '/');
    SplitCons(b, c, '/');
    SplitWithoutSeparator(c, '/');
  }

  /** The event URL resolves to the calendar identifier in segment 1 and the event identifier in segment 2. */
  lemma ResolveEventHref(calendarId: Uuid, eventId: Uuid)
    requires ValidUuid(calendarId) && ValidUuid(eventId)
    ensures var parts := Segments(EventHref(calendarId, eventId));
      && parts == ["calendars", calendarId.text, eventId.text + ".ics"]
      && ParseUuid(parts[1]) == Some(calendarId)
      && !NamesWholeCalendar(parts)
      && ParseUuid(EventIdText(parts[2])) == Some(eventId)
  {
    UuidNoPunctuation(calendarId);
    UuidNoPunctuation(eventId);
    assert '/' !in ".ics";
    assert '/' !in eventId.text + ".ics";
    assert EventHref(calendarId, eventId) == "/" + "calendars" + "/" + calendarId.text + "/" + (eventId.text + ".ics");
    SegmentsOfThree("calendars", calendarId.text, eventId.text + ".ics");
    IcsSuffixRemoved(eventId);
  }

  /** The collection URL resolves to the calendar identifier and names the whole calendar. */
  lemma ResolveCalendarHref(calendarId: Uuid)
    requires ValidUuid(calendarId)
    ensures var parts := Segments(CalendarHref(calendarId));
      && parts == ["calendars", calendarId.text, ""]
      && ParseUuid(parts[1]) == Some(calendarId)
      && NamesWholeCalendar(parts)
  {
    UuidNoPunctuation(calendarId);
    assert CalendarHref(calendarId) == "/" + "calendars" + "/" + calendarId.text + "/" + "";
    SegmentsOfThree("calendars", calendarId.text, "");
  }

  /** However many slashes lead the path, the segments are the same. */
  lemma {:induction false} LeadingSlashesIgnored(path: string)
    ensures Segments("/" + path) == Segments(path)
  {
    assert ("/" + path)[1..] == path;
  }
}
