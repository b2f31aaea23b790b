/**
 * The CalDAV handlers: discovery, PROPFIND (the multistatus listing of
 * section 9.1 of RFC 4918), the calendar-query REPORT of section 7.8 of
 * RFC 4791, and GET, PUT and DELETE on calendar and event resources. A
 * handler takes the authenticated user and the request path and body,
 * reads and writes the store, and yields a response or an `AppError`.
 */
module CalDav {
  import opened Maybe
  import opened Text
  import opened Uuids
  import opened Models
  import opened Http
  import opened Errors
  import opened IcalDecode
  import opened XmlEscape
  import opened Store
  import opened Seqs
  import opened CalDavPath

  const XmlContentType := "application/xml; charset=utf-8"
  const CalendarContentType := "text/calendar; charset=utf-8"

  // ---------------------------------------------------------------------
  // Discovery

  /** `caldav_discovery`: points clients at the calendar collections. */
  function Discovery(): (r: Response)
    ensures r.status == 200 && Header(r, ContentType) == Some("text/plain")
  {
    WithContentType(200, "text/plain", "/calendars/")
  }

  /** Every collection URL the server writes lies under the discovered path. */
  lemma DiscoveryIsCollectionRoot(calendarId: Uuid)
    ensures StartsWith(CalendarHref(calendarId), Discovery().body)
  {
    assert CalendarHref(calendarId) == "/calendars/" + (calendarId.text + "/");
    StartsWithAppend("/calendars/", calendarId.text + "/");
  }

  // ---------------------------------------------------------------------
  // Multistatus bodies

  /** An XML element written as `<tag>content</tag>`. */
  function Element(tag: string, content: string): string {
    "<" + tag + ">" + content + "</" + tag + ">"
  }

  const MultiStatusOpen := "<?xml version=\"1.0\" encoding=\"utf-8\"?>\n<d:multistatus xmlns:d=\"DAV:\" xmlns:cal=\"urn:ietf:params:xml:ns:caldav\">\n    "
  const MultiStatusClose := "\n</d:multistatus>"

  /** The `<d:multistatus>` document around the pushed responses. */
  function MultiStatus(responses: string): string {
    MultiStatusOpen + responses + MultiStatusClose
  }

  /** 207 Multi-Status with an XML body. */
  function MultiStatusResponse(responses: string): (r: Response)
    ensures r.status == 207 && Header(r, ContentType) == Some(XmlContentType)
    ensures r.body == MultiStatus(responses)
  {
    WithContentType(207, XmlContentType, MultiStatus(responses))
  }

  const PropfindHead := "<d:response>\n                "
  const PropfindMiddle := "\n                <d:propstat>\n                    <d:prop>\n                        <d:resourcetype>\n                            <d:collection/>\n                            <cal:calendar/>\n                        </d:resourcetype>\n                        "
  const PropfindTail := "\n                        <cal:supported-calendar-component-set>\n                            <cal:comp name=\"VEVENT\"/>\n                            <cal:comp name=\"VTODO\"/>\n                        </cal:supported-calendar-component-set>\n                    </d:prop>\n                    <d:status>HTTP/1.1 200 OK</d:status>\n                </d:propstat>\n            </d:response>"

  /**
   * The `<d:response>` PROPFIND writes for one calendar: its collection URL,
   * the resource types collection and calendar, its name as stored (not
   * XML-escaped), and the components VEVENT and VTODO.
   */
  function PropfindEntry(c: Calendar): string {
    PropfindHead + (Element("d:href", CalendarHref(c.id))
    + (PropfindMiddle + (Element("d:displayname", c.name) + PropfindTail)))
  }

  /** The body PROPFIND builds: one entry per calendar, in store order. */
  function PropfindBody(db: Db, user: Uuid): string {
    MultiStatus(ConcatMap(CalendarsOfUser(db, user), PropfindEntry))
  }

  /** `caldav_propfind`: the calendars of the user, each pushed as one response. The request URI is not read. */
  method Propfind(db: Db, user: Uuid) returns (r: Response)
    ensures r == MultiStatusResponse(ConcatMap(CalendarsOfUser(db, user), PropfindEntry))
  {
    var calendars := CalendarsOfUser(db, user);
    var responses := PushEach("", calendars, PropfindEntry);
    r := MultiStatusResponse(responses);
  }

  /**
   * Every calendar the user owns is listed with its collection URL and its
   * name exactly as stored, not XML-escaped.
   */
  lemma PropfindListsOwnedCalendars(db: Db, user: Uuid, c: Calendar)
    requires c in db.calendars && c.userId == user
    ensures Contains(PropfindBody(db, user), PropfindEntry(c))
    ensures Contains(PropfindEntry(c), Element("d:href", CalendarHref(c.id)))
    ensures Contains(PropfindEntry(c), Element("d:displayname", c.name))
  {
    var cs := CalendarsOfUser(db, user);
    var k :| 0 <= k < |cs| && cs[k] == c;
    ConcatMapContains(MultiStatusOpen, cs, PropfindEntry, MultiStatusClose, k);
    var href, name := Element("d:href", CalendarHref(c.id)), Element("d:displayname", c.name);
    var rest := PropfindMiddle + (name + PropfindTail);
    ContainsHead(href, rest);
    ContainsPrefixed(PropfindHead, href + rest, href);
    ContainsHead(name, PropfindTail);
    ContainsPrefixed(PropfindMiddle, name + PropfindTail, name);
    ContainsPrefixed(href, rest, name);
    ContainsPrefixed(PropfindHead, href + rest, name);
  }

  /** The text of one event's VEVENT block. */
  function VEventOf(e: Event): string {
    ToIcalString(FromEvent(e))
  }

  /** The quoted identifier used as entity tag. */
  function ETagOf(id: Uuid): string {
    "\"" + id.text + "\""
  }

  const ReportHead := "<d:response>\n                    "
  const ReportProps := "\n                    <d:propstat>\n                        <d:prop>\n                            "
  const ReportData := "\n                            "
  const ReportTail := "\n                        </d:prop>\n                        <d:status>HTTP/1.1 200 OK</d:status>\n                    </d:propstat>\n                </d:response>"

  /** The `<d:response>` REPORT writes for one event: its URL, its entity tag, and its VEVENT escaped for XML. */
  function ReportEntry(calendarId: Uuid, e: Event): string {
    ReportHead + (Element("d:href", EventHref(calendarId, e.id))
    + (ReportProps + (Element("d:getetag", ETagOf(e.id))
    + (ReportData + (Element("cal:calendar-data", EscapeXml(VEventOf(e))) + ReportTail)))))
  }

  /** The entry writer for the events of one calendar. */
  function EventReporter(calendarId: Uuid): Event -> string {
    e => ReportEntry(calendarId, e)
  }

  /** The entries of one calendar's events, in store order. */
  function CalendarReport(db: Db, c: Calendar): string {
    ConcatMap(EventsOfCalendar(db, c.id), EventReporter(c.id))
  }

  /** The entry writer for the calendars of one store. */
  function CalendarReporter(db: Db): Calendar -> string {
    c => CalendarReport(db, c)
  }

  /** The body REPORT builds: the calendars of the user in store order, each with its events. */
  function ReportBody(db: Db, user: Uuid): string {
    MultiStatus(ConcatMap(CalendarsOfUser(db, user), CalendarReporter(db)))
  }

  /** `caldav_report`: for each calendar of the user, for each of its events, one response. The request body is not read. */
  method Report(db: Db, user: Uuid, body: string) returns (r: Response)
    ensures r.status == 207 && Header(r, ContentType) == Some(XmlContentType)
    ensures r.body == ReportBody(db, user)
  {
    var calendars := CalendarsOfUser(db, user);
    var responses := "";
    var i := 0;
    while i < |calendars|
      invariant 0 <= i <= |calendars|
      invariant responses == ConcatMap(calendars[..i], CalendarReporter(db))
    {
      var calendar := calendars[i];
      var events := EventsOfCalendar(db, calendar.id);
      responses := PushEach(responses, events, EventReporter(calendar.id));
      assert CalendarReporter(db)(calendar) == ConcatMap(events, EventReporter(calendar.id));
      ConcatMapSnoc(calendars, CalendarReporter(db), i);
      i := i + 1;
    }
    assert calendars[..i] == calendars;
    r := MultiStatusResponse(responses);
  }

  /** Every event of every calendar the user owns is reported. */
  lemma ReportListsOwnedEvents(db: Db, user: Uuid, c: Calendar, e: Event)
    requires c in db.calendars && c.userId == user
    requires e in db.events && e.calendarId == c.id
    ensures Contains(ReportBody(db, user), ReportEntry(c.id, e))
  {
    var cs := CalendarsOfUser(db, user);
    var k :| 0 <= k < |cs| && cs[k] == c;
    var evs := EventsOfCalendar(db, c.id);
    var m :| 0 <= m < |evs| && evs[m] == e;
    ConcatMapContains(MultiStatusOpen, cs, CalendarReporter(db), MultiStatusClose, k);
    ConcatMapContainsElement(evs, EventReporter(c.id), m);
    ContainsTrans(ReportBody(db, user), CalendarReport(db, c), ReportEntry(c.id, e));
  }

  /** A REPORT entry carries the event's URL, its identifier as entity tag, and its escaped VEVENT. */
  lemma ReportEntryParts(calendarId: Uuid, e: Event)
    ensures Contains(ReportEntry(calendarId, e), Element("d:href", EventHref(calendarId, e.id)))
    ensures Contains(ReportEntry(calendarId, e), Element("d:getetag", ETagOf(e.id)))
    ensures Contains(ReportEntry(calendarId, e), Element("cal:calendar-data", EscapeXml(VEventOf(e))))
  {
    var href := Element("d:href", EventHref(calendarId, e.id));
    var etag := Element("d:getetag", ETagOf(e.id));
    var data := Element("cal:calendar-data", EscapeXml(VEventOf(e)));
    var s4 := data + ReportTail;
    var s3 := ReportData + s4;
    var s2 := etag + s3;
    var s1 := ReportProps + s2;
    var s0 := href + s1;
    ContainsHead(href, s1);
    ContainsPrefixed(ReportHead, s0, href);
    ContainsHead(etag, s3);
    ContainsPrefixed(ReportProps, s2, etag);
    ContainsPrefixed(href, s1, etag);
    ContainsPrefixed(ReportHead, s0, etag);
    ContainsHead(data, ReportTail);
    ContainsPrefixed(ReportData, s4, data);
    ContainsPrefixed(etag, s3, data);
    ContainsPrefixed(ReportProps, s2, data);
    ContainsPrefixed(href, s1, data);
    ContainsPrefixed(ReportHead, s0, data);
  }

  /**
   * The calendar-data of a reported event holds no markup character, and
   * decoding its entities gives back the VEVENT block exactly.
   */
  lemma ReportCalendarData(e: Event)
    ensures var data := EscapeXml(VEventOf(e));
      && '<' !in data && '>' !in data
      && UnescapeXml(data) == VEventOf(e)
  {
    EscapeXmlNoMarkup(VEventOf(e));
    UnescapeEscapeXml(VEventOf(e));
  }

  // ---------------------------------------------------------------------
  // GET

  const PreambleLines := ["BEGIN:VCALENDAR", "VERSION:2.0", "PRODID:-//My CalDAV Server//EN"]
  const Preamble := CrlfLines(PreambleLines)
  const EndCalendar := CrlfLines(["END:VCALENDAR"])
  const CalendarNameLine := "CALSCALE:GREGORIAN\r\nX-WR-CALNAME:"

  /** The VCALENDAR header of a whole calendar; the name goes in as stored, without escaping. */
  function CalendarHead(name: string): string {
    Preamble + (CalendarNameLine + (name + "\r\n"))
  }

  /** A whole calendar: the header, each event's VEVENT in store order, the trailer. */
  function CalendarDocument(name: string, events: seq<Event>): string {
    CalendarHead(name) + ConcatMap(events, VEventOf) + EndCalendar
  }

  /** One event wrapped in a VCALENDAR. */
  function EventDocument(e: Event): string {
    Preamble + VEventOf(e) + EndCalendar
  }

  function CalendarResponse(body: string): (r: Response)
    ensures r.status == 200 && r.body == body && Header(r, ContentType) == Some(CalendarContentType)
  {
    WithContentType(200, CalendarContentType, body)
  }

  function EventResponse(e: Event): (r: Response)
    ensures r.status == 200 && r.body == EventDocument(e)
    ensures Header(r, ContentType) == Some(CalendarContentType)
    ensures Header(r, ETagHeader) == Some(ETagOf(e.id))
  {
    Response(200, map[ContentType := [CalendarContentType], ETagHeader := [ETagOf(e.id)]], EventDocument(e))
  }

  /** Whether the user may read the calendar: they own it or it is public. */
  predicate MayRead(c: Calendar, user: Uuid) {
    c.userId == user || c.isPublic
  }

  /** `caldav_get` as a function of the store, the user and the path. */
  function GetSpec(db: Db, user: Uuid, path: string): (r: Result<Response>)
    ensures r.Ok? ==>
      var parts := Segments(path);
      && |parts| >= 2 && ParseUuid(parts[1]).Some?
      && GetCalendar(db, ParseUuid(parts[1]).value).Some?
      && MayRead(GetCalendar(db, ParseUuid(parts[1]).value).value, user)
    ensures |Segments(path)| < 2 ==> r == Err(ValidationError("Invalid calendar path"))
    ensures var parts := Segments(path);
      |parts| >= 2 && ParseUuid(parts[1]).Some? && GetCalendar(db, ParseUuid(parts[1]).value).Some?
      && !MayRead(GetCalendar(db, ParseUuid(parts[1]).value).value, user)
      ==> r == Err(AuthenticationError("Access denied"))
  {
    var parts := Segments(path);
    if |parts| < 2 then Err(ValidationError("Invalid calendar path"))
    else
      match ParseUuid(parts[1])
      case None => Err(UuidError(parts[1]))
      case Some(calendarId) =>
        match GetCalendar(db, calendarId)
        case None => Err(NotFoundError("Calendar not found"))
        case Some(calendar) =>
          if !MayRead(calendar, user) then Err(AuthenticationError("Access denied"))
          else if NamesWholeCalendar(parts) then
            Ok(CalendarResponse(CalendarDocument(calendar.name, EventsOfCalendar(db, calendarId))))
          else
            var idText := EventIdText(parts[2]);
            match ParseUuid(idText)
            case None => Err(UuidError(idText))
            case Some(eventId) =>
              match GetEvent(db, eventId)
              case None => Err(NotFoundError("Event not found"))
              case Some(event) => Ok(EventResponse(event))
  }

  /** `caldav_get`: the whole-calendar branch appends each event's VEVENT to the document. */
  method Get(db: Db, user: Uuid, path: string) returns (r: Result<Response>)
    ensures r == GetSpec(db, user, path)
  {
    var parts := Segments(path);
    if |parts| < 2 {
      return Err(ValidationError("Invalid calendar path"));
    }
    var calendarId := ParseUuid(parts[1]);
    if calendarId.None? {
      return Err(UuidError(parts[1]));
    }
    var calendar := GetCalendar(db, calendarId.value);
    if calendar.None? {
      return Err(NotFoundError("Calendar not found"));
    }
    if calendar.value.userId != user && !calendar.value.isPublic {
      return Err(AuthenticationError("Access denied"));
    }
    if |parts| == 2 || parts[2] == [] {
      var events := EventsOfCalendar(db, calendarId.value);
      var content := PushEach(CalendarHead(calendar.value.name), events, VEventOf);
      content := content + EndCalendar;
      return Ok(CalendarResponse(content));
    }
    var idText := EventIdText(parts[2]);
    var eventId := ParseUuid(idText);
    if eventId.None? {
      return Err(UuidError(idText));
    }
    var event := GetEvent(db, eventId.value);
    if event.None? {
      return Err(NotFoundError("Event not found"));
    }
    r := Ok(EventResponse(event.value));
  }

  /** GET succeeds with the whole calendar once the path resolves to a readable calendar and names no event. */
  lemma GetSpecWhole(db: Db, user: Uuid, path: string, c: Calendar)
    requires |Segments(path)| >= 2 && ParseUuid(Segments(path)[1]) == Some(c.id)
    requires GetCalendar(db, c.id) == Some(c) && MayRead(c, user) && NamesWholeCalendar(Segments(path))
    ensures GetSpec(db, user, path) == Ok(CalendarResponse(CalendarDocument(c.name, EventsOfCalendar(db, c.id))))
  {
  }

  /** GET succeeds with the event once the path resolves to a readable calendar and to a stored event. */
  lemma GetSpecEvent(db: Db, user: Uuid, path: string, c: Calendar, e: Event)
    requires |Segments(path)| >= 2 && ParseUuid(Segments(path)[1]) == Some(c.id)
    requires GetCalendar(db, c.id) == Some(c) && MayRead(c, user) && !NamesWholeCalendar(Segments(path))
    requires ParseUuid(EventIdText(Segments(path)[2])) == Some(e.id) && GetEvent(db, e.id) == Some(e)
    ensures GetSpec(db, user, path) == Ok(EventResponse(e))
  {
  }

  /** GET on a readable collection URL returns the whole calendar, holding the VEVENT of each of its events. */
  lemma GetWholeCalendar(db: Db, user: Uuid, c: Calendar, e: Event)
    requires WellFormed(db) && ValidUuid(c.id) && c in db.calendars && MayRead(c, user)
    requires e in db.events && e.calendarId == c.id
    ensures GetSpec(db, user, CalendarHref(c.id)) == Ok(CalendarResponse(CalendarDocument(c.name, EventsOfCalendar(db, c.id))))
    ensures Contains(CalendarDocument(c.name, EventsOfCalendar(db, c.id)), VEventOf(e))
  {
    ResolveCalendarHref(c.id);
    var n :| 0 <= n < |db.calendars| && db.calendars[n] == c;
    FindUnique(db.calendars, CalendarKey, n);
    var evs := EventsOfCalendar(db, c.id);
    var m :| 0 <= m < |evs| && evs[m] == e;
    GetSpecWhole(db, user, CalendarHref(c.id), c);
    CalendarDocumentContains(c.name, evs, m);
  }

  /** A whole calendar holds the VEVENT of each of the events it is built from. */
  lemma CalendarDocumentContains(name: string, events: seq<Event>, m: nat)
    requires m < |events|
    ensures Contains(CalendarDocument(name, events), VEventOf(events[m]))
  {
    ConcatMapContains(CalendarHead(name), events, VEventOf, EndCalendar, m);
  }

  /**
   * GET on an event URL under a readable calendar returns the event with
   * that identifier wherever it is stored: the event is looked up by
   * identifier alone, even when it belongs to a different calendar.
   */
  lemma GetEventByIdAlone(db: Db, user: Uuid, c: Calendar, e: Event)
    requires WellFormed(db) && ValidUuid(c.id) && ValidUuid(e.id)
    requires c in db.calendars && MayRead(c, user) && e in db.events
    ensures GetSpec(db, user, EventHref(c.id, e.id)) == Ok(EventResponse(e))
  {
    ResolveEventHref(c.id, e.id);
    var n :| 0 <= n < |db.calendars| && db.calendars[n] == c;
    FindUnique(db.calendars, CalendarKey, n);
    var m :| 0 <= m < |db.events| && db.events[m] == e;
    FindUnique(db.events, EventKey, m);
    GetSpecEvent(db, user, EventHref(c.id, e.id), c, e);
  }

  /** The document GET returns for one event is made of CR LF terminated content lines. */
  lemma EventDocumentCrlf(e: Event)
    requires ValidUuid(e.id)
    ensures EventDocument(e) == CrlfLines(PreambleLines) + CrlfLines(IcalLines(FromEvent(e))) + CrlfLines(["END:VCALENDAR"])
    ensures NoNewlines(IcalLines(FromEvent(e)))
  {
    UuidNoPunctuation(e.id);
    ToIcalStringLines(FromEvent(e));
    IcalLinesNoNewline(FromEvent(e));
  }

  /** The content lines of the document GET returns for one event. */
  lemma EventDocumentLines(e: Event)
    requires ValidUuid(e.id)
    ensures Lines(EventDocument(e)) == PreambleLines + IcalLines(FromEvent(e)) + ["END:VCALENDAR"]
  {
    EventDocumentCrlf(e);
    FrameNoNewlines();
    LinesOfCrlfLines3(PreambleLines, IcalLines(FromEvent(e)), ["END:VCALENDAR"]);
  }

  /** The VCALENDAR header and trailer lines hold no line feed. */
  lemma FrameNoNewlines()
    ensures NoNewlines(PreambleLines) && NoNewlines(["END:VCALENDAR"])
  {
    forall i | 0 <= i < |PreambleLines|
      ensures '\n' !in PreambleLines[i]
    {
    }
  }

  /** The reader passes over each VCALENDAR header line without changing anything. */
  lemma CalendarBeginStep(f: Fields)
    ensures Step(f, "BEGIN:VCALENDAR") == Ok(f)
  {
    TrimUnchanged("BEGIN:VCALENDAR");
    OtherLineAt(f, "BEGIN:VCALENDAR", '=', 0, 0, 0, 0, 0);
  }

  lemma VersionStep(f: Fields)
    ensures Step(f, "VERSION:2.0") == Ok(f)
  {
    TrimUnchanged("VERSION:2.0");
    OtherLineAt(f, "VERSION:2.0", '=', 0, 0, 0, 0, 0);
  }

  lemma ProdIdStep(f: Fields)
    ensures Step(f, "PRODID:-//My CalDAV Server//EN") == Ok(f)
  {
    TrimUnchanged("PRODID:-//My CalDAV Server//EN");
    OtherLineAt(f, "PRODID:-//My CalDAV Server//EN", '=', 0, 0, 0, 0, 0);
  }

  /** The reader passes over the VCALENDAR header lines without changing anything. */
  lemma PreambleSkipped(f: Fields)
    ensures ScanLines(f, PreambleLines) == Ok(f)
  {
    CalendarBeginStep(f);
    VersionStep(f);
    ProdIdStep(f);
    ScanThreeUnchanged(f, "BEGIN:VCALENDAR", "VERSION:2.0", "PRODID:-//My CalDAV Server//EN");
  }

  /** The reader passes over the VCALENDAR trailer line without changing anything. */
  lemma TrailerSkipped(f: Fields)
    ensures ScanLines(f, ["END:VCALENDAR"]) == Ok(f)
  {
    TrimUnchanged("END:VCALENDAR");
    OtherLineAt(f, "END:VCALENDAR", '=', 0, 0, 0, 0, 0);
    ScanLinesUnchanged(f, ["END:VCALENDAR"]);
  }

  /**
   * What GET returns for one event can be sent back with PUT: the reader
   * passes over the VCALENDAR lines around the VEVENT and reads the same
   * fields as from the VEVENT alone.
   */
  lemma EventDocumentDecodes(e: Event)
    requires ValidUuid(e.id)
    ensures DecodeVEvent(EventDocument(e)) == DecodeVEvent(VEventOf(e))
  {
    UuidNoPunctuation(e.id);
    ToIcalStringLines(FromEvent(e));
    EventDocumentLines(e);
    forall f: Fields
      ensures ScanLines(f, PreambleLines) == Ok(f) && ScanLines(f, ["END:VCALENDAR"]) == Ok(f)
    {
      PreambleSkipped(f);
      TrailerSkipped(f);
    }
    ScanLinesAround(PreambleLines, IcalLines(FromEvent(e)), ["END:VCALENDAR"]);
  }

  lemma SegmentsAfterFirst(a: string, rest: string)
    requires a != [] && '/' !in a
    ensures Segments("/" + a + "/" + rest) == [a] + Split(rest, '/')
  {
    assert "/" + a + "/" + rest == "/" + (a + ['/'] + rest);
    assert a[0] in a;
    StripOneSlash(a + ['/'] + rest);
    SplitCons(a, rest, '/');
  }

  /** Segment 0 is never checked: any first segment serves as well as `calendars`. */
  lemma GetIgnoresFirstSegment(db: Db, user: Uuid, a: string, rest: string)
    requires a != [] && '/' !in a
    ensures GetSpec(db, user, "/" + a + "/" + rest) == GetSpec(db, user, "/calendars/" + rest)
  {
    SegmentsAfterFirst(a, rest);
    assert "/calendars/" + rest == "/" + "calendars" + "/" + rest;
    SegmentsAfterFirst("calendars", rest);
  }

  // ---------------------------------------------------------------------
  // PUT and DELETE

  /** 201 Created naming the new resource. */
  function CreatedResponse(calendarId: Uuid, eventId: Uuid): (r: Response)
    ensures r.status == 201 && r.body == ""
    ensures Header(r, LocationHeader) == Some(EventHref(calendarId, eventId))
    ensures Header(r, ETagHeader) == Some(ETagOf(eventId))
  {
    Response(201, map[LocationHeader := [EventHref(calendarId, eventId)], ETagHeader := [ETagOf(eventId)]], "")
  }

  /** 204 No Content with an empty body. */
  function NoContent(): (r: Response)
    ensures r.status == 204 && r.body == "" && r.headers == map[]
  {
    Response(204, map[], "")
  }

  /**
   * `caldav_put`: path length, calendar identifier, calendar lookup,
   * ownership, then the body is decoded and a new event is always created
   * under `newId`; the event segment of the path is not used.
   */
  function Put(db: Db, user: Uuid, path: string, body: string, newId: Uuid): (r: (Result<Response>, Db))
    ensures !r.0.Ok? ==> r.1 == db
    ensures r.0.Ok? ==>
      var parts := Segments(path);
      && |parts| >= 3 && ParseUuid(parts[1]).Some?
      && GetCalendar(db, ParseUuid(parts[1]).value).Some?
      && GetCalendar(db, ParseUuid(parts[1]).value).value.userId == user
      && DecodeVEvent(body).Ok?
      && r.0.value == CreatedResponse(ParseUuid(parts[1]).value, newId)
      && r.1 == CreateEvent(db, ParseUuid(parts[1]).value, DecodeVEvent(body).value, newId).1
    ensures |Segments(path)| < 3 ==> r.0 == Err(ValidationError("Invalid event path"))
  {
    var parts := Segments(path);
    if |parts| < 3 then (Err(ValidationError("Invalid event path")), db)
    else
      match ParseUuid(parts[1])
      case None => (Err(UuidError(parts[1])), db)
      case Some(calendarId) =>
        match GetCalendar(db, calendarId)
        case None => (Err(NotFoundError("Calendar not found")), db)
        case Some(calendar) =>
          if calendar.userId != user then (Err(AuthenticationError("You don't own this calendar")), db)
          else
            match DecodeVEvent(body)
            case Err(e) => (Err(e), db)
            case Panic => (Panic, db)
            case Ok(newEvent) =>
              var (event, db') := CreateEvent(db, calendarId, newEvent, newId);
              (Ok(CreatedResponse(calendarId, event.id)), db')
  }

  /** Ownership is checked before the body is read: a non-owner is refused whatever the body, and a public calendar takes no writes. */
  lemma PutOwnerBeforeBody(db: Db, user: Uuid, c: Calendar, name: string, body: string, newId: Uuid)
    requires WellFormed(db) && ValidUuid(c.id) && c in db.calendars && c.userId != user
    requires '/' !in name
    ensures Put(db, user, "/calendars/" + c.id.text + "/" + name, body, newId)
         == (Err(AuthenticationError("You don't own this calendar")), db)
  {
    UuidNoPunctuation(c.id);
    assert "/calendars/" + c.id.text + "/" + name == "/" + "calendars" + "/" + c.id.text + "/" + name;
    SegmentsOfThree("calendars", c.id.text, name);
    var n :| 0 <= n < |db.calendars| && db.calendars[n] == c;
    FindUnique(db.calendars, CalendarKey, n);
  }

  /**
   * After a successful PUT the store is still well formed, and a GET of the
   * returned Location by the same user yields the created event with the
   * returned ETag.
   */
  lemma PutThenGet(db: Db, user: Uuid, path: string, body: string, newId: Uuid)
    requires WellFormed(db) && ValidUuid(newId) && FreshIn(db.events, EventKey, newId)
    requires Put(db, user, path, body, newId).0.Ok?
    ensures var (r, db') := Put(db, user, path, body, newId);
      var calendarId := ParseUuid(Segments(path)[1]).value;
      var event := CreateEvent(db, calendarId, DecodeVEvent(body).value, newId).0;
      && WellFormed(db')
      && GetSpec(db', user, Header(r.value, LocationHeader).value) == Ok(EventResponse(event))
      && Header(EventResponse(event), ETagHeader) == Header(r.value, ETagHeader)
  {
    var (r, db') := Put(db, user, path, body, newId);
    var calendarId := ParseUuid(Segments(path)[1]).value;
    var newEvent := DecodeVEvent(body).value;
    var event := CreateEvent(db, calendarId, newEvent, newId).0;
    CreateEventWellFormed(db, calendarId, newEvent, newId);
    assert ValidUuid(calendarId);
    ResolveEventHref(calendarId, newId);
    assert GetCalendar(db', calendarId) == GetCalendar(db, calendarId);
    FindAppendNew(db.events, EventKey, event);
  }

  /**
   * `caldav_delete`: path length, event identifier from segment 2, event
   * lookup, lookup of the event's own calendar, ownership, then the delete.
   * Segment 1 is not read.
   */
  function Delete(db: Db, user: Uuid, path: string): (r: (Result<Response>, Db))
    ensures !r.0.Ok? ==> r.1 == db
    ensures r.0.Ok? ==>
      var parts := Segments(path);
      && |parts| >= 3 && ParseUuid(EventIdText(parts[2])).Some?
      && var eventId := ParseUuid(EventIdText(parts[2])).value;
      && GetEvent(db, eventId).Some?
      && GetCalendar(db, GetEvent(db, eventId).value.calendarId).Some?
      && GetCalendar(db, GetEvent(db, eventId).value.calendarId).value.userId == user
      && r.0.value == NoContent()
      && r.1 == DeleteEvent(db, eventId)
    ensures |Segments(path)| < 3 ==> r.0 == Err(ValidationError("Invalid event path"))
  {
    var parts := Segments(path);
    if |parts| < 3 then (Err(ValidationError("Invalid event path")), db)
    else
      var idText := EventIdText(parts[2]);
      match ParseUuid(idText)
      case None => (Err(UuidError(idText)), db)
      case Some(eventId) =>
        match GetEvent(db, eventId)
        case None => (Err(NotFoundError("Event not found")), db)
        case Some(event) =>
          match GetCalendar(db, event.calendarId)
          case None => (Err(NotFoundError("Calendar not found")), db)
          case Some(calendar) =>
            if calendar.userId != user then (Err(AuthenticationError("You don't have access to this event")), db)
            else (Ok(NoContent()), DeleteEvent(db, eventId))
  }

  /** DELETE checks ownership of the event's own calendar and ignores the calendar named in the path. */
  lemma DeleteIgnoresCalendarSegment(db: Db, user: Uuid, a: Uuid, b: Uuid, e: Event)
    requires WellFormed(db) && ValidUuid(a) && ValidUuid(b) && ValidUuid(e.id) && e in db.events
    ensures Delete(db, user, EventHref(a, e.id)) == Delete(db, user, EventHref(b, e.id))
    ensures Delete(db, user, EventHref(a, e.id)).0.Ok?
        <==> GetCalendar(db, e.calendarId).value.userId == user
  {
    ResolveEventHref(a, e.id);
    ResolveEventHref(b, e.id);
    var m :| 0 <= m < |db.events| && db.events[m] == e;
    FindUnique(db.events, EventKey, m);
  }

  /** A successful DELETE removes exactly the named event and keeps the store well formed. */
  lemma DeleteRemovesEvent(db: Db, user: Uuid, path: string, other: Uuid)
    requires WellFormed(db) && Delete(db, user, path).0.Ok?
    ensures var eventId := ParseUuid(EventIdText(Segments(path)[2])).value;
      var db' := Delete(db, user, path).1;
      && GetEvent(db', eventId).None? && WellFormed(db')
      && (other != eventId ==> GetEvent(db', other) == GetEvent(db, other))
  {
    var eventId := ParseUuid(EventIdText(Segments(path)[2])).value;
    if other != eventId {
      DeleteEventEffect(db, eventId, other);
    } else {
      var z := Uuid(eventId.text + "-");
      assert |z.text| != |eventId.text|;
      DeleteEventEffect(db, eventId, z);
    }
  }
}
