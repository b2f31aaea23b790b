# A verified model of the myCalDAV server core

This project models the core of a small calendar server written in Rust with axum. The server keeps users, calendars, events and shares, and serves them in three ways:

- a CalDAV interface: discovery, PROPFIND, REPORT, GET, PUT and DELETE, with iCalendar text (RFC 5545) in XML multistatus bodies (RFC 4918);
- a JSON REST interface;
- a server-rendered web interface of forms and pages.

A middleware layer authenticates requests with a Bearer token (section 2.1 of RFC 6750) and adds CORS headers to every response.

The model is written in Dafny and every claim below is proved by the verifier. Its parts:

- `Models` holds the records, the iCalendar export of an event (`to_ical_string`, `From<&Event>`, `escape_ical_text`) and the permission-level names.
- `IcalDecode` is the line scanner `parse_icalendar` and the date-time reader `parse_ical_datetime`. The scanner is a loop, so it is a method proved equal to a scanning function; the round trip from an exported event back to its fields is proved on that function.
- `XmlEscape` is `escape_xml`, proved invertible and free of markup characters.
- `CalDavPath` splits a request path into segments the way the CalDAV handlers do.
- `CalDav` covers the CalDAV handlers. PROPFIND, REPORT and GET build their bodies in loops; they are methods whose results are tied to functions over the store. Their `push_str` loops share one method, `Seqs.PushEach`. PUT and DELETE are functions.
- `Rest` covers the JSON handlers and their ownership checks.
- `Errors` maps each `AppError` kind to its status and message.
- `Middleware` has the route predicate, Bearer extraction, the admit/refuse decision and the CORS header overwrite. The request is a class whose principal field the middleware sets; the header map is a class whose `insert` overwrites a name.
- `Web` covers registration, the event form's date-time fields, the dashboard, calendars and events pages (methods with the source's loops), and the ownership-gated form handlers.
- `Store` is the database behind `CalendarService`, as a value: four tables kept in insertion order.
  - A handler takes the store and returns its result together with the new store.
  - New identifiers, the clock, password hashes and session tokens are parameters.
- `Times`, `Uuids`, `Http`, `Text`, `Seqs` and `Maybe` hold the date-times, identifiers, responses, string functions and sequence functions the others share.

Where the code does something other than one would expect, the model follows the code:

- `parse_icalendar` never undoes the iCalendar text escapes that the export applies, so a title holding `;`, `,`, `\` or a newline comes back escaped (`IcalDecode.TitleReadBackIff`).
- A `DTSTART;VALUE=DATE:…` line is taken by the `DTSTART` branch, so it never sets the all-day flag; only a line outside the five named properties (`SUMMARY:`, `DESCRIPTION:`, `LOCATION:`, `DTSTART`, `DTEND`) that contains `VALUE=DATE` does (`IcalDecode.DateStartIsNotAllDay`).
- Two CalDAV values are not escaped: the PROPFIND display name and the `X-WR-CALNAME` line of a whole-calendar GET.
- The path splitter strips every leading `/`, not just one.
- The first path segment is never compared with `calendars`.
- GET of an event does not check that the event belongs to the calendar named in the path. DELETE ignores the calendar segment altogether.
- The REST `delete_share` checks nothing. The REST getters for a user, a calendar or an event check no ownership.
- `create_share` in the service layer reads fields that `NewShare` does not have. The store records the recipient's e-mail and the permission text that `NewShare` carries.
- `delete_share_handler` calls `get_all_shares` (`src/handlers/web.rs:695`), which `CalendarService` does not define. `Web.ShareAccess` reads the call as a lookup of the share among all stored shares.
- `User` has a `name` field (`src/models.rs:8`), but the `users` queries of `get_user_by_id`, `get_user_by_email` and `create_user` (`src/services.rs:29-70`) neither select nor insert a name. As written, the name is never stored and those rows cannot be read into a `User`. The model assumes the name column is stored and read back: `Store.CreateUser` records it, and `Web.Register` and `Rest.HandleGetUser` succeed with it.
- `Share` has a `shared_with_email` field (`src/models.rs:48`), but `get_shares_by_calendar_id` and the `RETURNING` clause of `create_share` (`src/services.rs:337-379`) do not select it, so as written those rows cannot be read into a `Share`. The model assumes the column is stored and read back: `Store.CreateShare` records the recipient's e-mail, and `Store.SharesOfCalendar`, `Rest.HandleGetShares` and `Rest.CreateShareThenList` succeed with it.
- The route table in `src/lib.rs:71-77` does not match the CalDAV handler signatures: `caldav_get` takes a `&str`, and PUT, DELETE and REPORT are never routed. Each handler is modelled as written.

## Model

| member | source | states |
|---|---|---|
| `Models.FromStr` | src/models.rs:69-76 | exactly `read`, `write` and `admin` are accepted, and `as_str` gives the accepted text back |
| `Models.FromStrAsStr` | src/models.rs:60-77 | `from_str(as_str(p))` is `p` for every level |
| `Models.AsStrInjective` | src/models.rs:61-67 | two levels with the same name are the same level |
| `Models.EscapeIcalTextIsEscapeEach` | src/models.rs:181-186 | the four chained `replace` calls escape each character independently: backslash first, then `;`, `,` and newline |
| `Models.EscapeIcalTextIdentity` | src/models.rs:181-186 | text without the four special characters is left unchanged |
| `Models.UnescapeEscape` | src/models.rs:181-186 | escaping is invertible: the unescaped escape is the original text |
| `Models.EscapeUnchangedIff` | src/models.rs:181-186 | escaping changes the text exactly when it holds one of the four special characters |
| `Models.EscapedHasNoNewline` | src/models.rs:181-186 | escaped text holds no line feed, so a value stays on one content line |
| `Models.CarriageReturnPassesThrough` | src/models.rs:181-186 | a carriage return is not escaped |
| `Models.EscapeKeepsEdges` | src/models.rs:181-186 | escaping never puts whitespace at either end of a value |
| `Models.FromEvent` | src/models.rs:168-179 | the export copies the event one to one: the uid is the identifier's text, the summary is the title, the times are the start and end |
| `Models.ToIcalStringLines` | src/models.rs:148-165 | the export is exactly eight CRLF-terminated lines, BEGIN:VEVENT, UID, SUMMARY, DESCRIPTION, LOCATION, DTSTART, DTEND, END:VEVENT, in that order |
| `Models.IcalLinesNoNewline` | src/models.rs:148-165 | no exported line holds a line feed of its own |
| `Models.MissingFieldsStillEmitted` | src/models.rs:160-161 | a missing description or location still emits its line with an empty value |
| `Models.AllDayDropped` | src/models.rs:137-145 | the export does not depend on the all-day flag |
| `Times.ParseLocalInput` | src/handlers/web.rs:537-543 | a parsed form value is a valid date-time with zero seconds |
| `Times.ParseFormatLocalInput` | src/handlers/web.rs:537-543 | the `%Y-%m-%dT%H:%M` form of an instant is read back as that instant, to the minute |
| `Times.ParseFormatUtc` | src/handlers.rs:511-515 | the first fifteen characters of the `%Y%m%dT%H%M%SZ` form are read back as the same instant |
| `Times.ParseFormatBasicDate` | src/handlers.rs:506-510 | the `%Y%m%d` form is read back as midnight of the same day |
| `Times.FormatUtcChars` | src/models.rs:162-163 | the exported time is sixteen characters: digits with `T` at index 8 and `Z` at index 15 |
| `Uuids.ParseUuid` | src/handlers.rs:328 | parsing succeeds exactly on the hyphenated, simple, braced and URN forms with digits in either case, and yields a canonical identifier; canonical text names itself |
| `Uuids.ParseOtherForms` | src/handlers.rs:328 | the upper-case, braced and URN spellings of an identifier parse to that identifier |
| `Uuids.ParseSimple` | src/handlers.rs:328 | the 32 digits without hyphens parse to the identifier they spell |
| `Uuids.ParseToString` | src/handlers.rs:366 | an identifier's printed text parses back to it |
| `Uuids.IcsSuffixRemoved` | src/handlers.rs:365 | stripping `.ics` from an event file name gives the identifier's text |
| `Uuids.UuidNoPunctuation` | src/models.rs:158 | the unescaped UID text holds no newline, colon, `=`, quote or slash |
| `XmlEscape.EscapeXmlIsEscapeEach` | src/handlers.rs:525-531 | the five chained `replace` calls escape each character independently, `&` first |
| `XmlEscape.EscapeXmlNoMarkup` | src/handlers.rs:525-531 | escaped text holds no `<`, `>`, `"` or `'` |
| `XmlEscape.EscapeXmlIdentity` | src/handlers.rs:525-531 | text without the five special characters is left unchanged |
| `XmlEscape.UnescapeEscapeXml` | src/handlers.rs:525-531 | escaping is invertible |
| `Errors.IntoResponse` | src/error.rs:33-52 | 400 exactly for validation and UUID errors, 401 for authentication and JWT errors, 404 for not found, 500 for the rest; the body is JSON |
| `Errors.ErrorBodyFields` | src/error.rs:46-51 | the body reads back as the kind's fixed message and the status code |
| `Errors.DetailNotShown` | src/error.rs:35-44 | the response does not depend on the error's detail text |
| `Errors.ParseJsonErrorBody` | src/error.rs:46-49 | the JSON body `{"error":…,"status":…}` reads back as its message and status |
| `IcalDecode.ParseIcalDatetime` | src/handlers.rs:502-522 | every failure is a validation error; a panic happens only on a value of other than 8 bytes ending in `Z` |
| `IcalDecode.ShortUtcValuePanics` | src/handlers.rs:511-513 | a `Z`-terminated value shorter than 15 bytes (and not 8) makes the `[..15]` slice panic |
| `IcalDecode.ParseIcalDatetimeUtc` | src/handlers.rs:511-515 | the UTC form is read back as the same instant |
| `IcalDecode.ParseIcalDatetimeDate` | src/handlers.rs:506-510 | an 8-byte DATE value is read as midnight of that day |
| `IcalDecode.ParseIcalDatetimeFloating` | src/handlers.rs:516-520 | a floating DATE-TIME value is read as that instant in UTC |
| `IcalDecode.AfterLastColon` | src/handlers.rs:479 | the value taken is what follows the last colon, and holds no colon |
| `IcalDecode.Classify` | src/handlers.rs:472-484 | a line is a SUMMARY line exactly when it starts with `SUMMARY:`, and an all-day marker exactly when it contains `VALUE=DATE` and no earlier branch applies |
| `IcalDecode.Step` | src/handlers.rs:469-485 | after a line, the all-day flag is set exactly when it was set or the trimmed line is an all-day marker |
| `IcalDecode.Finish` | src/handlers.rs:487-498 | a summary, a start and an end are all required, checked in that order with the source's three messages |
| `IcalDecode.ParseICalendar` | src/handlers.rs:461-499 | the loop over the lines computes the scanning function's result |
| `IcalDecode.ScanLinesAppend` | src/handlers.rs:469-485 | scanning a concatenation scans the first part, then the second, stopping at the first error |
| `IcalDecode.LaterSummaryWins` | src/handlers.rs:472-473 | a later SUMMARY line replaces an earlier one |
| `IcalDecode.AllDayIff` | src/handlers.rs:482-483 | the all-day flag ends set exactly when some line is an all-day marker |
| `IcalDecode.DateStartIsNotAllDay` | src/handlers.rs:478-483 | a `DTSTART;VALUE=DATE:` line never sets the all-day flag |
| `IcalDecode.PlainLine` | src/handlers.rs:469-485 | a trimmed line starting with none of `SUMMARY:`, `DESCRIPTION:`, `LOCATION:`, `DTSTART`, `DTEND` leaves the fields unchanged, except that one containing `VALUE=DATE` sets the all-day flag |
| `IcalDecode.StatusStep` | src/handlers.rs:469-485 | a `STATUS:CONFIRMED` line leaves the fields unchanged |
| `IcalDecode.StampStep` | src/handlers.rs:469-485 | a `DTSTAMP:…` line, which shares `DTST` with `DTSTART`, leaves the fields unchanged |
| `IcalDecode.AttendeeStep` | src/handlers.rs:469-485 | an `ATTENDEE;CN=…` line, though it holds `=`, leaves the fields unchanged |
| `IcalDecode.UnknownDateValueLine` | src/handlers.rs:482-483 | a line of another property carrying `VALUE=DATE` sets only the all-day flag |
| `IcalDecode.SummaryStep` | src/handlers.rs:472-473 | a SUMMARY line sets the title to its value |
| `IcalDecode.DescriptionStep` | src/handlers.rs:474-475 | a DESCRIPTION line sets the description to its value |
| `IcalDecode.LocationStep` | src/handlers.rs:476-477 | a LOCATION line sets the location to its value |
| `IcalDecode.StartStep` | src/handlers.rs:478-479 | a DTSTART line with an exported time sets the start to that instant |
| `IcalDecode.EndStep` | src/handlers.rs:480-481 | a DTEND line with an exported time sets the end to that instant |
| `IcalDecode.UidStep` | src/handlers.rs:469-485 | the UID line is ignored |
| `IcalDecode.ScanIcalLines` | src/models.rs:148-165 | scanning the eight exported lines yields the exported title, description, location and times, not all-day |
| `IcalDecode.DecodeExport` | src/handlers.rs:461-499 | decoding an exported event gives its escaped title, description and location, its start and end, and not all-day |
| `IcalDecode.RoundTrip` | src/handlers.rs:461-499 | with no special characters in its texts, an exported event decodes to its own title, texts and times, with the all-day flag cleared and an absent description or location read back as empty text |
| `IcalDecode.TitleReadBackIff` | src/handlers.rs:472-473 | the title comes back unchanged exactly when it has no special character; unescaping always recovers it |
| `CalDavPath.Segments` | src/handlers.rs:322 | splitting a path always gives at least one segment |
| `CalDavPath.EventIdText` | src/handlers.rs:365 | the event identifier text is a prefix of the file name and no longer ends in `.ics` |
| `CalDavPath.LeadingSlashesIgnored` | src/handlers.rs:322 | any number of leading slashes give the same segments |
| `CalDavPath.SegmentsOfThree` | src/handlers.rs:396 | `/a/b/c` splits into exactly `a`, `b`, `c` |
| `CalDavPath.ResolveEventHref` | src/handlers.rs:362-366 | an event's href resolves to its calendar identifier and its event identifier, and does not name a whole calendar |
| `CalDavPath.ResolveCalendarHref` | src/handlers.rs:328-337 | a calendar's href resolves to its identifier and names the whole calendar |
| `CalDav.Discovery` | src/handlers.rs:207-213 | discovery answers 200 with content type `text/plain` |
| `CalDav.DiscoveryIsCollectionRoot` | src/handlers.rs:207-213 | every calendar href starts with the discovered `/calendars/` |
| `CalDav.MultiStatusResponse` | src/handlers.rs:258-262 | a multistatus reply is 207 with the XML content type around the responses |
| `Seqs.PushEach` | src/handlers.rs:225-248 | the loop that pushes each element's text onto the body leaves the body followed by the texts of all elements, in order |
| `CalDav.Propfind` | src/handlers.rs:216-263 | the loop produces the multistatus of one response per calendar of the principal, in store order |
| `CalDav.PropfindListsOwnedCalendars` | src/handlers.rs:225-247 | every owned calendar's response appears, with its href and its unescaped display name |
| `CalDav.Report` | src/handlers.rs:266-313 | the nested loops produce one response per event of each owned calendar |
| `CalDav.ReportListsOwnedEvents` | src/handlers.rs:275-298 | every event of every owned calendar has its response in the body |
| `CalDav.ReportEntryParts` | src/handlers.rs:279-295 | each response holds the event's href, its quoted identifier as ETag, and its escaped VEVENT |
| `CalDav.ReportCalendarData` | src/handlers.rs:288-295 | the calendar data holds no `<` or `>` and unescapes to the VEVENT text |
| `CalDav.CalendarResponse` | src/handlers.rs:356-360 | a whole-calendar reply is 200 with the iCalendar content type |
| `CalDav.EventResponse` | src/handlers.rs:381-386 | an event reply is 200, iCalendar content type, with the quoted identifier as ETag |
| `CalDav.GetSpec` | src/handlers.rs:316-387 | a path of fewer than two segments is a validation error; success needs a parsed, existing calendar the principal owns or that is public; otherwise "Access denied" |
| `CalDav.Get` | src/handlers.rs:316-387 | the handler with its event loop computes the GET result |
| `CalDav.GetWholeCalendar` | src/handlers.rs:337-360 | a calendar's href gives the calendar document, which holds the VEVENT of each of its events |
| `CalDav.GetEventByIdAlone` | src/handlers.rs:363-386 | any readable calendar's path finds any event by its identifier, whichever calendar holds it |
| `CalDav.EventDocumentLines` | src/handlers.rs:371-379 | the event document is the three preamble lines, the eight VEVENT lines and END:VCALENDAR |
| `CalDav.EventDocumentDecodes` | src/handlers.rs:371-379 | decoding a served event document gives what decoding its VEVENT alone gives |
| `CalDav.GetIgnoresFirstSegment` | src/handlers.rs:322-328 | the first path segment is never checked: any name there behaves as `calendars` |
| `CalDav.CreatedResponse` | src/handlers.rs:416-421 | PUT answers 201 with the new event's href as Location and its quoted identifier as ETag |
| `CalDav.NoContent` | src/handlers.rs:454-457 | DELETE answers 204 with no headers and no body |
| `CalDav.Put` | src/handlers.rs:390-422 | fewer than three segments is a validation error; success needs an existing owned calendar and a decodable body, and inserts exactly the decoded event |
| `CalDav.PutOwnerBeforeBody` | src/handlers.rs:407-413 | a non-owner is refused before the body is parsed, whatever the body holds |
| `CalDav.PutThenGet` | src/handlers.rs:414-421 | GET of the Location a successful PUT returns serves the new event with the same ETag, and the store stays well formed |
| `CalDav.Delete` | src/handlers.rs:425-458 | fewer than three segments is a validation error; success needs the event, its calendar and ownership, and deletes exactly that event |
| `CalDav.DeleteIgnoresCalendarSegment` | src/handlers.rs:437-450 | the calendar segment of a DELETE path plays no part; success depends only on owning the event's calendar |
| `CalDav.DeleteRemovesEvent` | src/handlers.rs:452 | after DELETE the event is gone, every other event stays, and the store stays well formed |
| `Rest.HandleGetUser` | src/handlers.rs:54-61 | found exactly when the user exists, else not found "User not found" |
| `Rest.HandleGetCalendar` | src/handlers.rs:64-71 | found exactly when the calendar exists, with no ownership check |
| `Rest.HandleGetEvent` | src/handlers.rs:109-116 | found exactly when the event exists, with no ownership check |
| `Store.CalendarOwnedBy` | src/handlers.rs:80-85 | the ownership check both front ends share: passes exactly for an existing calendar of the principal; else "Calendar not found", or the front end's own refusal text when someone else owns it |
| `Rest.OwnedCalendar` | src/handlers.rs:80-85 | passes exactly for an existing calendar of the principal; else "Calendar not found" or "You don't own this calendar" |
| `Rest.OwnedEvent` | src/handlers.rs:125-133 | passes exactly when the event and its calendar exist and the principal owns that calendar |
| `Rest.HandleUpdateCalendar` | src/handlers.rs:73-89 | updates exactly when the check passes; a refusal leaves the store unchanged |
| `Rest.UpdateCalendarReply` | src/handlers.rs:87-88 | the reply is the stored calendar with the supplied fields replaced, same identifier and owner |
| `Rest.HandleDeleteCalendar` | src/handlers.rs:91-106 | deletes with its events and shares exactly when the check passes, answering 204 |
| `Rest.DeleteCalendarReply` | src/handlers.rs:104 | afterwards nothing refers to the calendar, other calendars stay, and the store stays well formed |
| `Rest.HandleUpdateEvent` | src/handlers.rs:118-137 | updates exactly when the event check passes; a refusal leaves the store unchanged |
| `Rest.UpdateEventReply` | src/handlers.rs:135-136 | the reply is the stored event with the supplied fields replaced, same identifier and calendar |
| `Rest.HandleDeleteEvent` | src/handlers.rs:139-157 | deletes exactly when the event check passes, answering 204 |
| `Rest.HandleGetShares` | src/handlers.rs:160-175 | lists exactly the calendar's shares, only for its owner |
| `Rest.HandleCreateShare` | src/handlers.rs:177-193 | inserts the share exactly when the principal owns the calendar |
| `Rest.CreateShareThenList` | src/handlers.rs:177-193 | a created share is listed for its calendar afterwards |
| `Rest.HandleDeleteShare` | src/handlers.rs:195-202 | always answers 204 and deletes the share |
| `Rest.DeleteShareUnchecked` | src/handlers.rs:195-202 | a principal who does not own the calendar still deletes its share |
| `Rest.NonOwnerChangesNothing` | src/handlers.rs:73-193 | every changing handler refuses a non-owner with its message and leaves the store unchanged |
| `Middleware.PrefixDiffers` | src/middleware.rs:38-42 | a path differing from a prefix at some index does not start with it |
| `Middleware.CalendarPathsNeedAuth` | src/middleware.rs:38-42 | every `/calendars/…` path requires authentication |
| `Middleware.WebPathsNeedAuth` | src/middleware.rs:38-42 | every `/web/…` path requires authentication, the login page included |
| `Middleware.DiscoveryNeedsAuth` | src/middleware.rs:38-42 | `/.well-known/caldav` requires authentication |
| `Middleware.OpenPrefixes` | src/middleware.rs:38-42 | paths under `/public`, `/health`, `/api/auth/login`, `/api/auth/register`, and `/` itself, are open |
| `Middleware.BearerToken` | src/middleware.rs:49-59 | a token is found exactly for readable header text starting with `Bearer `, and it is the rest of the text |
| `Middleware.BearerTokenOf` | src/middleware.rs:52-53 | `Bearer ` followed by a token gives that token |
| `Middleware.OtherSchemes` | src/middleware.rs:52-56 | `Basic` credentials and a lower-case `bearer` give no token |
| `Middleware.AuthDecision` | src/middleware.rs:31-93 | open paths are skipped; refusals are 401; a missing token is "Missing token" |
| `Middleware.AdmitIff` | src/middleware.rs:61-81 | a request is admitted as a user exactly when the path needs auth, a token is present, it decodes, and its subject parses to that user |
| `Middleware.AdmittedSubject` | src/middleware.rs:70-80 | the admitted principal is the parsed subject claim |
| `Middleware.Request.constructor` | src/middleware.rs:31-37 | a new request carries its path and header and no principal |
| `Middleware.AuthMiddleware` | src/middleware.rs:31-93 | forwards exactly on skip or admit, records the principal only on admit, otherwise answers the refusal |
| `Middleware.HeaderMap.constructor` | src/middleware.rs:99 | the map starts with the response's headers |
| `Middleware.HeaderMap.Insert` | src/middleware.rs:101-112 | `insert` replaces every value of the name with the one given |
| `Middleware.WithCors` | src/middleware.rs:99-114 | the three CORS headers are set to their fixed values, every other header is kept |
| `Middleware.WithCorsIdempotent` | src/middleware.rs:96-115 | applying the CORS headers twice is applying them once |
| `Middleware.CorsMiddleware` | src/middleware.rs:96-115 | status and body are kept, and the headers become the CORS overwrite of the old ones |
| `Store.Find` | src/services.rs:28-37 | a lookup finds a row with the key, and finds nothing exactly when no row has it |
| `Store.FindUnique` | src/services.rs:118-127 | with unique keys, looking up a row's key finds that row |
| `Store.CalendarsOfUser` | src/services.rs:107-116 | lists exactly the calendars of the user |
| `Store.EventsOfCalendar` | src/services.rs:230-239 | lists exactly the events of the calendar |
| `Store.SharesOfCalendar` | src/services.rs:337-346 | lists exactly the shares of the calendar |
| `Store.CreateUser` | src/services.rs:50-71 | appends the user with the given hash |
| `Store.CreateCalendar` | src/services.rs:129-152 | appends the calendar built from the request under the new identifier |
| `Store.CreateEvent` | src/services.rs:241-266 | appends the event built from the request under the new identifier |
| `Store.CreateShare` | src/services.rs:348-374 | appends the share recording the granting owner, the recipient's e-mail and the permission |
| `Store.CreateCalendarFound` | src/services.rs:129-152 | the new calendar is found under its identifier, every other lookup is unchanged |
| `Store.CreateEventFound` | src/services.rs:241-266 | the new event is found under its identifier, every other lookup is unchanged |
| `Store.CreateCalendarWellFormed` | src/services.rs:129-152 | inserting under a fresh identifier keeps the store well formed |
| `Store.CreateEventWellFormed` | src/services.rs:241-266 | inserting an event into a stored calendar keeps the store well formed |
| `Store.CreateShareWellFormed` | src/services.rs:348-374 | inserting a share for a stored calendar keeps the store well formed |
| `Store.ApplyCalendarUpdate` | src/services.rs:154-194 | an update never changes the identifier or the owner |
| `Store.ApplyEventUpdate` | src/services.rs:268-326 | an update never changes the identifier or the calendar |
| `Store.ApplyCalendarUpdateIdempotent` | src/services.rs:154-194 | applying an update twice is applying it once; an empty update changes nothing |
| `Store.ApplyEventUpdateIdempotent` | src/services.rs:268-326 | applying an update twice is applying it once; an empty update changes nothing |
| `Store.UpdateCalendarResult` | src/services.rs:154-194 | the row read back is the stored row with the update applied; other calendars are unchanged |
| `Store.UpdateEventResult` | src/services.rs:268-326 | the row read back is the stored row with the update applied; other events are unchanged |
| `Store.UpdateCalendarWellFormed` | src/services.rs:154-194 | an update keeps the store well formed |
| `Store.UpdateEventWellFormed` | src/services.rs:268-326 | an update keeps the store well formed |
| `Store.DeleteCalendar` | src/services.rs:196-217 | the calendar's events, its shares and the calendar are removed; users stay |
| `Store.DeleteCalendarRemoves` | src/services.rs:196-217 | afterwards the calendar is gone and no event or share names it |
| `Store.DeleteCalendarKeeps` | src/services.rs:196-217 | every other calendar stays |
| `Store.DeleteCalendarWellFormed` | src/services.rs:196-217 | the cascade keeps the store well formed |
| `Store.DeleteEventEffect` | src/services.rs:328-335 | exactly that event is removed and the store stays well formed |
| `Store.DeleteShareEffect` | src/services.rs:376-382 | exactly that share is removed and the store stays well formed |
| `Web.SignedIn` | src/handlers/web.rs:181-189 | a 302 to the dashboard that sets the session cookie |
| `Web.Register` | src/handlers/web.rs:150-190 | mismatch, then a password under 6 bytes, then a taken e-mail redirect back with their messages and change nothing; otherwise the user is added and signed in |
| `Web.RegisterAdds` | src/handlers/web.rs:164-177 | an accepted registration keeps e-mails unique and is found by identifier and by e-mail |
| `Web.RegisterTwice` | src/handlers/web.rs:164-167 | registering the same e-mail again is turned away and changes nothing |
| `Web.PasswordLengthInBytes` | src/handlers/web.rs:160 | the length rule counts bytes: three two-byte letters pass |
| `Web.FormTimes` | src/handlers/web.rs:537-543 | the start is checked before the end, each failure has its own validation message, and their order is not checked |
| `Web.FormTimesRoundTrip` | src/handlers/web.rs:537-543 | the form's datetime-local values read back as the same instants, to the minute |
| `Web.OwnedEventsMember` | src/handlers/web.rs:214-221 | the gathered events are exactly the stored events of the principal's calendars |
| `Web.OwnedSharesMember` | src/handlers/web.rs:236-240 | the counted shares are exactly the shares of the principal's calendars |
| `Web.EventCounts` | src/handlers/web.rs:274-278 | every listed calendar maps to the number of its events, and every key is a listed calendar |
| `Web.CalendarNames` | src/handlers/web.rs:456-460 | every calendar is a key, and each key maps to the name of a calendar with that identifier |
| `Web.Upcoming` | src/handlers/web.rs:224-231 | at most ten events, each gathered and starting between now and a week later, both ends included |
| `Web.UpcomingComplete` | src/handlers/web.rs:226-231 | when at most ten events fall in the window, all of them are shown |
| `Web.UpcomingFirstTen` | src/handlers/web.rs:226-231 | the list holds as many in-window events as there are, up to ten, and an in-window event preceded by fewer than ten in-window events is shown at its rank among them |
| `Web.UpcomingSource` | src/handlers/web.rs:226-231 | every shown position holds the in-window event whose rank is that position, so together with `Web.UpcomingFirstTen` the list is the first ten in-window events in gathered order |
| `Seqs.FilterLength` | src/handlers/web.rs:226-228 | `filter` keeps one element per element that passes, counted independently |
| `Seqs.FilterPosition` | src/handlers/web.rs:226-228 | `filter` keeps order: a passing element lands at its rank among the passing elements before it |
| `Seqs.FilterSource` | src/handlers/web.rs:226-228 | every position of the filtered sequence holds the passing element of that rank |
| `Web.DashboardPage` | src/handlers/web.rs:204-259 | a missing user is refused; otherwise the counts are the owned calendars, the gathered events and the shares of owned calendars, with the upcoming window |
| `Web.CalendarsPage` | src/handlers/web.rs:264-291 | a missing user is refused; otherwise the owned calendars with the count of events per calendar |
| `Web.ListedMember` | src/handlers/web.rs:470-478 | an event is listed exactly when it is in an owned calendar and, with a query, in the named calendar |
| `Web.EventsPage` | src/handlers/web.rs:448-493 | a missing user is refused; otherwise the filtered events, the owned calendars and their names |
| `Web.CalendarAccess` | src/handlers/web.rs:406-412 | passes exactly for an existing calendar of the principal; else "Calendar not found" or "Access denied" |
| `Web.EventAccess` | src/handlers/web.rs:604-613 | passes exactly when the event exists and its calendar passes; else "Event not found" or the calendar's refusal |
| `Web.CreateCalendarHandler` | src/handlers/web.rs:316-331 | inserts the calendar with the ticked-box visibility and redirects to its page |
| `Web.CreatedCalendar` | src/handlers/web.rs:320-330 | the new calendar is owned by the principal, public exactly when the box was ticked, and at the redirect's address |
| `Web.UpdateCalendarHandler` | src/handlers/web.rs:400-424 | updates exactly when the principal owns the calendar, with the form's fields and the checkbox; a refusal changes nothing |
| `Web.UpdatedCalendar` | src/handlers/web.rs:414-421 | the edited calendar has the submitted name and visibility, the old description when none is sent, and no other calendar changes |
| `Web.DeleteCalendarHandler` | src/handlers/web.rs:427-443 | deletes exactly when the principal owns the calendar |
| `Web.CreateEventHandler` | src/handlers/web.rs:523-557 | ownership is checked before the times; an accepted form inserts the event and redirects to its calendar |
| `Web.UpdateEventHandler` | src/handlers/web.rs:598-636 | ownership is checked before the times; the submitted calendar only picks the redirect target |
| `Web.UpdatedEvent` | src/handlers/web.rs:624-635 | the edited event stays in its calendar, takes the submitted title, times and all-day box, and no other event changes |
| `Web.DeleteEventHandler` | src/handlers/web.rs:639-659 | deletes exactly when the principal owns the event's calendar, then redirects to that calendar |
| `Web.CreateShareHandler` | src/handlers/web.rs:664-686 | appends the grant exactly when the principal owns the calendar; nothing else changes |
| `Web.ShareAccess` | src/handlers/web.rs:694-708 | passes exactly when the share exists and its calendar passes; else "Share not found" or the calendar's refusal |
| `Web.DeleteShareHandler` | src/handlers/web.rs:689-713 | deletes exactly when the principal owns the share's calendar, then redirects to that calendar |
| `Web.NonOwnerRefused` | src/handlers/web.rs:400-713 | every changing form handler refuses a non-owner with "Access denied" and leaves the store unchanged |
| `Web.NonOwnerEventUntouched` | src/handlers/web.rs:598-659 | in a well-formed store, another principal's event can be neither edited nor deleted |

## Left out

- Database failures, the `created_at`/`updated_at` timestamps and SQL itself are not modelled: every store operation succeeds.
- Password hashing (bcrypt), JWT signing and verification, and `Uuid::new_v4` are foreign code. They are parameters: a hash, a token, a decode function, a fresh identifier.
- The current time is a parameter of the dashboard.
- JSON (de)serialisation of the REST bodies and form decoding are not modelled. A handler returns the record it would serialise.
- Template rendering (askama) is not modelled. A page returns the values its template is filled with.
- The pages that only render a form or a detail view are not modelled: login, register, new and edit calendar, calendar detail, new and edit event. Neither are `login_handler` and `logout_handler`, whose credential checks need bcrypt.
- The dashboard's `event_counts` map is built and never read, so the model of `dashboard_page` does not build it.
- `logging_middleware` only writes log lines, and the `info!` line `auth_middleware` writes when a token fails to decode is not modelled either.
- `root` and `health` return fixed texts.
- The routing in `src/lib.rs` is not modelled.
- Times.ParseBasicDate, Times.ParseBasicDateTime and Times.ParseLocalInput read only the zero-padded fixed-width spelling of `%Y%m%d`, `%Y%m%dT%H%M%S` and `%Y-%m-%dT%H:%M`. Chrono's `parse_from_str` also accepts a field of fewer digits than its width, blanks before a numeric field, and a signed year of any length. For example, `2024111T000000`, `2024 1 1` and `2024-1-5T9:05` parse in the source but are refused by the model. Chrono's scanner is foreign code and is not part of this model. The spellings the server itself writes and a datetime-local input sends are all fixed-width.
- IcalDecode.ParseIcalDatetime inherits that restriction: a value chrono reads in a shorter spelling is "Invalid datetime format" in the model.
- Web.FormTimes inherits it too: a start or end value in a shorter spelling gets its "Invalid … time format" message in the model.
- Chrono's ordering of instants is modelled by the seconds count `Timestamp`, and a date-time is a six-field record with a four-digit year. Leap seconds and years outside 0–9999 are not represented.
- The listing queries (`src/services.rs:109`, `src/services.rs:232`, `src/services.rs:339`) have no `ORDER BY`, so the database may return rows in any order. The store returns them in insertion order. The first ten upcoming events (`Web.Upcoming`) and the order of the PROPFIND and REPORT responses follow that order.
- Concurrency between requests is not modelled: each handler runs on one store value.
- Strings are sequences of Unicode scalar values. Byte lengths and byte slicing are made explicit only where the source depends on them: the 15-byte slice and 8-byte test of `parse_ical_datetime`, and the password length.
