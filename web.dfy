/**
 * The server-rendered web interface: the registration form, the dashboard,
 * calendars and events pages, and the form handlers that create, change and
 * delete calendars, events and shares. Every handler that changes a stored
 * calendar, event or share first finds it, then refuses a principal who does
 * not own the calendar, and only then touches the store. A handler yields
 * the response (a redirect carrying a flash message) or the error, and the
 * new store; a page yields the values its template is filled with.
 */
module Web {
  import opened Maybe
  import opened Text
  import opened Uuids
  import opened Times
  import opened Models
  import opened Http
  import opened Errors
  import opened Store
  import opened Seqs

  // ---------------------------------------------------------------------
  // Form fields

  datatype RegisterForm = RegisterForm(name: string, email: string, password: string, confirmPassword: string)

  datatype CalendarForm = CalendarForm(
    name: string, description: Option<string>, color: Option<string>, isPublic: Option<string>)

  datatype EventForm = EventForm(
    title: string, calendarId: Uuid, startTime: string, endTime: string,
    isAllDay: Option<string>, location: Option<string>, description: Option<string>)

  datatype ShareForm = ShareForm(sharedWithEmail: string, permission: string)

  /** An HTML checkbox: browsers send `on` for a ticked box and nothing for an unticked one. */
  function Checkbox(v: Option<string>): bool {
    v == Some("on")
  }

  // ---------------------------------------------------------------------
  // Registration

  const PasswordsDiffer := "/web/register?message=Passwords do not match&flash_type=error"
  const PasswordTooShort := "/web/register?message=Password must be at least 6 characters&flash_type=error"
  const EmailTaken := "/web/register?message=Email already registered&flash_type=error"
  const DashboardPath := "/web/dashboard"
  const SetCookieHeader := "set-cookie"

  /** The shortest password accepted, counted in UTF-8 bytes as `String::len` counts. */
  const MinPasswordBytes := 6

  function SessionCookie(token: string): string {
    "auth_token=" + token + "; Path=/; HttpOnly; SameSite=Strict"
  }

  /** 302 Found to the dashboard, setting the session cookie. */
  function SignedIn(token: string): (r: Response)
    ensures r.status == 302 && r.body == ""
    ensures Header(r, LocationHeader) == Some(DashboardPath)
    ensures Header(r, SetCookieHeader) == Some(SessionCookie(token))
  {
    Response(302, map[LocationHeader := [DashboardPath], SetCookieHeader := [SessionCookie(token)]], "")
  }

  /**
   * `register_handler`. The bcrypt hash of the password, the fresh identifier
   * and the signed session token are computed by foreign code and passed in.
   */
  function Register(db: Db, form: RegisterForm, passwordHash: string, id: Uuid, token: string): (r: (Result<Response>, Db))
    ensures r.0.Ok?
    ensures form.password != form.confirmPassword ==> r == (Ok(Redirect(PasswordsDiffer)), db)
    ensures form.password == form.confirmPassword && Utf8Len(form.password) < MinPasswordBytes
      ==> r == (Ok(Redirect(PasswordTooShort)), db)
    ensures form.password == form.confirmPassword && Utf8Len(form.password) >= MinPasswordBytes
         && GetUserByEmail(db, form.email).Some?
      ==> r == (Ok(Redirect(EmailTaken)), db)
    ensures r.1 != db <==>
      && form.password == form.confirmPassword
      && Utf8Len(form.password) >= MinPasswordBytes
      && GetUserByEmail(db, form.email).None?
    ensures r.1 != db ==>
      && r.0.value == SignedIn(token)
      && r.1 == db.(users := db.users + [User(id, form.name, form.email, passwordHash)])
  {
    if form.password != form.confirmPassword then (Ok(Redirect(PasswordsDiffer)), db)
    else if Utf8Len(form.password) < MinPasswordBytes then (Ok(Redirect(PasswordTooShort)), db)
    else if GetUserByEmail(db, form.email).Some? then (Ok(Redirect(EmailTaken)), db)
    else
      var (_, db') := CreateUser(db, form.name, form.email, passwordHash, id);
      assert |db'.users| != |db.users|;
      (Ok(SignedIn(token)), db')
  }

  /** An accepted registration keeps e-mail addresses unique and can be found by its identifier and its e-mail. */
  lemma RegisterAdds(db: Db, form: RegisterForm, passwordHash: string, id: Uuid, token: string)
    requires Unique(db.users, UserEmail) && FreshIn(db.users, UserKey, id)
    requires Register(db, form, passwordHash, id, token).1 != db
    ensures var db' := Register(db, form, passwordHash, id, token).1;
      var u := User(id, form.name, form.email, passwordHash);
      && Unique(db'.users, UserEmail)
      && GetUser(db', id) == Some(u)
      && GetUserByEmail(db', form.email) == Some(u)
  {
    var u := User(id, form.name, form.email, passwordHash);
    UniqueAppend(db.users, UserEmail, u);
    FindAppendNew(db.users, UserKey, u);
    FindAppendNew(db.users, UserEmail, u);
  }

  /** Submitting the same registration again is turned away with the e-mail message and changes nothing. */
  lemma RegisterTwice(db: Db, form: RegisterForm, passwordHash: string, id: Uuid, id2: Uuid, token: string)
    requires Register(db, form, passwordHash, id, token).1 != db
    ensures var db' := Register(db, form, passwordHash, id, token).1;
      Register(db', form, passwordHash, id2, token) == (Ok(Redirect(EmailTaken)), db')
  {
    var db' := Register(db, form, passwordHash, id, token).1;
    var n := |db'.users| - 1;
    assert UserEmail(db'.users[n]) == form.email;
  }

  /** The length rule counts bytes: three two-byte letters make a long enough password. */
  lemma PasswordLengthInBytes()
    ensures Utf8Len("ééé") == MinPasswordBytes
  {
    var s := "ééé";
    assert s[1..][1..][1..] == [];
  }

  // ---------------------------------------------------------------------
  // The event form's date-time fields

  /**
   * The two `parse_from_str(…, "%Y-%m-%dT%H:%M")` calls of the event
   * handlers: the start is checked before the end, and the order of the two
   * instants is not checked at all. Values are read in the zero-padded
   * fixed-width spelling only.
   */
  function FormTimes(start: string, end: string): (r: Result<(Instant, Instant)>)
    ensures !r.Panic?
    ensures r.Ok? <==> ParseLocalInput(start).Some? && ParseLocalInput(end).Some?
    ensures ParseLocalInput(start).None? ==> r == Err(ValidationError("Invalid start time format"))
    ensures ParseLocalInput(start).Some? && ParseLocalInput(end).None?
      ==> r == Err(ValidationError("Invalid end time format"))
    ensures r.Ok? ==> r.value.0 == ParseLocalInput(start).value && r.value.1 == ParseLocalInput(end).value
  {
    match ParseLocalInput(start)
    case None => Err(ValidationError("Invalid start time format"))
    case Some(s) =>
      match ParseLocalInput(end)
      case None => Err(ValidationError("Invalid end time format"))
      case Some(e) => Ok((s, e))
  }

  /** What the edit form shows is read back as the same instants, to the minute. */
  lemma FormTimesRoundTrip(start: Instant, end: Instant)
    ensures FormTimes(FormatLocalInput(start), FormatLocalInput(end)) == Ok((start.(second := 0), end.(second := 0)))
  {
    ParseFormatLocalInput(start);
    ParseFormatLocalInput(end);
  }

  // ---------------------------------------------------------------------
  // Listings the pages are built from

  function CalendarEvents(db: Db): Calendar -> seq<Event> {
    (c: Calendar) => EventsOfCalendar(db, c.id)
  }

  function CalendarShares(db: Db): Calendar -> seq<Share> {
    (c: Calendar) => SharesOfCalendar(db, c.id)
  }

  /** Every event of the principal's calendars, calendar by calendar, each in store order. */
  function OwnedEvents(db: Db, user: Uuid): seq<Event> {
    FlatMap(CalendarsOfUser(db, user), CalendarEvents(db))
  }

  /** Every share of the principal's calendars, calendar by calendar. */
  function OwnedShares(db: Db, user: Uuid): seq<Share> {
    FlatMap(CalendarsOfUser(db, user), CalendarShares(db))
  }

  /** An event is listed exactly when it is stored in one of the principal's calendars. */
  lemma OwnedEventsMember(db: Db, user: Uuid, e: Event)
    ensures e in OwnedEvents(db, user) <==>
      e in db.events && exists c :: c in db.calendars && c.userId == user && c.id == e.calendarId
  {
    var cs := CalendarsOfUser(db, user);
    FlatMapMember(cs, CalendarEvents(db), e);
    if e in OwnedEvents(db, user) {
      var i :| 0 <= i < |cs| && e in CalendarEvents(db)(cs[i]);
      assert cs[i] in cs;
    }
    if e in db.events && exists c :: c in db.calendars && c.userId == user && c.id == e.calendarId {
      var c :| c in db.calendars && c.userId == user && c.id == e.calendarId;
      assert c in cs;
      var i :| 0 <= i < |cs| && cs[i] == c;
      assert e in CalendarEvents(db)(cs[i]);
    }
  }

  /** A share is counted exactly when it grants access to one of the principal's calendars. */
  lemma OwnedSharesMember(db: Db, user: Uuid, s: Share)
    ensures s in OwnedShares(db, user) <==>
      s in db.shares && exists c :: c in db.calendars && c.userId == user && c.id == s.calendarId
  {
    var cs := CalendarsOfUser(db, user);
    FlatMapMember(cs, CalendarShares(db), s);
    if s in OwnedShares(db, user) {
      var i :| 0 <= i < |cs| && s in CalendarShares(db)(cs[i]);
      assert cs[i] in cs;
    }
    if s in db.shares && exists c :: c in db.calendars && c.userId == user && c.id == s.calendarId {
      var c :| c in db.calendars && c.userId == user && c.id == s.calendarId;
      assert c in cs;
      var i :| 0 <= i < |cs| && cs[i] == c;
      assert s in CalendarShares(db)(cs[i]);
    }
  }

  /** The `event_counts` map: each listed calendar's identifier to the number of its events. */
  function EventCounts(db: Db, cs: seq<Calendar>): (m: map<Uuid, nat>)
    ensures forall i :: 0 <= i < |cs| ==> cs[i].id in m && m[cs[i].id] == |EventsOfCalendar(db, cs[i].id)|
    ensures forall k :: k in m ==> exists i :: 0 <= i < |cs| && cs[i].id == k
    decreases |cs|
  {
    if cs == [] then map[]
    else
      var n := |cs| - 1;
      var m := EventCounts(db, cs[..n]);
      assert forall i :: 0 <= i < n ==> cs[..n][i] == cs[i];
      m[cs[n].id := |EventsOfCalendar(db, cs[n].id)|]
  }

  /** Counting one more calendar adds its entry. */
  lemma EventCountsSnoc(db: Db, cs: seq<Calendar>, i: nat)
    requires i < |cs|
    ensures EventCounts(db, cs[..i + 1]) == EventCounts(db, cs[..i])[cs[i].id := |EventsOfCalendar(db, cs[i].id)|]
  {
    assert cs[..i + 1][..i] == cs[..i];
  }

  /** The `calendar_names` map of the events page: each calendar's identifier to its name. */
  function CalendarNames(cs: seq<Calendar>): (m: map<Uuid, string>)
    ensures forall i :: 0 <= i < |cs| ==> cs[i].id in m
    ensures forall k :: k in m ==> exists i :: 0 <= i < |cs| && cs[i].id == k && cs[i].name == m[k]
    decreases |cs|
  {
    if cs == [] then map[]
    else
      var n := |cs| - 1;
      var m := CalendarNames(cs[..n]);
      assert forall i :: 0 <= i < n ==> cs[..n][i] == cs[i];
      m[cs[n].id := cs[n].name]
  }

  // ---------------------------------------------------------------------
  // Dashboard

  /** `Duration::days(7)` in seconds. */
  const WeekSeconds := 7 * 86400

  /** At most this many upcoming events are shown. */
  const UpcomingLimit := 10

  /** The event starts no earlier than now and no later than a week from now, both ends included. */
  predicate StartsWithinWeek(now: Instant, e: Event) {
    Timestamp(now) <= Timestamp(e.startTime) <= Timestamp(now) + WeekSeconds
  }

  function WithinWeekOf(now: Instant): Event -> bool {
    (e: Event) => StartsWithinWeek(now, e)
  }

  /** `filter(…).take(10)` over the events in the order they were gathered. */
  function Upcoming(events: seq<Event>, now: Instant): (r: seq<Event>)
    ensures |r| <= UpcomingLimit
    ensures forall e :: e in r ==> e in events && StartsWithinWeek(now, e)
  {
    var inWindow := Filter(events, WithinWeekOf(now));
    var r := Take(inWindow, UpcomingLimit);
    assert forall e :: e in r ==> e in inWindow;
    r
  }

  /** When the window holds no more than ten events, every one of them is shown. */
  lemma UpcomingComplete(events: seq<Event>, now: Instant, e: Event)
    requires |Filter(events, WithinWeekOf(now))| <= UpcomingLimit
    requires e in events && StartsWithinWeek(now, e)
    ensures e in Upcoming(events, now)
  {
    assert WithinWeekOf(now)(e);
    assert Upcoming(events, now) == Filter(events, WithinWeekOf(now));
  }

  /** How many of the gathered events start within the week. */
  function InWindowCount(events: seq<Event>, now: Instant): nat {
    CountWhere(events, WithinWeekOf(now))
  }

  /**
   * `take(10)` keeps the first ten in-window events in gathered order: as many
   * as there are up to ten, and an in-window event preceded by fewer than ten
   * others is shown at its rank.
   */
  lemma UpcomingFirstTen(events: seq<Event>, now: Instant, j: nat)
    requires j < |events| && StartsWithinWeek(now, events[j])
    ensures |Upcoming(events, now)| == if InWindowCount(events, now) < UpcomingLimit then InWindowCount(events, now) else UpcomingLimit
    ensures var rank := InWindowCount(events[..j], now);
      rank < UpcomingLimit ==> rank < |Upcoming(events, now)| && Upcoming(events, now)[rank] == events[j]
  {
    FilterLength(events, WithinWeekOf(now));
    FilterPosition(events, WithinWeekOf(now), j);
  }

  /** Every shown event is the in-window event of that rank. */
  lemma UpcomingSource(events: seq<Event>, now: Instant, k: nat) returns (j: nat)
    requires k < |Upcoming(events, now)|
    ensures j < |events| && StartsWithinWeek(now, events[j])
    ensures InWindowCount(events[..j], now) == k && Upcoming(events, now)[k] == events[j]
  {
    j := FilterSource(events, WithinWeekOf(now), k);
  }

  datatype DashboardView = DashboardView(
    userName: string, userEmail: string,
    calendarCount: nat, eventCount: nat, shareCount: nat,
    calendars: seq<Calendar>, upcomingEvents: seq<Event>)

  /** `dashboard_page`; the clock reading `now` is a parameter. */
  method DashboardPage(db: Db, user: Uuid, now: Instant) returns (r: Result<DashboardView>)
    ensures r.Ok? <==> GetUser(db, user).Some?
    ensures !r.Ok? ==> r == Err(AuthenticationError("User not found"))
    ensures r.Ok? ==> var v := r.value;
      && v.userName == GetUser(db, user).value.name
      && v.userEmail == GetUser(db, user).value.email
      && v.calendars == CalendarsOfUser(db, user)
      && v.calendarCount == |CalendarsOfUser(db, user)|
      && v.eventCount == |OwnedEvents(db, user)|
      && v.shareCount == |OwnedShares(db, user)|
      && v.upcomingEvents == Upcoming(OwnedEvents(db, user), now)
  {
    var found := GetUser(db, user);
    if found.None? {
      return Err(AuthenticationError("User not found"));
    }
    var u := found.value;
    var calendars := CalendarsOfUser(db, user);
    var allEvents: seq<Event> := [];
    var i := 0;
    while i < |calendars|
      invariant 0 <= i <= |calendars|
      invariant allEvents == FlatMap(calendars[..i], CalendarEvents(db))
    {
      FlatMapSnoc(calendars, CalendarEvents(db), i);
      allEvents := allEvents + EventsOfCalendar(db, calendars[i].id);
      i := i + 1;
    }
    assert calendars[..i] == calendars;
    var upcoming := Upcoming(allEvents, now);
    var shareCount := 0;
    i := 0;
    while i < |calendars|
      invariant 0 <= i <= |calendars|
      invariant shareCount == |FlatMap(calendars[..i], CalendarShares(db))|
    {
      FlatMapSnoc(calendars, CalendarShares(db), i);
      shareCount := shareCount + |SharesOfCalendar(db, calendars[i].id)|;
      i := i + 1;
    }
    assert calendars[..i] == calendars;
    return Ok(DashboardView(u.name, u.email, |calendars|, |allEvents|, shareCount, calendars, upcoming));
  }

  // ---------------------------------------------------------------------
  // Calendars and events pages

  datatype CalendarsView = CalendarsView(calendars: seq<Calendar>, eventCounts: map<Uuid, nat>)

  /** `calendars_page`. */
  method CalendarsPage(db: Db, user: Uuid) returns (r: Result<CalendarsView>)
    ensures r.Ok? <==> GetUser(db, user).Some?
    ensures !r.Ok? ==> r == Err(AuthenticationError("User not found"))
    ensures r.Ok? ==> r.value == CalendarsView(CalendarsOfUser(db, user), EventCounts(db, CalendarsOfUser(db, user)))
  {
    if GetUser(db, user).None? {
      return Err(AuthenticationError("User not found"));
    }
    var calendars := CalendarsOfUser(db, user);
    var counts: map<Uuid, nat> := map[];
    var i := 0;
    while i < |calendars|
      invariant 0 <= i <= |calendars|
      invariant counts == EventCounts(db, calendars[..i])
    {
      EventCountsSnoc(db, calendars, i);
      counts := counts[calendars[i].id := |EventsOfCalendar(db, calendars[i].id)|];
      i := i + 1;
    }
    assert calendars[..i] == calendars;
    return Ok(CalendarsView(calendars, counts));
  }

  function OnCalendar(id: Uuid): Event -> bool {
    (e: Event) => e.calendarId == id
  }

  /** The events page's filter: all events, or only those of the calendar the query names. */
  function Listed(events: seq<Event>, calendar: Option<Uuid>): seq<Event> {
    match calendar
    case None => events
    case Some(id) => Filter(events, OnCalendar(id))
  }

  /** The events page lists an event exactly when it is in an owned calendar and, with a query, in the named one. */
  lemma ListedMember(db: Db, user: Uuid, calendar: Option<Uuid>, e: Event)
    ensures e in Listed(OwnedEvents(db, user), calendar) <==>
      && e in db.events
      && (exists c :: c in db.calendars && c.userId == user && c.id == e.calendarId)
      && (calendar.Some? ==> e.calendarId == calendar.value)
  {
    OwnedEventsMember(db, user, e);
  }

  datatype EventsView = EventsView(
    events: seq<Event>, calendars: seq<Calendar>, calendarNames: map<Uuid, string>, selectedCalendar: Option<Uuid>)

  /** `events_page`, with the `calendar` query parameter. */
  method EventsPage(db: Db, user: Uuid, calendar: Option<Uuid>) returns (r: Result<EventsView>)
    ensures r.Ok? <==> GetUser(db, user).Some?
    ensures !r.Ok? ==> r == Err(AuthenticationError("User not found"))
    ensures r.Ok? ==> r.value == EventsView(
      Listed(OwnedEvents(db, user), calendar), CalendarsOfUser(db, user),
      CalendarNames(CalendarsOfUser(db, user)), calendar)
  {
    if GetUser(db, user).None? {
      return Err(AuthenticationError("User not found"));
    }
    var calendars := CalendarsOfUser(db, user);
    var names := CalendarNames(calendars);
    var allEvents: seq<Event> := [];
    var i := 0;
    while i < |calendars|
      invariant 0 <= i <= |calendars|
      invariant allEvents == FlatMap(calendars[..i], CalendarEvents(db))
    {
      FlatMapSnoc(calendars, CalendarEvents(db), i);
      allEvents := allEvents + EventsOfCalendar(db, calendars[i].id);
      i := i + 1;
    }
    assert calendars[..i] == calendars;
    var shown := if calendar.Some? then Filter(allEvents, OnCalendar(calendar.value)) else allEvents;
    return Ok(EventsView(shown, calendars, names, calendar));
  }

  // ---------------------------------------------------------------------
  // Ownership checks of the form handlers

  /** The calendar named by the path or the form exists and belongs to the principal. */
  function CalendarAccess(db: Db, user: Uuid, id: Uuid): (r: Result<Calendar>)
    ensures !r.Panic?
    ensures r.Ok? <==> GetCalendar(db, id).Some? && GetCalendar(db, id).value.userId == user
    ensures r.Ok? ==> r.value == GetCalendar(db, id).value
    ensures GetCalendar(db, id).None? ==> r == Err(NotFoundError("Calendar not found"))
    ensures GetCalendar(db, id).Some? && GetCalendar(db, id).value.userId != user
      ==> r == Err(AuthenticationError("Access denied"))
  {
    CalendarOwnedBy(db, user, id, "Access denied")
  }

  /** The event exists, its calendar exists, and that calendar belongs to the principal. */
  function EventAccess(db: Db, user: Uuid, id: Uuid): (r: Result<Event>)
    ensures !r.Panic?
    ensures r.Ok? <==> GetEvent(db, id).Some? && CalendarAccess(db, user, GetEvent(db, id).value.calendarId).Ok?
    ensures r.Ok? ==> r.value == GetEvent(db, id).value
    ensures GetEvent(db, id).None? ==> r == Err(NotFoundError("Event not found"))
    ensures GetEvent(db, id).Some? ==>
      r.Err? ==> r.error == CalendarAccess(db, user, GetEvent(db, id).value.calendarId).error
  {
    match GetEvent(db, id)
    case None => Err(NotFoundError("Event not found"))
    case Some(e) =>
      var check := CalendarAccess(db, user, e.calendarId);
      if check.Err? then Err(check.error) else Ok(e)
  }

  // ---------------------------------------------------------------------
  // Redirect targets

  const CalendarsPrefix := "/web/calendars/"
  const MessageQuery := "?message="
  const SuccessFlash := "&flash_type=success"
  const CalendarDeleted := "/web/calendars?message=Calendar deleted&flash_type=success"

  /** `/web/calendars/{id}?message=…&flash_type=success`. */
  function CalendarPage(id: Uuid, message: string): string {
    CalendarsPrefix + id.text + MessageQuery + message + SuccessFlash
  }

  // ---------------------------------------------------------------------
  // Calendar handlers

  function FormNewCalendar(form: CalendarForm): NewCalendar {
    NewCalendar(form.name, form.description, form.color, Checkbox(form.isPublic))
  }

  /** `create_calendar_handler`; the new identifier is a parameter. No check precedes the insert. */
  function CreateCalendarHandler(db: Db, user: Uuid, form: CalendarForm, id: Uuid): (r: (Result<Response>, Db))
    ensures r.0 == Ok(Redirect(CalendarsPrefix + id.text))
    ensures r.1 == CreateCalendar(db, user, FormNewCalendar(form), id).1
  {
    var (c, db') := CreateCalendar(db, user, FormNewCalendar(form), id);
    (Ok(Redirect(CalendarsPrefix + c.id.text)), db')
  }

  /** The created calendar belongs to the principal, is public exactly when the box was ticked, and is where the redirect points. */
  lemma CreatedCalendar(db: Db, user: Uuid, form: CalendarForm, id: Uuid)
    requires FreshIn(db.calendars, CalendarKey, id)
    ensures var (resp, db') := CreateCalendarHandler(db, user, form, id);
      && Header(resp.value, LocationHeader) == Some(CalendarsPrefix + id.text)
      && GetCalendar(db', id).Some?
      && var c := GetCalendar(db', id).value;
      && c.userId == user && c.name == form.name
      && (c.isPublic <==> form.isPublic == Some("on"))
  {
    var other := Uuid(id.text + "-");
    assert |other.text| != |id.text|;
    CreateCalendarFound(db, user, FormNewCalendar(form), id, other);
  }

  /** The edit form sends every field: name and visibility always replace, description and colour only when present. */
  function FormCalendarUpdate(form: CalendarForm): UpdateCalendar {
    UpdateCalendar(Some(form.name), form.description, form.color, Some(Checkbox(form.isPublic)))
  }

  /** `update_calendar_handler`. */
  function UpdateCalendarHandler(db: Db, user: Uuid, id: Uuid, form: CalendarForm): (r: (Result<Response>, Db))
    ensures r.0.Ok? <==> CalendarAccess(db, user, id).Ok?
    ensures !r.0.Ok? ==> r == (Err(CalendarAccess(db, user, id).error), db)
    ensures r.0.Ok? ==>
      && r.0.value == Redirect(CalendarPage(id, "Calendar updated"))
      && r.1 == UpdateCalendarById(db, id, FormCalendarUpdate(form)).1
  {
    var check := CalendarAccess(db, user, id);
    if check.Err? then (Err(check.error), db)
    else (Ok(Redirect(CalendarPage(id, "Calendar updated"))), UpdateCalendarById(db, id, FormCalendarUpdate(form)).1)
  }

  /** After an accepted edit the calendar carries the submitted name and visibility, keeps its owner, and no other calendar changes. */
  lemma UpdatedCalendar(db: Db, user: Uuid, id: Uuid, form: CalendarForm, other: Uuid)
    requires UpdateCalendarHandler(db, user, id, form).0.Ok? && other != id
    ensures var db' := UpdateCalendarHandler(db, user, id, form).1;
      && GetCalendar(db', id).Some?
      && var c := GetCalendar(db', id).value;
      && c.userId == user && c.name == form.name
      && (c.isPublic <==> form.isPublic == Some("on"))
      && c.description == (if form.description.Some? then form.description else GetCalendar(db, id).value.description)
      && GetCalendar(db', other) == GetCalendar(db, other)
  {
    UpdateCalendarResult(db, id, FormCalendarUpdate(form), other);
  }

  /** `delete_calendar_handler`. */
  function DeleteCalendarHandler(db: Db, user: Uuid, id: Uuid): (r: (Result<Response>, Db))
    ensures r.0.Ok? <==> CalendarAccess(db, user, id).Ok?
    ensures !r.0.Ok? ==> r == (Err(CalendarAccess(db, user, id).error), db)
    ensures r.0.Ok? ==> r.0.value == Redirect(CalendarDeleted) && r.1 == DeleteCalendar(db, id)
  {
    var check := CalendarAccess(db, user, id);
    if check.Err? then (Err(check.error), db)
    else (Ok(Redirect(CalendarDeleted)), DeleteCalendar(db, id))
  }

  // ---------------------------------------------------------------------
  // Event handlers

  function FormNewEvent(form: EventForm, start: Instant, end: Instant): NewEvent {
    NewEvent(form.title, form.description, form.location, start, end, Checkbox(form.isAllDay))
  }

  /** `create_event_handler`: ownership of the chosen calendar is checked before the times are parsed. */
  function CreateEventHandler(db: Db, user: Uuid, form: EventForm, id: Uuid): (r: (Result<Response>, Db))
    ensures r.0.Ok? <==> CalendarAccess(db, user, form.calendarId).Ok? && FormTimes(form.startTime, form.endTime).Ok?
    ensures CalendarAccess(db, user, form.calendarId).Err?
      ==> r == (Err(CalendarAccess(db, user, form.calendarId).error), db)
    ensures CalendarAccess(db, user, form.calendarId).Ok? && FormTimes(form.startTime, form.endTime).Err?
      ==> r == (Err(FormTimes(form.startTime, form.endTime).error), db)
    ensures r.0.Ok? ==> var times := FormTimes(form.startTime, form.endTime).value;
      && r.0.value == Redirect(CalendarPage(form.calendarId, "Event created"))
      && r.1 == CreateEvent(db, form.calendarId, FormNewEvent(form, times.0, times.1), id).1
  {
    var check := CalendarAccess(db, user, form.calendarId);
    if check.Err? then (Err(check.error), db)
    else
      var times := FormTimes(form.startTime, form.endTime);
      if times.Err? then (Err(times.error), db)
      else
        var (e, db') := CreateEvent(db, form.calendarId, FormNewEvent(form, times.value.0, times.value.1), id);
        (Ok(Redirect(CalendarPage(e.calendarId, "Event created"))), db')
  }

  /** The edit form replaces every field but the calendar: title, times and the all-day flag always, description and location when present. */
  function FormEventUpdate(form: EventForm, start: Instant, end: Instant): UpdateEvent {
    UpdateEvent(Some(form.title), form.description, form.location, Some(start), Some(end), Some(Checkbox(form.isAllDay)))
  }

  /** `update_event_handler`: the submitted calendar only chooses where the redirect goes. */
  function UpdateEventHandler(db: Db, user: Uuid, id: Uuid, form: EventForm): (r: (Result<Response>, Db))
    ensures r.0.Ok? <==> EventAccess(db, user, id).Ok? && FormTimes(form.startTime, form.endTime).Ok?
    ensures EventAccess(db, user, id).Err? ==> r == (Err(EventAccess(db, user, id).error), db)
    ensures EventAccess(db, user, id).Ok? && FormTimes(form.startTime, form.endTime).Err?
      ==> r == (Err(FormTimes(form.startTime, form.endTime).error), db)
    ensures r.0.Ok? ==> var times := FormTimes(form.startTime, form.endTime).value;
      && r.0.value == Redirect(CalendarPage(form.calendarId, "Event updated"))
      && r.1 == UpdateEventById(db, id, FormEventUpdate(form, times.0, times.1)).1
  {
    var check := EventAccess(db, user, id);
    if check.Err? then (Err(check.error), db)
    else
      var times := FormTimes(form.startTime, form.endTime);
      if times.Err? then (Err(times.error), db)
      else
        var db' := UpdateEventById(db, id, FormEventUpdate(form, times.value.0, times.value.1)).1;
        (Ok(Redirect(CalendarPage(form.calendarId, "Event updated"))), db')
  }

  /**
   * An accepted edit keeps the event in its calendar whatever calendar the
   * form names, takes the submitted title and times, and changes no other
   * event.
   */
  lemma UpdatedEvent(db: Db, user: Uuid, id: Uuid, form: EventForm, other: Uuid)
    requires UpdateEventHandler(db, user, id, form).0.Ok? && other != id
    ensures var db' := UpdateEventHandler(db, user, id, form).1;
      var times := FormTimes(form.startTime, form.endTime).value;
      && GetEvent(db', id).Some?
      && var e := GetEvent(db', id).value;
      && e.calendarId == GetEvent(db, id).value.calendarId
      && e.title == form.title && e.startTime == times.0 && e.endTime == times.1
      && (e.isAllDay <==> form.isAllDay == Some("on"))
      && GetEvent(db', other) == GetEvent(db, other)
  {
    var times := FormTimes(form.startTime, form.endTime).value;
    UpdateEventResult(db, id, FormEventUpdate(form, times.0, times.1), other);
  }

  /** `delete_event_handler`: the redirect goes to the calendar the event was in. */
  function DeleteEventHandler(db: Db, user: Uuid, id: Uuid): (r: (Result<Response>, Db))
    ensures r.0.Ok? <==> EventAccess(db, user, id).Ok?
    ensures !r.0.Ok? ==> r == (Err(EventAccess(db, user, id).error), db)
    ensures r.0.Ok? ==>
      && r.0.value == Redirect(CalendarPage(GetEvent(db, id).value.calendarId, "Event deleted"))
      && r.1 == DeleteEvent(db, id)
  {
    var check := EventAccess(db, user, id);
    if check.Err? then (Err(check.error), db)
    else (Ok(Redirect(CalendarPage(check.value.calendarId, "Event deleted"))), DeleteEvent(db, id))
  }

  // ---------------------------------------------------------------------
  // Share handlers

  /** `create_share_handler`; the grant records the principal as the owner who made it. */
  function CreateShareHandler(db: Db, user: Uuid, calendarId: Uuid, form: ShareForm, id: Uuid): (r: (Result<Response>, Db))
    ensures r.0.Ok? <==> CalendarAccess(db, user, calendarId).Ok?
    ensures !r.0.Ok? ==> r == (Err(CalendarAccess(db, user, calendarId).error), db)
    ensures r.0.Ok? ==>
      && r.0.value == Redirect(CalendarPage(calendarId, "Share created"))
      && r.1.shares == db.shares + [Share(id, calendarId, user, None, Some(form.sharedWithEmail), form.permission)]
      && r.1.calendars == db.calendars && r.1.events == db.events && r.1.users == db.users
  {
    var check := CalendarAccess(db, user, calendarId);
    if check.Err? then (Err(check.error), db)
    else
      var (_, db') := CreateShare(db, calendarId, user, NewShare(form.sharedWithEmail, form.permission), id);
      (Ok(Redirect(CalendarPage(calendarId, "Share created"))), db')
  }

  /** The share looked up among all shares, whose calendar the principal must own. */
  function ShareAccess(db: Db, user: Uuid, id: Uuid): (r: Result<Share>)
    ensures !r.Panic?
    ensures r.Ok? <==> GetShare(db, id).Some? && CalendarAccess(db, user, GetShare(db, id).value.calendarId).Ok?
    ensures r.Ok? ==> r.value == GetShare(db, id).value
    ensures GetShare(db, id).None? ==> r == Err(NotFoundError("Share not found"))
    ensures GetShare(db, id).Some? ==>
      r.Err? ==> r.error == CalendarAccess(db, user, GetShare(db, id).value.calendarId).error
  {
    match GetShare(db, id)
    case None => Err(NotFoundError("Share not found"))
    case Some(s) =>
      var check := CalendarAccess(db, user, s.calendarId);
      if check.Err? then Err(check.error) else Ok(s)
  }

  /** `delete_share_handler`. */
  function DeleteShareHandler(db: Db, user: Uuid, id: Uuid): (r: (Result<Response>, Db))
    ensures r.0.Ok? <==> ShareAccess(db, user, id).Ok?
    ensures !r.0.Ok? ==> r == (Err(ShareAccess(db, user, id).error), db)
    ensures r.0.Ok? ==>
      && r.0.value == Redirect(CalendarPage(GetShare(db, id).value.calendarId, "Share removed"))
      && r.1 == DeleteShare(db, id)
  {
    var check := ShareAccess(db, user, id);
    if check.Err? then (Err(check.error), db)
    else (Ok(Redirect(CalendarPage(check.value.calendarId, "Share removed"))), DeleteShare(db, id))
  }

  // ---------------------------------------------------------------------
  // Ownership before mutation

  /**
   * A principal who does not own the calendar concerned is refused with
   * "Access denied" by every changing handler, whatever else the form holds,
   * and the store is left as it was.
   */
  lemma NonOwnerRefused(db: Db, user: Uuid, calendarId: Uuid, eventId: Uuid, shareId: Uuid,
                        cform: CalendarForm, eform: EventForm, sform: ShareForm, id: Uuid)
    requires GetCalendar(db, calendarId).Some? && GetCalendar(db, calendarId).value.userId != user
    requires GetEvent(db, eventId).Some? && GetEvent(db, eventId).value.calendarId == calendarId
    requires GetShare(db, shareId).Some? && GetShare(db, shareId).value.calendarId == calendarId
    requires eform.calendarId == calendarId
    ensures var denied := (Err(AuthenticationError("Access denied")), db);
      && UpdateCalendarHandler(db, user, calendarId, cform) == denied
      && DeleteCalendarHandler(db, user, calendarId) == denied
      && CreateEventHandler(db, user, eform, id) == denied
      && UpdateEventHandler(db, user, eventId, eform) == denied
      && DeleteEventHandler(db, user, eventId) == denied
      && CreateShareHandler(db, user, calendarId, sform, id) == denied
      && DeleteShareHandler(db, user, shareId) == denied
  {
  }

  /** Once the store is well formed, an event whose calendar the principal does not own cannot be changed. */
  lemma NonOwnerEventUntouched(db: Db, user: Uuid, eventId: Uuid, form: EventForm)
    requires WellFormed(db)
    requires GetEvent(db, eventId).Some?
    requires GetCalendar(db, GetEvent(db, eventId).value.calendarId).value.userId != user
    ensures UpdateEventHandler(db, user, eventId, form).1 == db
    ensures DeleteEventHandler(db, user, eventId).1 == db
  {
    assert GetEvent(db, eventId).value in db.events;
  }
}
