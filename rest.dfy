/**
 * The JSON REST handlers. Reads look a record up by identifier with no
 * ownership check; every change to a calendar or an event first finds the
 * record, then its calendar, and refuses a principal who does not own that
 * calendar. Deleting a share checks nothing. A handler yields the record
 * that would be serialised as JSON (or the status of an empty reply) and
 * the new store.
 */
module Rest {
  import opened Maybe
  import opened Uuids
  import opened Models
  import opened Errors
  import opened Store

  const NoContentStatus := 204

  /** `get_user_by_id`. */
  function HandleGetUser(db: Db, id: Uuid): (r: Result<User>)
    ensures r.Ok? <==> GetUser(db, id).Some?
    ensures r.Ok? ==> r.value.id == id && r.value in db.users
    ensures r.Err? ==> r.error == NotFoundError("User not found")
  {
    match GetUser(db, id)
    case None => Err(NotFoundError("User not found"))
    case Some(u) => Ok(u)
  }

  /** `get_calendar_by_id`: any authenticated principal may read any calendar, public or not. */
  function HandleGetCalendar(db: Db, id: Uuid): (r: Result<Calendar>)
    ensures r.Ok? <==> GetCalendar(db, id).Some?
    ensures r.Ok? ==> r.value.id == id && r.value in db.calendars
    ensures r.Err? ==> r.error == NotFoundError("Calendar not found")
  {
    match GetCalendar(db, id)
    case None => Err(NotFoundError("Calendar not found"))
    case Some(c) => Ok(c)
  }

  /** `get_event_by_id`: the event's calendar is not consulted. */
  function HandleGetEvent(db: Db, id: Uuid): (r: Result<Event>)
    ensures r.Ok? <==> GetEvent(db, id).Some?
    ensures r.Ok? ==> r.value.id == id && r.value in db.events
    ensures r.Err? ==> r.error == NotFoundError("Event not found")
  {
    match GetEvent(db, id)
    case None => Err(NotFoundError("Event not found"))
    case Some(e) => Ok(e)
  }

  /** The calendar check shared by the calendar handlers: it exists, then the principal owns it. */
  function OwnedCalendar(db: Db, user: Uuid, id: Uuid): (r: Result<Calendar>)
    ensures !r.Panic?
    ensures r.Ok? <==> GetCalendar(db, id).Some? && GetCalendar(db, id).value.userId == user
    ensures r.Ok? ==> r.value == GetCalendar(db, id).value
    ensures GetCalendar(db, id).None? ==> r == Err(NotFoundError("Calendar not found"))
    ensures GetCalendar(db, id).Some? && GetCalendar(db, id).value.userId != user
      ==> r == Err(AuthenticationError("You don't own this calendar"))
  {
    CalendarOwnedBy(db, user, id, "You don't own this calendar")
  }

  /** The event check shared by the event handlers: it exists, its calendar exists, the principal owns that calendar. */
  function OwnedEvent(db: Db, user: Uuid, id: Uuid): (r: Result<Event>)
    ensures !r.Panic?
    ensures r.Ok? <==>
      && GetEvent(db, id).Some?
      && GetCalendar(db, GetEvent(db, id).value.calendarId).Some?
      && GetCalendar(db, GetEvent(db, id).value.calendarId).value.userId == user
    ensures r.Ok? ==> r.value == GetEvent(db, id).value
    ensures GetEvent(db, id).None? ==> r == Err(NotFoundError("Event not found"))
  {
    match GetEvent(db, id)
    case None => Err(NotFoundError("Event not found"))
    case Some(e) =>
      match GetCalendar(db, e.calendarId)
      case None => Err(NotFoundError("Calendar not found"))
      case Some(c) =>
        if c.userId != user then Err(AuthenticationError("You don't have access to this event")) else Ok(e)
  }

  /** `update_calendar`: only the owner may change a calendar; the reply is the stored row with the present fields replaced. */
  function HandleUpdateCalendar(db: Db, user: Uuid, id: Uuid, u: UpdateCalendar): (r: (Result<Calendar>, Db))
    ensures r.0.Ok? <==> OwnedCalendar(db, user, id).Ok?
    ensures !r.0.Ok? ==> r.0 == Err(OwnedCalendar(db, user, id).error) && r.1 == db
    ensures r.0.Ok? ==> r.1 == UpdateCalendarById(db, id, u).1
  {
    var check := OwnedCalendar(db, user, id);
    if check.Err? then (Err(check.error), db)
    else
      var (updated, db') := UpdateCalendarById(db, id, u);
      match updated
      case Some(c) => (Ok(c), db')
      case None => assert false; (Panic, db)
  }

  /** The updated calendar keeps its identifier and owner and takes every field the update supplies. */
  lemma UpdateCalendarReply(db: Db, user: Uuid, id: Uuid, u: UpdateCalendar)
    requires HandleUpdateCalendar(db, user, id, u).0.Ok?
    ensures var c := HandleUpdateCalendar(db, user, id, u).0.value;
      && c == ApplyCalendarUpdate(GetCalendar(db, id).value, u)
      && c.id == id && c.userId == user
      && (u.name.Some? ==> c.name == u.name.value)
      && (u.isPublic.Some? ==> c.isPublic == u.isPublic.value)
  {
    var other := Uuid(id.text + "-");
    assert |other.text| != |id.text|;
    UpdateCalendarResult(db, id, u, other);
  }

  /** `delete_calendar`: only the owner may delete; the calendar goes with its events and shares. */
  function HandleDeleteCalendar(db: Db, user: Uuid, id: Uuid): (r: (Result<nat>, Db))
    ensures r.0.Ok? <==> OwnedCalendar(db, user, id).Ok?
    ensures !r.0.Ok? ==> r.0 == Err(OwnedCalendar(db, user, id).error) && r.1 == db
    ensures r.0.Ok? ==> r.0.value == NoContentStatus && r.1 == DeleteCalendar(db, id)
  {
    var check := OwnedCalendar(db, user, id);
    if check.Err? then (Err(check.error), db)
    else (Ok(NoContentStatus), DeleteCalendar(db, id))
  }

  /** After a successful delete nothing refers to the calendar, other calendars stay, and the store stays well formed. */
  lemma DeleteCalendarReply(db: Db, user: Uuid, id: Uuid, other: Uuid)
    requires WellFormed(db) && HandleDeleteCalendar(db, user, id).0.Ok? && other != id
    ensures var db' := HandleDeleteCalendar(db, user, id).1;
      && GetCalendar(db', id).None?
      && (forall e :: e in db'.events ==> e.calendarId != id)
      && (forall s :: s in db'.shares ==> s.calendarId != id)
      && GetCalendar(db', other) == GetCalendar(db, other)
      && WellFormed(db')
  {
    DeleteCalendarRemoves(db, id);
    DeleteCalendarKeeps(db, id, other);
    DeleteCalendarWellFormed(db, id);
  }

  /** `update_event`: only the owner of the event's calendar may change it. */
  function HandleUpdateEvent(db: Db, user: Uuid, id: Uuid, u: UpdateEvent): (r: (Result<Event>, Db))
    ensures r.0.Ok? <==> OwnedEvent(db, user, id).Ok?
    ensures !r.0.Ok? ==> r.0 == Err(OwnedEvent(db, user, id).error) && r.1 == db
    ensures r.0.Ok? ==> r.1 == UpdateEventById(db, id, u).1
  {
    var check := OwnedEvent(db, user, id);
    if check.Err? then (Err(check.error), db)
    else
      var (updated, db') := UpdateEventById(db, id, u);
      match updated
      case Some(e) => (Ok(e), db')
      case None => assert false; (Panic, db)
  }

  /** The updated event stays in its calendar and takes every field the update supplies. */
  lemma UpdateEventReply(db: Db, user: Uuid, id: Uuid, u: UpdateEvent)
    requires HandleUpdateEvent(db, user, id, u).0.Ok?
    ensures var e := HandleUpdateEvent(db, user, id, u).0.value;
      && e == ApplyEventUpdate(GetEvent(db, id).value, u)
      && e.id == id && e.calendarId == GetEvent(db, id).value.calendarId
      && (u.title.Some? ==> e.title == u.title.value)
      && (u.startTime.Some? ==> e.startTime == u.startTime.value)
      && (u.endTime.Some? ==> e.endTime == u.endTime.value)
  {
    var other := Uuid(id.text + "-");
    assert |other.text| != |id.text|;
    UpdateEventResult(db, id, u, other);
  }

  /** `delete_event`: only the owner of the event's calendar may delete it. */
  function HandleDeleteEvent(db: Db, user: Uuid, id: Uuid): (r: (Result<nat>, Db))
    ensures r.0.Ok? <==> OwnedEvent(db, user, id).Ok?
    ensures !r.0.Ok? ==> r.0 == Err(OwnedEvent(db, user, id).error) && r.1 == db
    ensures r.0.Ok? ==> r.0.value == NoContentStatus && r.1 == DeleteEvent(db, id)
  {
    var check := OwnedEvent(db, user, id);
    if check.Err? then (Err(check.error), db)
    else (Ok(NoContentStatus), DeleteEvent(db, id))
  }

  /** `get_calendar_shares`: only the owner may list a calendar's shares. */
  function HandleGetShares(db: Db, user: Uuid, calendarId: Uuid): (r: Result<seq<Share>>)
    ensures r.Ok? <==> OwnedCalendar(db, user, calendarId).Ok?
    ensures r.Ok? ==> forall s :: s in r.value <==> s in db.shares && s.calendarId == calendarId
  {
    var check := OwnedCalendar(db, user, calendarId);
    if check.Err? then Err(check.error)
    else Ok(SharesOfCalendar(db, calendarId))
  }

  /** `create_share`: only the owner may share a calendar; the grant records the owner as its maker. */
  function HandleCreateShare(db: Db, user: Uuid, calendarId: Uuid, ns: NewShare, newId: Uuid): (r: (Result<Share>, Db))
    ensures r.0.Ok? <==> OwnedCalendar(db, user, calendarId).Ok?
    ensures !r.0.Ok? ==> r.1 == db
    ensures r.0.Ok? ==> (r.0.value, r.1) == CreateShare(db, calendarId, user, ns, newId)
  {
    var check := OwnedCalendar(db, user, calendarId);
    if check.Err? then (Err(check.error), db)
    else
      var (s, db') := CreateShare(db, calendarId, user, ns, newId);
      (Ok(s), db')
  }

  /** A share the owner creates shows up when the owner lists the calendar's shares. */
  lemma CreateShareThenList(db: Db, user: Uuid, calendarId: Uuid, ns: NewShare, newId: Uuid)
    requires WellFormed(db) && FreshIn(db.shares, ShareKey, newId)
    requires HandleCreateShare(db, user, calendarId, ns, newId).0.Ok?
    ensures var (r, db') := HandleCreateShare(db, user, calendarId, ns, newId);
      && WellFormed(db')
      && HandleGetShares(db', user, calendarId).Ok?
      && r.value in HandleGetShares(db', user, calendarId).value
      && r.value.sharedWithEmail == Some(ns.sharedWithEmail)
  {
    CreateShareWellFormed(db, calendarId, user, ns, newId);
  }

  /** `delete_share`: the share is removed whoever asks; neither the share nor its calendar is checked. */
  function HandleDeleteShare(db: Db, user: Uuid, id: Uuid): (r: (Result<nat>, Db))
    ensures r.0 == Ok(NoContentStatus) && r.1 == DeleteShare(db, id)
  {
    (Ok(NoContentStatus), DeleteShare(db, id))
  }

  /** Any principal can remove a share of a calendar they do not own. */
  lemma DeleteShareUnchecked(db: Db, user: Uuid, s: Share)
    requires WellFormed(db) && s in db.shares
    requires GetCalendar(db, s.calendarId).value.userId != user
    ensures HandleDeleteShare(db, user, s.id).0.Ok?
    ensures GetShare(HandleDeleteShare(db, user, s.id).1, s.id).None?
  {
    var other := Uuid(s.id.text + "-");
    assert |other.text| != |s.id.text|;
    DeleteShareEffect(db, s.id, other);
  }

  /** Every change to a calendar, an event or a share list is refused to a principal who does not own the calendar, and leaves the store as it was. */
  lemma NonOwnerChangesNothing(db: Db, user: Uuid, c: Calendar, e: Event, uc: UpdateCalendar, ue: UpdateEvent, ns: NewShare, newId: Uuid)
    requires WellFormed(db) && c in db.calendars && c.userId != user
    requires e in db.events && e.calendarId == c.id
    ensures HandleUpdateCalendar(db, user, c.id, uc) == (Err(AuthenticationError("You don't own this calendar")), db)
    ensures HandleDeleteCalendar(db, user, c.id) == (Err(AuthenticationError("You don't own this calendar")), db)
    ensures HandleCreateShare(db, user, c.id, ns, newId) == (Err(AuthenticationError("You don't own this calendar")), db)
    ensures HandleUpdateEvent(db, user, e.id, ue) == (Err(AuthenticationError("You don't have access to this event")), db)
    ensures HandleDeleteEvent(db, user, e.id) == (Err(AuthenticationError("You don't have access to this event")), db)
  {
    var n :| 0 <= n < |db.calendars| && db.calendars[n] == c;
    FindUnique(db.calendars, CalendarKey, n);
    var m :| 0 <= m < |db.events| && db.events[m] == e;
    FindUnique(db.events, EventKey, m);
  }
}
