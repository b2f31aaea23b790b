/**
 * The database behind `CalendarService`, as a value: four tables kept in
 * insertion order (the order the SQL queries return rows in), the lookups
 * and listings the handlers use, and the inserts, partial updates and
 * deletes. Every statement succeeds; a database failure is not modelled.
 * New identifiers (`Uuid::new_v4`) are parameters.
 */
module Store {
  import opened Maybe
  import opened Uuids
  import opened Models
  import opened Seqs
  import opened Errors

  datatype Db = Db(users: seq<User>, calendars: seq<Calendar>, events: seq<Event>, shares: seq<Share>)

  function UserKey(u: User): Uuid { u.id }
  function UserEmail(u: User): string { u.email }
  function CalendarKey(c: Calendar): Uuid { c.id }
  function EventKey(e: Event): Uuid { e.id }
  function ShareKey(s: Share): Uuid { s.id }

  // ---------------------------------------------------------------------
  // Lookups

  /** `SELECT … WHERE key = ?` returning the first row, as `fetch_optional` does. */
  function Find<T, K(==)>(xs: seq<T>, key: T -> K, k: K): (r: Option<T>)
    ensures r.Some? ==> r.value in xs && key(r.value) == k
    ensures r.None? <==> forall i :: 0 <= i < |xs| ==> key(xs[i]) != k
    decreases |xs|
  {
    if xs == [] then None
    else if key(xs[0]) == k then Some(xs[0])
    else Find(xs[1..], key, k)
  }

  /** No two rows of a table share a key: the table's primary key. */
  predicate Unique<T, K(==)>(xs: seq<T>, key: T -> K) {
    forall i, j :: 0 <= i < j < |xs| ==> key(xs[i]) != key(xs[j])
  }

  /** With unique keys, looking a row's key up finds that row. */
  lemma {:induction false} FindUnique<T, K>(xs: seq<T>, key: T -> K, n: nat)
    requires Unique(xs, key) && n < |xs|
    ensures Find(xs, key, key(xs[n])) == Some(xs[n])
    decreases |xs|
  {
    if n > 0 {
      assert key(xs[0]) != key(xs[n]);
      assert xs[1..][n - 1] == xs[n];
      FindUnique(xs[1..], key, n - 1);
    }
  }

  function GetUser(db: Db, id: Uuid): Option<User> { Find(db.users, UserKey, id) }
  function GetUserByEmail(db: Db, email: string): Option<User> { Find(db.users, UserEmail, email) }
  function GetCalendar(db: Db, id: Uuid): Option<Calendar> { Find(db.calendars, CalendarKey, id) }
  function GetEvent(db: Db, id: Uuid): Option<Event> { Find(db.events, EventKey, id) }
  function GetShare(db: Db, id: Uuid): Option<Share> { Find(db.shares, ShareKey, id) }

  /**
   * The check both front ends make before touching a calendar: it exists,
   * else "Calendar not found"; it belongs to the principal, else the refusal
   * `denied`, the one text in which the two front ends differ.
   */
  function CalendarOwnedBy(db: Db, user: Uuid, id: Uuid, denied: string): (r: Result<Calendar>)
    ensures !r.Panic?
    ensures r.Ok? <==> GetCalendar(db, id).Some? && GetCalendar(db, id).value.userId == user
    ensures r.Ok? ==> r.value == GetCalendar(db, id).value
    ensures GetCalendar(db, id).None? ==> r == Err(NotFoundError("Calendar not found"))
    ensures GetCalendar(db, id).Some? && GetCalendar(db, id).value.userId != user
      ==> r == Err(AuthenticationError(denied))
  {
    match GetCalendar(db, id)
    case None => Err(NotFoundError("Calendar not found"))
    case Some(c) => if c.userId != user then Err(AuthenticationError(denied)) else Ok(c)
  }

  /** `get_calendars_by_user_id`. */
  function CalendarsOfUser(db: Db, user: Uuid): (r: seq<Calendar>)
    ensures forall c :: c in r <==> c in db.calendars && c.userId == user
  {
    Filter(db.calendars, (c: Calendar) => c.userId == user)
  }

  /** `get_events_by_calendar_id`. */
  function EventsOfCalendar(db: Db, calendarId: Uuid): (r: seq<Event>)
    ensures forall e :: e in r <==> e in db.events && e.calendarId == calendarId
  {
    Filter(db.events, (e: Event) => e.calendarId == calendarId)
  }

  /** `get_shares_by_calendar_id`. */
  function SharesOfCalendar(db: Db, calendarId: Uuid): (r: seq<Share>)
    ensures forall s :: s in r <==> s in db.shares && s.calendarId == calendarId
  {
    Filter(db.shares, (s: Share) => s.calendarId == calendarId)
  }

  // ---------------------------------------------------------------------
  // Well-formedness

  /** Keys are unique in every table, and every event and share names a stored calendar. */
  predicate WellFormed(db: Db) {
    && Unique(db.users, UserKey)
    && Unique(db.calendars, CalendarKey)
    && Unique(db.events, EventKey)
    && Unique(db.shares, ShareKey)
    && (forall e :: e in db.events ==> GetCalendar(db, e.calendarId).Some?)
    && (forall s :: s in db.shares ==> GetCalendar(db, s.calendarId).Some?)
  }

  /** An identifier no row of the table carries, as a freshly drawn v4 identifier is taken to be. */
  predicate FreshIn<T>(xs: seq<T>, key: T -> Uuid, id: Uuid) {
    forall i :: 0 <= i < |xs| ==> key(xs[i]) != id
  }

  // ---------------------------------------------------------------------
  // Inserts

  /** `create_user`: the password is stored as the hash the caller supplies. */
  function CreateUser(db: Db, name: string, email: string, passwordHash: string, id: Uuid): (r: (User, Db))
    ensures r.0 == User(id, name, email, passwordHash)
    ensures r.1 == db.(users := db.users + [r.0])
  {
    var u := User(id, name, email, passwordHash);
    (u, db.(users := db.users + [u]))
  }

  /** `create_calendar`. */
  function CreateCalendar(db: Db, userId: Uuid, nc: NewCalendar, id: Uuid): (r: (Calendar, Db))
    ensures r.0 == Calendar(id, userId, nc.name, nc.description, nc.color, nc.isPublic)
    ensures r.1 == db.(calendars := db.calendars + [r.0])
  {
    var c := Calendar(id, userId, nc.name, nc.description, nc.color, nc.isPublic);
    (c, db.(calendars := db.calendars + [c]))
  }

  /** `create_event`. */
  function CreateEvent(db: Db, calendarId: Uuid, ne: NewEvent, id: Uuid): (r: (Event, Db))
    ensures r.0 == Event(id, calendarId, ne.title, ne.description, ne.location, ne.startTime, ne.endTime, ne.isAllDay)
    ensures r.1 == db.(events := db.events + [r.0])
  {
    var e := Event(id, calendarId, ne.title, ne.description, ne.location, ne.startTime, ne.endTime, ne.isAllDay);
    (e, db.(events := db.events + [e]))
  }

  /** `create_share`: the owner making the grant is recorded with the recipient's e-mail and the permission text. */
  function CreateShare(db: Db, calendarId: Uuid, userId: Uuid, ns: NewShare, id: Uuid): (r: (Share, Db))
    ensures r.0 == Share(id, calendarId, userId, None, Some(ns.sharedWithEmail), ns.permission)
    ensures r.1 == db.(shares := db.shares + [r.0])
  {
    var s := Share(id, calendarId, userId, None, Some(ns.sharedWithEmail), ns.permission);
    (s, db.(shares := db.shares + [s]))
  }

  lemma {:induction false} FindAppendFresh<T, K>(xs: seq<T>, key: T -> K, x: T, k: K)
    requires key(x) != k
    ensures Find(xs + [x], key, k) == Find(xs, key, k)
    decreases |xs|
  {
    if xs == [] {
      assert ([x])[1..] == [];
    } else {
      assert (xs + [x])[1..] == xs[1..] + [x];
      FindAppendFresh(xs[1..], key, x, k);
    }
  }

  lemma {:induction false} FindAppendNew<T, K>(xs: seq<T>, key: T -> K, x: T)
    requires forall i :: 0 <= i < |xs| ==> key(xs[i]) != key(x)
    ensures Find(xs + [x], key, key(x)) == Some(x)
    decreases |xs|
  {
    if xs == [] {
    } else {
      assert (xs + [x])[1..] == xs[1..] + [x];
      FindAppendNew(xs[1..], key, x);
    }
  }

  /** A fresh row is found under its new key, and every other key finds what it found before. */
  lemma CreateCalendarFound(db: Db, userId: Uuid, nc: NewCalendar, id: Uuid, other: Uuid)
    requires FreshIn(db.calendars, CalendarKey, id) && other != id
    ensures var (c, db') := CreateCalendar(db, userId, nc, id);
      GetCalendar(db', id) == Some(c) && GetCalendar(db', other) == GetCalendar(db, other)
  {
    var (c, db') := CreateCalendar(db, userId, nc, id);
    FindAppendNew(db.calendars, CalendarKey, c);
    FindAppendFresh(db.calendars, CalendarKey, c, other);
  }

  lemma CreateEventFound(db: Db, calendarId: Uuid, ne: NewEvent, id: Uuid, other: Uuid)
    requires FreshIn(db.events, EventKey, id) && other != id
    ensures var (e, db') := CreateEvent(db, calendarId, ne, id);
      GetEvent(db', id) == Some(e) && GetEvent(db', other) == GetEvent(db, other)
  {
    var (e, db') := CreateEvent(db, calendarId, ne, id);
    FindAppendNew(db.events, EventKey, e);
    FindAppendFresh(db.events, EventKey, e, other);
  }

  lemma UniqueAppend<T, K>(xs: seq<T>, key: T -> K, x: T)
    requires Unique(xs, key) && forall i :: 0 <= i < |xs| ==> key(xs[i]) != key(x)
    ensures Unique(xs + [x], key)
  {
    var ys := xs + [x];
    forall i, j | 0 <= i < j < |ys|
      ensures key(ys[i]) != key(ys[j])
    {
      if j == |xs| {
        assert ys[j] == x && ys[i] == xs[i];
      } else {
        assert ys[i] == xs[i] && ys[j] == xs[j];
      }
    }
  }

  /** Inserting a calendar under a fresh identifier keeps the store well formed. */
  lemma CreateCalendarWellFormed(db: Db, userId: Uuid, nc: NewCalendar, id: Uuid)
    requires WellFormed(db) && FreshIn(db.calendars, CalendarKey, id)
    ensures WellFormed(CreateCalendar(db, userId, nc, id).1)
  {
    var (c, db') := CreateCalendar(db, userId, nc, id);
    UniqueAppend(db.calendars, CalendarKey, c);
    forall e | e in db'.events
      ensures GetCalendar(db', e.calendarId).Some?
    {
      if e.calendarId != id {
        FindAppendFresh(db.calendars, CalendarKey, c, e.calendarId);
      }
    }
    forall s | s in db'.shares
      ensures GetCalendar(db', s.calendarId).Some?
    {
      if s.calendarId != id {
        FindAppendFresh(db.calendars, CalendarKey, c, s.calendarId);
      }
    }
  }

  /** Inserting an event under a fresh identifier into a stored calendar keeps the store well formed. */
  lemma CreateEventWellFormed(db: Db, calendarId: Uuid, ne: NewEvent, id: Uuid)
    requires WellFormed(db) && FreshIn(db.events, EventKey, id) && GetCalendar(db, calendarId).Some?
    ensures WellFormed(CreateEvent(db, calendarId, ne, id).1)
  {
    var (e, db') := CreateEvent(db, calendarId, ne, id);
    UniqueAppend(db.events, EventKey, e);
  }

  /** Inserting a share under a fresh identifier into a stored calendar keeps the store well formed. */
  lemma CreateShareWellFormed(db: Db, calendarId: Uuid, userId: Uuid, ns: NewShare, id: Uuid)
    requires WellFormed(db) && FreshIn(db.shares, ShareKey, id) && GetCalendar(db, calendarId).Some?
    ensures WellFormed(CreateShare(db, calendarId, userId, ns, id).1)
  {
    var (s, db') := CreateShare(db, calendarId, userId, ns, id);
    UniqueAppend(db.shares, ShareKey, s);
  }

  // ---------------------------------------------------------------------
  // Partial updates

  /** The `if let Some(..)` chain of `update_calendar`: each present field replaces the stored one. */
  function ApplyCalendarUpdate(c: Calendar, u: UpdateCalendar): (r: Calendar)
    ensures r.id == c.id && r.userId == c.userId
  {
    c.(name := u.name.GetOr(c.name),
       description := if u.description.Some? then u.description else c.description,
       color := if u.color.Some? then u.color else c.color,
       isPublic := u.isPublic.GetOr(c.isPublic))
  }

  /** The `if let Some(..)` chain of `update_event`. */
  function ApplyEventUpdate(e: Event, u: UpdateEvent): (r: Event)
    ensures r.id == e.id && r.calendarId == e.calendarId
  {
    e.(title := u.title.GetOr(e.title),
       description := if u.description.Some? then u.description else e.description,
       location := if u.location.Some? then u.location else e.location,
       startTime := u.startTime.GetOr(e.startTime),
       endTime := u.endTime.GetOr(e.endTime),
       isAllDay := u.isAllDay.GetOr(e.isAllDay))
  }

  /** An update names what the row holds afterwards: applying it twice is applying it once. */
  lemma ApplyCalendarUpdateIdempotent(c: Calendar, u: UpdateCalendar)
    ensures ApplyCalendarUpdate(ApplyCalendarUpdate(c, u), u) == ApplyCalendarUpdate(c, u)
    ensures u == UpdateCalendar(None, None, None, None) ==> ApplyCalendarUpdate(c, u) == c
  {
  }

  lemma ApplyEventUpdateIdempotent(e: Event, u: UpdateEvent)
    ensures ApplyEventUpdate(ApplyEventUpdate(e, u), u) == ApplyEventUpdate(e, u)
    ensures u == UpdateEvent(None, None, None, None, None, None) ==> ApplyEventUpdate(e, u) == e
  {
  }

  /** `UPDATE … WHERE id = ?` over a whole table. */
  function UpdateCalendars(cs: seq<Calendar>, id: Uuid, u: UpdateCalendar): (r: seq<Calendar>)
    ensures |r| == |cs|
    ensures forall i :: 0 <= i < |cs| ==> r[i] == if cs[i].id == id then ApplyCalendarUpdate(cs[i], u) else cs[i]
    decreases |cs|
  {
    if cs == [] then []
    else [if cs[0].id == id then ApplyCalendarUpdate(cs[0], u) else cs[0]] + UpdateCalendars(cs[1..], id, u)
  }

  function UpdateEvents(es: seq<Event>, id: Uuid, u: UpdateEvent): (r: seq<Event>)
    ensures |r| == |es|
    ensures forall i :: 0 <= i < |es| ==> r[i] == if es[i].id == id then ApplyEventUpdate(es[i], u) else es[i]
    decreases |es|
  {
    if es == [] then []
    else [if es[0].id == id then ApplyEventUpdate(es[0], u) else es[0]] + UpdateEvents(es[1..], id, u)
  }

  /** `update_calendar`: apply the present fields, then read the row back; a missing row is `None`. */
  function UpdateCalendarById(db: Db, id: Uuid, u: UpdateCalendar): (r: (Option<Calendar>, Db))
    ensures r.1 == db.(calendars := UpdateCalendars(db.calendars, id, u))
    ensures r.0 == GetCalendar(r.1, id)
  {
    var db' := db.(calendars := UpdateCalendars(db.calendars, id, u));
    (GetCalendar(db', id), db')
  }

  /** `update_event`. */
  function UpdateEventById(db: Db, id: Uuid, u: UpdateEvent): (r: (Option<Event>, Db))
    ensures r.1 == db.(events := UpdateEvents(db.events, id, u))
    ensures r.0 == GetEvent(r.1, id)
  {
    var db' := db.(events := UpdateEvents(db.events, id, u));
    (GetEvent(db', id), db')
  }

  lemma {:induction false} FindUpdateCalendars(cs: seq<Calendar>, id: Uuid, u: UpdateCalendar, k: Uuid)
    ensures Find(UpdateCalendars(cs, id, u), CalendarKey, k)
         == if k == id then (match Find(cs, CalendarKey, k) case None => None case Some(c) => Some(ApplyCalendarUpdate(c, u)))
            else Find(cs, CalendarKey, k)
    decreases |cs|
  {
    if cs != [] {
      var r := UpdateCalendars(cs, id, u);
      assert r[1..] == UpdateCalendars(cs[1..], id, u);
      FindUpdateCalendars(cs[1..], id, u, k);
    }
  }

  lemma {:induction false} FindUpdateEvents(es: seq<Event>, id: Uuid, u: UpdateEvent, k: Uuid)
    ensures Find(UpdateEvents(es, id, u), EventKey, k)
         == if k == id then (match Find(es, EventKey, k) case None => None case Some(e) => Some(ApplyEventUpdate(e, u)))
            else Find(es, EventKey, k)
    decreases |es|
  {
    if es != [] {
      var r := UpdateEvents(es, id, u);
      assert r[1..] == UpdateEvents(es[1..], id, u);
      FindUpdateEvents(es[1..], id, u, k);
    }
  }

  /** The row read back is the stored row with the update applied, and no other row changes. */
  lemma UpdateCalendarResult(db: Db, id: Uuid, u: UpdateCalendar, other: Uuid)
    requires other != id
    ensures var (r, db') := UpdateCalendarById(db, id, u);
      && (GetCalendar(db, id).None? ==> r.None?)
      && (GetCalendar(db, id).Some? ==> r == Some(ApplyCalendarUpdate(GetCalendar(db, id).value, u)))
      && GetCalendar(db', other) == GetCalendar(db, other)
  {
    FindUpdateCalendars(db.calendars, id, u, id);
    FindUpdateCalendars(db.calendars, id, u, other);
  }

  lemma UpdateEventResult(db: Db, id: Uuid, u: UpdateEvent, other: Uuid)
    requires other != id
    ensures var (r, db') := UpdateEventById(db, id, u);
      && (GetEvent(db, id).None? ==> r.None?)
      && (GetEvent(db, id).Some? ==> r == Some(ApplyEventUpdate(GetEvent(db, id).value, u)))
      && GetEvent(db', other) == GetEvent(db, other)
  {
    FindUpdateEvents(db.events, id, u, id);
    FindUpdateEvents(db.events, id, u, other);
  }

  lemma UniqueUpdateCalendars(cs: seq<Calendar>, id: Uuid, u: UpdateCalendar)
    requires Unique(cs, CalendarKey)
    ensures Unique(UpdateCalendars(cs, id, u), CalendarKey)
  {
    var r := UpdateCalendars(cs, id, u);
    forall i, j | 0 <= i < j < |r|
      ensures CalendarKey(r[i]) != CalendarKey(r[j])
    {
      assert CalendarKey(r[i]) == CalendarKey(cs[i]) && CalendarKey(r[j]) == CalendarKey(cs[j]);
    }
  }

  lemma UniqueUpdateEvents(es: seq<Event>, id: Uuid, u: UpdateEvent)
    requires Unique(es, EventKey)
    ensures Unique(UpdateEvents(es, id, u), EventKey)
  {
    var r := UpdateEvents(es, id, u);
    forall i, j | 0 <= i < j < |r|
      ensures EventKey(r[i]) != EventKey(r[j])
    {
      assert EventKey(r[i]) == EventKey(es[i]) && EventKey(r[j]) == EventKey(es[j]);
    }
  }

  /** Updates keep identifiers and owners, so they keep the store well formed. */
  lemma UpdateCalendarWellFormed(db: Db, id: Uuid, u: UpdateCalendar)
    requires WellFormed(db)
    ensures WellFormed(UpdateCalendarById(db, id, u).1)
  {
    var db' := UpdateCalendarById(db, id, u).1;
    UniqueUpdateCalendars(db.calendars, id, u);
    forall k | GetCalendar(db, k).Some?
      ensures GetCalendar(db', k).Some?
    {
      FindUpdateCalendars(db.calendars, id, u, k);
    }
  }

  lemma UpdateEventWellFormed(db: Db, id: Uuid, u: UpdateEvent)
    requires WellFormed(db)
    ensures WellFormed(UpdateEventById(db, id, u).1)
  {
    var db' := UpdateEventById(db, id, u).1;
    UniqueUpdateEvents(db.events, id, u);
    forall e | e in db'.events
      ensures GetCalendar(db', e.calendarId).Some?
    {
      var i :| 0 <= i < |db'.events| && db'.events[i] == e;
      assert e.calendarId == db.events[i].calendarId;
      assert db.events[i] in db.events;
    }
  }

  // ---------------------------------------------------------------------
  // Deletes

  /** `delete_event`: `DELETE FROM events WHERE id = ?`. */
  function DeleteEvent(db: Db, id: Uuid): (r: Db)
    ensures r == db.(events := Filter(db.events, (e: Event) => e.id != id))
  {
    db.(events := Filter(db.events, (e: Event) => e.id != id))
  }

  /** `delete_share`. */
  function DeleteShare(db: Db, id: Uuid): (r: Db)
    ensures r == db.(shares := Filter(db.shares, (s: Share) => s.id != id))
  {
    db.(shares := Filter(db.shares, (s: Share) => s.id != id))
  }

  /** `delete_calendar`: the calendar's events, then its shares, then the calendar itself. */
  function DeleteCalendar(db: Db, id: Uuid): (r: Db)
    ensures r.users == db.users
    ensures r.events == Filter(db.events, (e: Event) => e.calendarId != id)
    ensures r.shares == Filter(db.shares, (s: Share) => s.calendarId != id)
    ensures r.calendars == Filter(db.calendars, (c: Calendar) => c.id != id)
  {
    var withoutEvents := db.(events := Filter(db.events, (e: Event) => e.calendarId != id));
    var withoutShares := withoutEvents.(shares := Filter(withoutEvents.shares, (s: Share) => s.calendarId != id));
    withoutShares.(calendars := Filter(withoutShares.calendars, (c: Calendar) => c.id != id))
  }

  lemma {:induction false} FindFilterOut<T(!new), K>(xs: seq<T>, key: T -> K, p: T -> bool, k: K)
    requires forall i :: 0 <= i < |xs| ==> (p(xs[i]) <==> key(xs[i]) != k)
    ensures Find(Filter(xs, p), key, k) == None
    decreases |xs|
  {
    if xs != [] {
      FindFilterOut(xs[1..], key, p, k);
    }
  }

  lemma {:induction false} FindFilterKeep<T(!new), K>(xs: seq<T>, key: T -> K, p: T -> bool, k: K)
    requires forall i :: 0 <= i < |xs| ==> (key(xs[i]) == k ==> p(xs[i]))
    ensures Find(Filter(xs, p), key, k) == Find(xs, key, k)
    decreases |xs|
  {
    if xs != [] {
      FindFilterKeep(xs[1..], key, p, k);
    }
  }

  lemma {:induction false} UniqueFilter<T(!new), K>(xs: seq<T>, key: T -> K, p: T -> bool)
    requires Unique(xs, key)
    ensures Unique(Filter(xs, p), key)
    decreases |xs|
  {
    if xs != [] {
      assert Unique(xs[1..], key) by {
        forall i, j | 0 <= i < j < |xs[1..]|
          ensures key(xs[1..][i]) != key(xs[1..][j])
        {
          assert xs[1..][i] == xs[i + 1] && xs[1..][j] == xs[j + 1];
        }
      }
      UniqueFilter(xs[1..], key, p);
      var rest := Filter(xs[1..], p);
      if p(xs[0]) {
        var r := [xs[0]] + rest;
        forall i, j | 0 <= i < j < |r|
          ensures key(r[i]) != key(r[j])
        {
          if i == 0 {
            assert r[j] == rest[j - 1];
            assert rest[j - 1] in xs[1..];
            var m :| 0 <= m < |xs[1..]| && xs[1..][m] == rest[j - 1];
            assert xs[m + 1] == r[j];
          } else {
            assert r[i] == rest[i - 1] && r[j] == rest[j - 1];
          }
        }
      }
    }
  }

  /** After the cascade the calendar is gone and no event or share refers to it. */
  lemma DeleteCalendarRemoves(db: Db, id: Uuid)
    ensures var db' := DeleteCalendar(db, id);
      && GetCalendar(db', id).None?
      && (forall e :: e in db'.events ==> e.calendarId != id)
      && (forall s :: s in db'.shares ==> s.calendarId != id)
  {
    var db' := DeleteCalendar(db, id);
    FindFilterOut(db.calendars, CalendarKey, (c: Calendar) => c.id != id, id);
  }

  /** The cascade leaves every other calendar where it was. */
  lemma DeleteCalendarKeeps(db: Db, id: Uuid, other: Uuid)
    requires other != id
    ensures GetCalendar(DeleteCalendar(db, id), other) == GetCalendar(db, other)
  {
    FindFilterKeep(db.calendars, CalendarKey, (c: Calendar) => c.id != id, other);
  }

  /** The cascade is what keeps the store well formed: no event or share is left naming the deleted calendar. */
  lemma DeleteCalendarWellFormed(db: Db, id: Uuid)
    requires WellFormed(db)
    ensures WellFormed(DeleteCalendar(db, id))
  {
    var db' := DeleteCalendar(db, id);
    UniqueFilter(db.calendars, CalendarKey, (c: Calendar) => c.id != id);
    UniqueFilter(db.events, EventKey, (e: Event) => e.calendarId != id);
    UniqueFilter(db.shares, ShareKey, (s: Share) => s.calendarId != id);
    forall e | e in db'.events
      ensures GetCalendar(db', e.calendarId).Some?
    {
      DeleteCalendarKeeps(db, id, e.calendarId);
    }
    forall s | s in db'.shares
      ensures GetCalendar(db', s.calendarId).Some?
    {
      DeleteCalendarKeeps(db, id, s.calendarId);
    }
  }

  /** Deleting an event removes exactly that event and keeps the store well formed. */
  lemma DeleteEventEffect(db: Db, id: Uuid, other: Uuid)
    requires WellFormed(db) && other != id
    ensures var db' := DeleteEvent(db, id);
      && GetEvent(db', id).None? && GetEvent(db', other) == GetEvent(db, other)
      && db'.calendars == db.calendars && db'.shares == db.shares
      && WellFormed(db')
  {
    var keep := (e: Event) => e.id != id;
    FindFilterOut(db.events, EventKey, keep, id);
    FindFilterKeep(db.events, EventKey, keep, other);
    UniqueFilter(db.events, EventKey, keep);
  }

  /** Deleting a share removes exactly that share and keeps the store well formed. */
  lemma DeleteShareEffect(db: Db, id: Uuid, other: Uuid)
    requires WellFormed(db) && other != id
    ensures var db' := DeleteShare(db, id);
      && GetShare(db', id).None? && GetShare(db', other) == GetShare(db, other)
      && db'.calendars == db.calendars && db'.events == db.events
      && WellFormed(db')
  {
    var keep := (s: Share) => s.id != id;
    FindFilterOut(db.shares, ShareKey, keep, id);
    FindFilterKeep(db.shares, ShareKey, keep, other);
    UniqueFilter(db.shares, ShareKey, keep);
  }
}
