/**
 * The time-entries endpoint: GET picks one of the two store queries from the query string,
 * POST builds an entry from the request body and appends it to the user's list.
 */
module TimeEntriesRoute {
  import opened Wrappers
  import opened Types
  import opened Http
  import opened Store
  import Lex
  import Seqs
  import opened RedisUtils

  /** The `startDate`, `endDate` and `taskId` search parameters; a missing one is `None`. */
  datatype Query = Query(startDate: Option<string>, endDate: Option<string>, taskId: Option<string>)

  /** Which store query a GET runs. */
  datatype Selection = TaskFilter(taskId: string) | RangeFilter(startDate: string, endDate: string)

  /** The range used when no complete range is asked for. */
  const EarliestDay: string := "1970-01-01"
  const LatestDay: string := "2100-12-31"

  /**
   * A task id wins over any dates; a date range needs both bounds; anything else, including
   * a single bound, falls back to the fixed range.
   */
  function Select(q: Query): (r: Selection)
    ensures r.TaskFilter? <==> Truthy(q.taskId)
    ensures r.TaskFilter? ==> r.taskId == q.taskId.value
    ensures r.RangeFilter? && Truthy(q.startDate) && Truthy(q.endDate) ==>
              r == RangeFilter(q.startDate.value, q.endDate.value)
    ensures r.RangeFilter? && !(Truthy(q.startDate) && Truthy(q.endDate)) ==>
              r == RangeFilter(EarliestDay, LatestDay)
  {
    if Truthy(q.taskId) then TaskFilter(q.taskId.value)
    else if Truthy(q.startDate) && Truthy(q.endDate) then RangeFilter(q.startDate.value, q.endDate.value)
    else RangeFilter(EarliestDay, LatestDay)
  }

  /** With a task id, the dates in the query make no difference. */
  lemma TaskIdTakesPrecedence(q: Query, startDate: Option<string>, endDate: Option<string>)
    requires Truthy(q.taskId)
    ensures Select(q) == Select(Query(startDate, endDate, q.taskId)) == TaskFilter(q.taskId.value)
  {
  }

  /** A single date bound is ignored: the result is that of a query with no dates at all. */
  lemma SingleBoundIgnored(q: Query)
    requires !Truthy(q.taskId) && (!Truthy(q.startDate) || !Truthy(q.endDate))
    ensures Select(q) == Select(Query(None, None, None)) == RangeFilter(EarliestDay, LatestDay)
  {
  }

  /** The entries a selection yields for a user. */
  function Run(db: Redis, email: string, s: Selection): (r: seq<TimeEntry>)
    reads db
    ensures s.TaskFilter? ==> r == ByTask(db, email, s.taskId)
    ensures s.RangeFilter? ==> r == ByDateRange(db, email, s.startDate, s.endDate)
  {
    match s
    case TaskFilter(t) => ByTask(db, email, t)
    case RangeFilter(a, b) => ByDateRange(db, email, a, b)
  }

  /** The fallback range keeps every day written `YYYY-MM-DD` with a year from 1971 to 2099. */
  lemma DefaultRangeCoversYears(day: string)
    requires |day| >= 4 && Lex.Lt("1970", day[..4]) && Lex.Lt(day[..4], "2100")
    ensures Lex.Le(EarliestDay, day) && Lex.Le(day, LatestDay)
  {
    assert EarliestDay[..4] == "1970" && LatestDay[..4] == "2100";
    Lex.PrefixDecides(EarliestDay, day, 4);
    Lex.PrefixDecides(day, LatestDay, 4);
  }

  /** A string whose first `n` characters are strictly below `b`'s is not above `b`. */
  lemma BelowByPrefix(a: string, b: string, n: nat)
    requires n <= |a| && n <= |b| && Lex.Lt(a[..n], b[..n])
    ensures !Lex.Le(b, a)
  {
    Lex.PrefixDecides(a, b, n);
    if Lex.Le(b, a) {
      Lex.LeAntisymmetric(a, b);
    }
  }

  /** ... and drops every day of a year after 2100 or before 1970. */
  lemma DefaultRangeMissesOtherYears(day: string)
    requires |day| >= 4 && (Lex.Lt("2100", day[..4]) || Lex.Lt(day[..4], "1970"))
    ensures !(Lex.Le(EarliestDay, day) && Lex.Le(day, LatestDay))
  {
    assert EarliestDay[..4] == "1970" && LatestDay[..4] == "2100";
    if Lex.Lt("2100", day[..4]) {
      BelowByPrefix(LatestDay, day, 4);
    } else {
      BelowByPrefix(day, EarliestDay, 4);
    }
  }

  /** `GET`: 401 without a signed-in email; otherwise the selected entries. */
  method Get(db: Redis, session: Session, q: Query) returns (resp: Response<seq<TimeEntry>>)
    ensures !SignedIn(session) ==> resp == Denied()
    ensures SignedIn(session) ==> resp == Ok(200, Run(db, session.email.value, Select(q)))
  {
    if !SignedIn(session) {
      return Denied();
    }
    var email := session.email.value;
    if Truthy(q.taskId) {
      var entries := ByTask(db, email, q.taskId.value);
      return Ok(200, entries);
    }
    if Truthy(q.startDate) && Truthy(q.endDate) {
      var entries := ByDateRange(db, email, q.startDate.value, q.endDate.value);
      return Ok(200, entries);
    }
    var entries := ByDateRange(db, email, EarliestDay, LatestDay);
    resp := Ok(200, entries);
  }

  /**
   * The JSON body of a POST. `id` and `userId` are normally absent; `startTime` is `None`
   * when absent or not a parsable time.
   */
  datatype EntryBody = EntryBody(
    id: Option<string>,
    userId: Option<string>,
    taskId: string,
    startTime: Option<int>,
    endTime: Option<int>,
    duration: int)

  /** The largest distance from the epoch, in milliseconds, that a JavaScript `Date` can hold. */
  const MaxTime: int := 8_640_000_000_000_000

  /** `new Date(data.startTime).toISOString()` succeeds. */
  predicate ValidTime(t: Option<int>) {
    t.Some? && -MaxTime <= t.value <= MaxTime
  }

  /**
   * `{ id, userId: email, ...data, date }`: the body's own `id` and `userId` override the
   * generated ones; `date` is always the day of the start time.
   */
  function NewEntry(body: EntryBody, freshId: string, email: string, day: string): (r: TimeEntry)
    ensures r.id == (if body.id.Some? then body.id.value else freshId)
    ensures r.userId == (if body.userId.Some? then body.userId.value else email)
    ensures body.startTime.Some? ==> r.startTime == body.startTime.value
    ensures r.date == day
    ensures r.taskId == body.taskId && r.endTime == body.endTime && r.duration == body.duration
  {
    TimeEntry(body.id.GetOr(freshId), body.taskId, body.userId.GetOr(email),
              body.startTime.GetOr(0), body.endTime, body.duration, day)
  }

  const CreateFailed: string := "Failed to create time entry"

  /**
   * `POST`: 401 without a signed-in email, 500 when the start time cannot be turned into a
   * day, and otherwise the new entry, appended to the user's list. `freshId` stands for the
   * generated id and `dayOf` for the timestamp-to-day conversion.
   */
  method Post(db: Redis, session: Session, body: EntryBody, freshId: string, dayOf: int -> string)
    returns (resp: Response<TimeEntry>)
    modifies db
    ensures !SignedIn(session) ==> resp == Denied() && db.data == old(db.data)
    ensures SignedIn(session) && !ValidTime(body.startTime) ==>
              resp == Fail(500, CreateFailed) && db.data == old(db.data)
    ensures SignedIn(session) && ValidTime(body.startTime) ==>
              resp == Ok(200, NewEntry(body, freshId, session.email.value, dayOf(body.startTime.value)))
              && db.data == old(db.data)[TimeEntryKey(session.email.value) :=
                   EntryList(old(StoredEntries(db, session.email.value)) + [resp.value])]
  {
    if !SignedIn(session) {
      return Denied();
    }
    if !ValidTime(body.startTime) {
      return Fail(500, CreateFailed);
    }
    var email := session.email.value;
    var entry := NewEntry(body, freshId, email, dayOf(body.startTime.value));
    var stored := AddTimeEntry(db, email, entry);
    resp := Ok(200, entry);
  }

  /**
   * On an empty store, an entry posted for a task is then listed, alone, by a GET for that
   * task, and is among the entries a GET over its day lists.
   */
  method PostThenGet(session: Session, body: EntryBody, freshId: string, dayOf: int -> string)
    returns (posted: Response<TimeEntry>, byTask: Response<seq<TimeEntry>>, byDay: Response<seq<TimeEntry>>)
    requires SignedIn(session) && ValidTime(body.startTime) && body.taskId != ""
    requires dayOf(body.startTime.value) != ""
    ensures posted.Ok? && posted.value.taskId == body.taskId
    ensures byTask == Ok(200, [posted.value])
    ensures byDay.Ok? && posted.value in byDay.value
  {
    var db := new Redis(map[]);
    posted := Post(db, session, body, freshId, dayOf);
    var e := posted.value;
    assert StoredEntries(db, session.email.value) == [e];
    byTask := Get(db, session, Query(None, None, Some(body.taskId)));
    Seqs.FilterAll([e], ForTask(body.taskId));
    byDay := Get(db, session, Query(Some(e.date), Some(e.date), None));
    Lex.LeReflexive(e.date);
    assert e in StoredEntries(db, session.email.value);
  }
}
