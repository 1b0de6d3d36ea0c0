/** The time-entry store helpers: key builders, the two queries, and the append. */
module RedisUtils {
  import opened Wrappers
  import opened Types
  import Seqs
  import Lex
  import opened Store

  const EntriesPrefix: string := "timeEntries:"
  const TaskInfix: string := ":task:"

  /** `timeEntryKey`: the key holding all of a user's entries. */
  function TimeEntryKey(email: string): (r: string)
    ensures |r| == |EntriesPrefix| + |email| && r[..|EntriesPrefix|] == EntriesPrefix
    ensures r[|EntriesPrefix|..] == email
  {
    EntriesPrefix + email
  }

  /** Different users have different entry keys. */
  lemma TimeEntryKeyInjective(a: string, b: string)
    requires TimeEntryKey(a) == TimeEntryKey(b)
    ensures a == b
  {
    assert a == TimeEntryKey(a)[|EntriesPrefix|..];
  }

  /** `timeEntryTaskKey`: a per-task key under the user's entry key. */
  function TimeEntryTaskKey(email: string, taskId: string): (r: string)
    ensures |r| == |TimeEntryKey(email)| + |TaskInfix| + |taskId|
    ensures r[..|TimeEntryKey(email)|] == TimeEntryKey(email)
    ensures r[|r| - |taskId|..] == taskId
  {
    TimeEntryKey(email) + TaskInfix + taskId
  }

  predicate ColonFree(s: string) {
    forall i :: 0 <= i < |s| ==> s[i] != ':'
  }

  /** The character just before the task id is a colon, so a longer colon-free id cannot end the key. */
  lemma ColonBeforeTask(email: string, taskId: string, longer: string)
    ensures var k := TimeEntryTaskKey(email, taskId);
            k[|k| - |taskId| - 1] == ':'
            && (|taskId| < |longer| <= |k| && k[|k| - |longer|..] == longer ==> !ColonFree(longer))
  {
    var k := TimeEntryTaskKey(email, taskId);
    if |taskId| < |longer| <= |k| && k[|k| - |longer|..] == longer {
      assert longer[|longer| - |taskId| - 1] == k[|k| - |taskId| - 1];
    }
  }

  /** For task ids without a colon, the per-task key determines both the user and the task. */
  lemma TimeEntryTaskKeyInjective(e1: string, t1: string, e2: string, t2: string)
    requires ColonFree(t1) && ColonFree(t2)
    requires TimeEntryTaskKey(e1, t1) == TimeEntryTaskKey(e2, t2)
    ensures e1 == e2 && t1 == t2
  {
    var k := TimeEntryTaskKey(e1, t1);
    // Otherwise the infix's final colon would fall inside the longer task id.
    if |t1| < |t2| {
      ColonBeforeTask(e1, t1, t2);
      assert false;
    } else if |t2| < |t1| {
      ColonBeforeTask(e2, t2, t1);
      assert false;
    }
    assert t1 == k[|k| - |t1|..] == t2;
    assert TimeEntryKey(e1) == k[..|TimeEntryKey(e1)|] == TimeEntryKey(e2);
    TimeEntryKeyInjective(e1, e2);
  }

  /** Without that restriction two different (user, task) pairs can share a per-task key. */
  lemma TimeEntryTaskKeyCollision()
    ensures TimeEntryTaskKey("a:task:b", "c") == TimeEntryTaskKey("a", "b:task:c")
  {
  }

  /** A user's stored entries: `(await redis.get(timeEntryKey(email))) || []`. */
  function StoredEntries(db: Redis, email: string): (r: seq<TimeEntry>)
    reads db
    ensures db.GetEntries(TimeEntryKey(email)).None? ==> r == []
    ensures db.GetEntries(TimeEntryKey(email)).Some? ==> r == db.GetEntries(TimeEntryKey(email)).value
  {
    db.GetEntries(TimeEntryKey(email)).GetOr([])
  }

  /** `startDate <= entry.date <= endDate` in string order: both bounds are inclusive. */
  function InDateRange(startDate: string, endDate: string): TimeEntry -> bool {
    (e: TimeEntry) => Lex.Le(startDate, e.date) && Lex.Le(e.date, endDate)
  }

  function ForTask(taskId: string): TimeEntry -> bool {
    (e: TimeEntry) => e.taskId == taskId
  }

  /**
   * `getTimeEntriesByDateRange`: the stored entries dated within the range, in stored order.
   */
  function ByDateRange(db: Redis, email: string, startDate: string, endDate: string): (r: seq<TimeEntry>)
    reads db
    ensures forall i :: 0 <= i < |r| ==>
              r[i] in StoredEntries(db, email) && Lex.Le(startDate, r[i].date) && Lex.Le(r[i].date, endDate)
    ensures forall e :: e in StoredEntries(db, email) && Lex.Le(startDate, e.date) && Lex.Le(e.date, endDate) ==> e in r
  {
    Seqs.Filter(StoredEntries(db, email), InDateRange(startDate, endDate))
  }

  /** `getTimeEntriesByTask`: the stored entries of the task, in stored order. */
  function ByTask(db: Redis, email: string, taskId: string): (r: seq<TimeEntry>)
    reads db
    ensures forall i :: 0 <= i < |r| ==> r[i] in StoredEntries(db, email) && r[i].taskId == taskId
    ensures forall e :: e in StoredEntries(db, email) && e.taskId == taskId ==> e in r
  {
    Seqs.Filter(StoredEntries(db, email), ForTask(taskId))
  }

  /** Both queries keep the stored order: each result is a subsequence of the stored list. */
  lemma QueriesKeepOrder(db: Redis, email: string, startDate: string, endDate: string, taskId: string)
    ensures Seqs.Subseq(ByDateRange(db, email, startDate, endDate), StoredEntries(db, email))
    ensures Seqs.Subseq(ByTask(db, email, taskId), StoredEntries(db, email))
  {
    Seqs.FilterIsSubseq(StoredEntries(db, email), InDateRange(startDate, endDate));
    Seqs.FilterIsSubseq(StoredEntries(db, email), ForTask(taskId));
  }

  /** A reversed range selects nothing. */
  lemma ReversedRangeIsEmpty(db: Redis, email: string, startDate: string, endDate: string)
    requires Lex.Lt(endDate, startDate)
    ensures ByDateRange(db, email, startDate, endDate) == []
  {
    var r := ByDateRange(db, email, startDate, endDate);
    if r != [] {
      Lex.LeTransitive(startDate, r[0].date, endDate);
      Lex.LeAntisymmetric(startDate, endDate);
      assert false;
    }
  }

  /** A user with nothing stored gets nothing from either query. */
  lemma NothingStored(db: Redis, email: string, startDate: string, endDate: string, taskId: string)
    requires db.GetEntries(TimeEntryKey(email)).None?
    ensures ByDateRange(db, email, startDate, endDate) == [] && ByTask(db, email, taskId) == []
  {
  }

  /**
   * `addTimeEntry`: the user's list becomes the old list (or the empty one) with the entry
   * at its end; every other key is untouched; the entry is returned as given.
   */
  method AddTimeEntry(db: Redis, email: string, entry: TimeEntry) returns (r: TimeEntry)
    modifies db
    ensures db.data == old(db.data)[TimeEntryKey(email) := EntryList(old(StoredEntries(db, email)) + [entry])]
    ensures StoredEntries(db, email) == old(StoredEntries(db, email)) + [entry]
    ensures r == entry
  {
    var key := TimeEntryKey(email);
    var entries := StoredEntries(db, email);
    entries := entries + [entry];
    db.Set(key, EntryList(entries));
    r := entry;
  }
}
