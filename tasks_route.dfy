/** The tasks endpoint: a user's tasks are one array under `tasks:<email>`. */
module TasksRoute {
  import opened Wrappers
  import opened Types
  import opened Http
  import opened Store

  const TaskPrefix: string := "tasks:"

  /** `getTaskKey`. */
  function TaskKey(email: string): (r: string)
    ensures |r| == |TaskPrefix| + |email| && r[..|TaskPrefix|] == TaskPrefix
    ensures r[|TaskPrefix|..] == email
  {
    TaskPrefix + email
  }

  /** Different users have different task keys. */
  lemma TaskKeyInjective(a: string, b: string)
    requires TaskKey(a) == TaskKey(b)
    ensures a == b
  {
    assert a == TaskKey(a)[|TaskPrefix|..];
  }

  /** `(await redis.get(taskKey)) || []`. */
  function StoredTasks(db: Redis, email: string): (r: seq<Task>)
    reads db
    ensures db.GetTasks(TaskKey(email)).None? ==> r == []
    ensures db.GetTasks(TaskKey(email)).Some? ==> r == db.GetTasks(TaskKey(email)).value
  {
    db.GetTasks(TaskKey(email)).GetOr([])
  }

  predicate DistinctIds(ts: seq<Task>) {
    forall i, j :: 0 <= i < j < |ts| ==> ts[i].id != ts[j].id
  }

  /** No task in `ts` has the id `id`: what a freshly generated id is expected to be. */
  predicate FreshFor(ts: seq<Task>, id: string) {
    forall i :: 0 <= i < |ts| ==> ts[i].id != id
  }

  /** Appending a task whose id is new keeps the ids distinct. */
  lemma AppendFreshKeepsDistinct(ts: seq<Task>, t: Task)
    requires DistinctIds(ts) && FreshFor(ts, t.id)
    ensures DistinctIds(ts + [t])
  {
  }

  /** The fields of a POST body. */
  datatype TaskBody = TaskBody(name: Option<string>, projectId: Option<string>, clientId: Option<string>)

  const NameRequired: string := "Task name is required"

  /** A task as created: owned by the email, not running, with the body's links. */
  function NewTask(body: TaskBody, freshId: string, email: string): (r: Task)
    requires Truthy(body.name)
    ensures r.id == freshId && r.name == body.name.value && r.userId == email && !r.isRunning
    ensures r.projectId == body.projectId && r.clientId == body.clientId
  {
    Task(freshId, body.name.value, body.projectId, body.clientId, email, false)
  }

  /** `GET`: 401 without an email; otherwise the stored tasks, or none. */
  method Get(db: Redis, session: Session) returns (resp: Response<seq<Task>>)
    ensures !SignedIn(session) ==> resp == Denied()
    ensures SignedIn(session) ==> resp == Ok(200, StoredTasks(db, session.email.value))
  {
    if !SignedIn(session) {
      return Denied();
    }
    var tasks := db.GetTasks(TaskKey(session.email.value));
    resp := Ok(200, tasks.GetOr([]));
  }

  /**
   * `POST`: 401 without an email, 400 without a name, and otherwise 201 with a new stopped
   * task appended after the stored ones. Nothing is written unless the task is created.
   */
  method Post(db: Redis, session: Session, body: TaskBody, freshId: string) returns (resp: Response<Task>)
    modifies db
    ensures !SignedIn(session) ==> resp == Denied() && db.data == old(db.data)
    ensures SignedIn(session) && !Truthy(body.name) ==>
              resp == Fail(400, NameRequired) && db.data == old(db.data)
    ensures SignedIn(session) && Truthy(body.name) ==>
              resp == Ok(201, NewTask(body, freshId, session.email.value))
              && db.data == old(db.data)[TaskKey(session.email.value) :=
                   TaskList(old(StoredTasks(db, session.email.value)) + [resp.value])]
    ensures resp.Ok? ==>
              StoredTasks(db, session.email.value) == old(StoredTasks(db, session.email.value)) + [resp.value]
    ensures resp.Ok? && DistinctIds(old(StoredTasks(db, session.email.value)))
            && FreshFor(old(StoredTasks(db, session.email.value)), freshId) ==>
              DistinctIds(StoredTasks(db, session.email.value))
  {
    if !SignedIn(session) {
      return Denied();
    }
    if !Truthy(body.name) {
      return Fail(400, NameRequired);
    }
    var key := TaskKey(session.email.value);
    var t := NewTask(body, freshId, session.email.value);
    var tasks := db.GetTasks(key).GetOr([]);
    if DistinctIds(tasks) && FreshFor(tasks, freshId) {
      AppendFreshKeepsDistinct(tasks, t);
    }
    tasks := tasks + [t];
    db.Set(key, TaskList(tasks));
    resp := Ok(201, t);
  }

  /** A created task is then listed last by a GET, stopped and owned by the email. */
  method CreateThenList(initial: seq<Task>, session: Session, body: TaskBody, freshId: string)
    returns (created: Response<Task>, listed: Response<seq<Task>>)
    requires SignedIn(session) && Truthy(body.name)
    ensures created.Ok? && created.status == 201
    ensures listed == Ok(200, initial + [created.value])
    ensures !created.value.isRunning && created.value.userId == session.email.value
  {
    var db := new Redis(map[TaskKey(session.email.value) := TaskList(initial)]);
    created := Post(db, session, body, freshId);
    listed := Get(db, session);
  }

  /** Creating a task under a fresh id, over stored tasks with distinct ids, keeps the ids distinct. */
  method CreateKeepsIdsDistinct(initial: seq<Task>, session: Session, body: TaskBody, freshId: string)
    returns (created: Response<Task>, listed: Response<seq<Task>>)
    requires SignedIn(session) && Truthy(body.name)
    requires DistinctIds(initial) && FreshFor(initial, freshId)
    ensures created.Ok? && created.value.id == freshId
    ensures listed.Ok? && listed.value == initial + [created.value] && DistinctIds(listed.value)
  {
    var db := new Redis(map[TaskKey(session.email.value) := TaskList(initial)]);
    created := Post(db, session, body, freshId);
    listed := Get(db, session);
  }
}
