/**
 * The task hook's optimistic update of the cached task list and the rule that decides when an
 * update is written to the cache and when it is sent to the server. The cache entry for the
 * tasks query is a field of `TaskCache`; the update mutations it issues are recorded in order.
 */
module UseTasks {
  import opened Wrappers
  import opened Types

  /**
   * A `Partial<Task> & { id: string }`. An absent key is `None`; `projectId` and `clientId`
   * may be present yet `undefined`, hence `Some(None)`. `hasTimeSpent` records whether the
   * patch carries a `timeSpent` key (a field the `Task` record does not have).
   */
  datatype TaskPatch = TaskPatch(
    id: string,
    name: Option<string>,
    projectId: Option<Option<string>>,
    clientId: Option<Option<string>>,
    userId: Option<string>,
    isRunning: Option<bool>,
    hasTimeSpent: bool)

  /** `{ ...t, ...patch }`: every key present in the patch wins, every other field is kept. */
  function Merge(t: Task, p: TaskPatch): (r: Task)
    ensures r.id == p.id
    ensures p.name.Some? ==> r.name == p.name.value
    ensures p.projectId.Some? ==> r.projectId == p.projectId.value
    ensures p.clientId.Some? ==> r.clientId == p.clientId.value
    ensures p.userId.Some? ==> r.userId == p.userId.value
    ensures p.isRunning.Some? ==> r.isRunning == p.isRunning.value
    ensures p.name.None? ==> r.name == t.name
    ensures p.projectId.None? ==> r.projectId == t.projectId
    ensures p.clientId.None? ==> r.clientId == t.clientId
    ensures p.userId.None? ==> r.userId == t.userId
    ensures p.isRunning.None? ==> r.isRunning == t.isRunning
  {
    Task(p.id,
         p.name.GetOr(t.name),
         p.projectId.GetOr(t.projectId),
         p.clientId.GetOr(t.clientId),
         p.userId.GetOr(t.userId),
         p.isRunning.GetOr(t.isRunning))
  }

  /** The patch that carries every field of `u`, as the timer reports a toggled task. */
  function FullPatch(u: Task): TaskPatch {
    TaskPatch(u.id, Some(u.name), Some(u.projectId), Some(u.clientId), Some(u.userId), Some(u.isRunning), false)
  }

  /** The patch that carries nothing but an id. */
  function EmptyPatch(id: string): TaskPatch {
    TaskPatch(id, None, None, None, None, None, false)
  }

  /** A full patch overwrites every field: merging it yields exactly the reported task. */
  lemma MergeFull(t: Task, u: Task)
    ensures Merge(t, FullPatch(u)) == u
  {
  }

  /** A patch with only the task's own id changes nothing. */
  lemma MergeEmpty(t: Task)
    ensures Merge(t, EmptyPatch(t.id)) == t
  {
  }

  /** Merging the same patch twice is merging it once. */
  lemma MergeIdempotent(t: Task, p: TaskPatch)
    ensures Merge(Merge(t, p), p) == Merge(t, p)
  {
  }

  /**
   * `optimisticUpdateTask`'s updater: no cached list becomes the empty list; otherwise the
   * list keeps its length and order, the task with the patch's id takes the patch and every
   * other task is left as it is.
   */
  function ApplyPatch(cached: Option<seq<Task>>, p: TaskPatch): (r: seq<Task>)
    ensures cached.None? ==> r == []
    ensures cached.Some? ==> |r| == |cached.value|
    ensures cached.Some? ==> forall i :: 0 <= i < |r| ==>
              r[i].id == cached.value[i].id
              && (cached.value[i].id != p.id ==> r[i] == cached.value[i])
              && (cached.value[i].id == p.id ==> r[i] == Merge(cached.value[i], p))
  {
    match cached
    case None => []
    case Some(ts) =>
      seq(|ts|, i requires 0 <= i < |ts| => if ts[i].id == p.id then Merge(ts[i], p) else ts[i])
  }

  /** Applying the same patch twice equals applying it once. */
  lemma ApplyPatchIdempotent(cached: Option<seq<Task>>, p: TaskPatch)
    ensures ApplyPatch(Some(ApplyPatch(cached, p)), p) == ApplyPatch(cached, p)
  {
    var once := ApplyPatch(cached, p);
    var twice := ApplyPatch(Some(once), p);
    forall i | 0 <= i < |once|
      ensures twice[i] == once[i]
    {
      if once[i].id == p.id {
        MergeIdempotent(cached.value[i], p);
      }
    }
  }

  /** A patch for an id nobody has leaves the list unchanged. */
  lemma ApplyPatchUnknownId(ts: seq<Task>, p: TaskPatch)
    requires forall i :: 0 <= i < |ts| ==> ts[i].id != p.id
    ensures ApplyPatch(Some(ts), p) == ts
  {
  }

  /** The cache entry of the tasks query and the update requests sent to the server. */
  class TaskCache {
    var tasks: Option<seq<Task>>
    var serverWrites: seq<TaskPatch>

    constructor (initial: Option<seq<Task>>)
      ensures tasks == initial && serverWrites == []
    {
      tasks := initial;
      serverWrites := [];
    }

    /** `optimisticUpdateTask`: the cached list is replaced by the patched one. */
    method OptimisticUpdate(p: TaskPatch)
      modifies this
      ensures tasks == Some(ApplyPatch(old(tasks), p))
      ensures serverWrites == old(serverWrites)
    {
      tasks := Some(ApplyPatch(tasks, p));
    }

    /**
     * `handleUpdateTask`: the cache is patched exactly when the patch carries `isRunning`;
     * the patch is sent to the server exactly when it stops the timer or carries no
     * `timeSpent`.
     */
    method HandleUpdateTask(p: TaskPatch)
      modifies this
      ensures p.isRunning.Some? ==> tasks == Some(ApplyPatch(old(tasks), p))
      ensures p.isRunning.None? ==> tasks == old(tasks)
      ensures p.isRunning == Some(false) || !p.hasTimeSpent ==> serverWrites == old(serverWrites) + [p]
      ensures !(p.isRunning == Some(false) || !p.hasTimeSpent) ==> serverWrites == old(serverWrites)
    {
      if p.isRunning.Some? {
        OptimisticUpdate(p);
      }
      if p.isRunning == Some(false) || !p.hasTimeSpent {
        serverWrites := serverWrites + [p];
      }
    }
  }

  /**
   * A task the timer reports after a toggle is both shown at once and sent to the server:
   * the cached copy becomes exactly the reported task.
   */
  method ReportToggledTask(ts: seq<Task>, k: nat, u: Task) returns (cached: Option<seq<Task>>, sent: seq<TaskPatch>)
    requires k < |ts| && ts[k].id == u.id
    ensures cached.Some? && |cached.value| == |ts| && cached.value[k] == u
    ensures sent == [FullPatch(u)]
  {
    var cache := new TaskCache(Some(ts));
    cache.HandleUpdateTask(FullPatch(u));
    MergeFull(ts[k], u);
    cached, sent := cache.tasks, cache.serverWrites;
  }

  /** A running-time update (a `timeSpent` without `isRunning`) touches neither the cache nor the server. */
  method TimeOnlyUpdate(initial: Option<seq<Task>>, id: string) returns (cached: Option<seq<Task>>, sent: seq<TaskPatch>)
    ensures cached == initial && sent == []
  {
    var cache := new TaskCache(initial);
    cache.HandleUpdateTask(TaskPatch(id, None, None, None, None, None, true));
    cached, sent := cache.tasks, cache.serverWrites;
  }
}
