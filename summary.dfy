/**
 * The summary panel's aggregation: time entries filtered through their task by the selected
 * client and project, totals overall, per project and per client, the chart slices, and the
 * `Hh Mm` rendering of a number of seconds.
 */
module Summary {
  import opened Wrappers
  import opened Types
  import Seqs
  import Decimal
  import TaskAreaChart

  /** The selector value that matches every client or every project. */
  const AllSelected := "all"

  const SecondsPerHour := 3600

  // ---------------------------------------------------------------------------------------
  // Resolving an entry's task, project and client

  function HasId(id: string): Task -> bool {
    (t: Task) => t.id == id
  }

  function FindTask(tasks: seq<Task>, id: string): Option<Task> {
    Seqs.Find(tasks, HasId(id))
  }

  function ProjectHasId(id: string): Project -> bool {
    (p: Project) => p.id == id
  }

  /** `tasks.find(t => t.id === entry.taskId)?.projectId` */
  function ProjectIdOf(tasks: seq<Task>, e: TimeEntry): Option<string> {
    match FindTask(tasks, e.taskId)
    case Some(t) => t.projectId
    case None => None
  }

  /** `tasks.find(t => t.id === entry.taskId)?.clientId` */
  function ClientIdOf(tasks: seq<Task>, e: TimeEntry): Option<string> {
    match FindTask(tasks, e.taskId)
    case Some(t) => t.clientId
    case None => None
  }

  /** `projects.find(p => p.id === task?.projectId)`: no project when the task or its projectId is missing. */
  function ResolveProject(tasks: seq<Task>, projects: seq<Project>, e: TimeEntry): Option<Project> {
    match ProjectIdOf(tasks, e)
    case Some(pid) => Seqs.Find(projects, ProjectHasId(pid))
    case None => None
  }

  // ---------------------------------------------------------------------------------------
  // filteredTimeEntries

  /** The filter callback: the task must exist, and match the selected client and project. */
  predicate Selected(tasks: seq<Task>, clientSel: string, projectSel: string, e: TimeEntry) {
    match FindTask(tasks, e.taskId)
    case None => false
    case Some(t) =>
      (clientSel == AllSelected || t.clientId == Some(clientSel))
      && (projectSel == AllSelected || t.projectId == Some(projectSel))
  }

  function SelectedBy(tasks: seq<Task>, clientSel: string, projectSel: string): TimeEntry -> bool {
    (e: TimeEntry) => Selected(tasks, clientSel, projectSel, e)
  }

  /**
   * `timeEntries?.filter(...)`: undefined while the entries are not loaded; otherwise the
   * entries whose task exists and matches both selectors, in their order, each as often as
   * it occurs in the input.
   */
  function FilteredEntries(entries: Option<seq<TimeEntry>>, tasks: seq<Task>, clientSel: string, projectSel: string)
    : (r: Option<seq<TimeEntry>>)
    ensures r.None? <==> entries.None?
    ensures r.Some? ==> |r.value| <= |entries.value|
    ensures r.Some? ==> forall i :: 0 <= i < |r.value| ==>
      r.value[i] in entries.value && FindTask(tasks, r.value[i].taskId).Some?
    ensures r.Some? ==> forall e :: e in r.value <==> e in entries.value && Selected(tasks, clientSel, projectSel, e)
    ensures r.Some? ==> Seqs.Subseq(r.value, entries.value)
    ensures r.Some? ==> forall e {:trigger multiset(entries.value)[e]} ::
              multiset(r.value)[e] == if Selected(tasks, clientSel, projectSel, e) then multiset(entries.value)[e] else 0
  {
    match entries
    case None => None
    case Some(es) =>
      var f := SelectedBy(tasks, clientSel, projectSel);
      Seqs.FilterIsSubseq(es, f);
      Seqs.FilterCounts(es, f);
      Some(Seqs.Filter(es, f))
  }

  function TaskExists(tasks: seq<Task>): TimeEntry -> bool {
    (e: TimeEntry) => FindTask(tasks, e.taskId).Some?
  }

  /**
   * With both selectors on "all", the filtered entries are an order-preserving subsequence
   * holding every occurrence of each entry whose task exists, and nothing else.
   */
  lemma AllAllKeepsResolvable(es: seq<TimeEntry>, tasks: seq<Task>)
    ensures FilteredEntries(Some(es), tasks, AllSelected, AllSelected) == Some(Seqs.Filter(es, TaskExists(tasks)))
    ensures Seqs.Subseq(Seqs.Filter(es, TaskExists(tasks)), es)
    ensures forall e {:trigger multiset(es)[e]} ::
              multiset(Seqs.Filter(es, TaskExists(tasks)))[e]
              == if FindTask(tasks, e.taskId).Some? then multiset(es)[e] else 0
  {
    Seqs.FilterCongruent(es, SelectedBy(tasks, AllSelected, AllSelected), TaskExists(tasks));
    Seqs.FilterIsSubseq(es, TaskExists(tasks));
    Seqs.FilterCounts(es, TaskExists(tasks));
  }

  // ---------------------------------------------------------------------------------------
  // Sums of durations

  /** `entries.reduce((acc, entry) => acc + (entry.duration || 0), 0)` */
  function TotalDuration(es: seq<TimeEntry>): int {
    if es == [] then 0 else TotalDuration(es[..|es| - 1]) + es[|es| - 1].duration
  }

  lemma {:induction false} TotalDurationAppend(a: seq<TimeEntry>, b: seq<TimeEntry>)
    ensures TotalDuration(a + b) == TotalDuration(a) + TotalDuration(b)
  {
    if b != [] {
      assert (a + b)[..|a + b| - 1] == a + b[..|b| - 1];
      TotalDurationAppend(a, b[..|b| - 1]);
    } else {
      assert a + b == a;
    }
  }

  lemma {:induction false} TotalDurationCons(e: TimeEntry, es: seq<TimeEntry>)
    ensures TotalDuration([e] + es) == e.duration + TotalDuration(es)
  {
    TotalDurationAppend([e], es);
    assert [e][..0] == [];
  }

  predicate NonNegative(es: seq<TimeEntry>) {
    forall i :: 0 <= i < |es| ==> es[i].duration >= 0
  }

  /** Durations that are all non-negative have a non-negative total. */
  lemma {:induction false} NonNegativeTotal(es: seq<TimeEntry>)
    requires NonNegative(es)
    ensures TotalDuration(es) >= 0
  {
    if es != [] {
      NonNegativeTotal(es[..|es| - 1]);
    }
  }

  /** The summary's headline total: 0 while the entries are not loaded. */
  function TotalTime(filtered: Option<seq<TimeEntry>>): (r: int)
    ensures filtered.None? || filtered.value == [] ==> r == 0
  {
    match filtered
    case None => 0
    case Some(es) => TotalDuration(es)
  }

  /** One step of `Filter` seen from the front of the list. */
  lemma FilterFront(es: seq<TimeEntry>, f: TimeEntry -> bool)
    requires es != []
    ensures Seqs.Filter(es, f) == if f(es[0]) then [es[0]] + Seqs.Filter(es[1..], f) else Seqs.Filter(es[1..], f)
  {
  }

  /** The total of a filter, from the front: the first entry counts when it passes. */
  lemma FilteredTotalFront(es: seq<TimeEntry>, f: TimeEntry -> bool)
    requires es != []
    ensures TotalDuration(Seqs.Filter(es, f))
            == (if f(es[0]) then es[0].duration else 0) + TotalDuration(Seqs.Filter(es[1..], f))
  {
    FilterFront(es, f);
    if f(es[0]) {
      TotalDurationCons(es[0], Seqs.Filter(es[1..], f));
    }
  }

  /** Dropping entries of non-negative duration never increases the total. */
  lemma {:induction false} FilteredTotalAtMost(es: seq<TimeEntry>, f: TimeEntry -> bool)
    requires NonNegative(es)
    ensures 0 <= TotalDuration(Seqs.Filter(es, f)) <= TotalDuration(es)
  {
    if es != [] {
      var x, rest := es[0], es[1..];
      assert NonNegative(rest);
      FilteredTotalAtMost(rest, f);
      FilteredTotalFront(es, f);
      assert es == [x] + rest;
      TotalDurationCons(x, rest);
      assert TotalDuration(es) == x.duration + TotalDuration(rest);
      assert x.duration >= 0;
    }
  }

  /** Filtering by the disjunction of two disjoint conditions adds their totals. */
  lemma {:induction false} FilterSplitTotal(es: seq<TimeEntry>, f: TimeEntry -> bool, g: TimeEntry -> bool, h: TimeEntry -> bool)
    requires forall i :: 0 <= i < |es| ==> h(es[i]) == (f(es[i]) || g(es[i])) && !(f(es[i]) && g(es[i]))
    ensures TotalDuration(Seqs.Filter(es, h)) == TotalDuration(Seqs.Filter(es, f)) + TotalDuration(Seqs.Filter(es, g))
  {
    if es != [] {
      FilterSplitTotal(es[1..], f, g, h);
      FilteredTotalFront(es, f);
      FilteredTotalFront(es, g);
      FilteredTotalFront(es, h);
    }
  }

  // ---------------------------------------------------------------------------------------
  // projectSummaries and clientSummaries

  datatype ProjectSummary = ProjectSummary(project: Project, totalTime: int, earnings: real)

  datatype ClientSummary = ClientSummary(client: Client, totalTime: int, earnings: real)

  function InProject(tasks: seq<Task>, pid: string): TimeEntry -> bool {
    (e: TimeEntry) => ProjectIdOf(tasks, e) == Some(pid)
  }

  function InClient(tasks: seq<Task>, cid: string): TimeEntry -> bool {
    (e: TimeEntry) => ClientIdOf(tasks, e) == Some(cid)
  }

  /** `filteredTimeEntries?.filter(...) || []` for one project. */
  function ProjectEntries(filtered: Option<seq<TimeEntry>>, tasks: seq<Task>, pid: string): seq<TimeEntry> {
    match filtered
    case None => []
    case Some(es) => Seqs.Filter(es, InProject(tasks, pid))
  }

  function ClientEntries(filtered: Option<seq<TimeEntry>>, tasks: seq<Task>, cid: string): seq<TimeEntry> {
    match filtered
    case None => []
    case Some(es) => Seqs.Filter(es, InClient(tasks, cid))
  }

  /** `(totalTime / 3600) * project.hourlyRate`, in exact arithmetic. */
  function ProjectEarnings(seconds: int, rate: real): real {
    (seconds as real / SecondsPerHour as real) * rate
  }

  /** A non-negative time at a non-negative rate earns nothing negative. */
  lemma EarningsNonNegative(seconds: int, rate: real)
    requires seconds >= 0 && rate >= 0.0
    ensures ProjectEarnings(seconds, rate) >= 0.0
  {
    var hours := seconds as real / SecondsPerHour as real;
    assert hours >= 0.0;
  }

  function SummarizeProject(p: Project, tasks: seq<Task>, filtered: Option<seq<TimeEntry>>): ProjectSummary {
    var t := TotalDuration(ProjectEntries(filtered, tasks, p.id));
    ProjectSummary(p, t, ProjectEarnings(t, p.hourlyRate))
  }

  /** `projects.map(...)`: one summary per project, in the order of `projects`. */
  function ProjectSummaries(projects: seq<Project>, tasks: seq<Task>, filtered: Option<seq<TimeEntry>>)
    : (r: seq<ProjectSummary>)
    ensures |r| == |projects|
    ensures forall i :: 0 <= i < |r| ==>
              r[i].project == projects[i]
              && r[i].totalTime == TotalDuration(ProjectEntries(filtered, tasks, projects[i].id))
              && r[i].earnings == ProjectEarnings(r[i].totalTime, projects[i].hourlyRate)
  {
    if projects == [] then
      []
    else
      ProjectSummaries(projects[..|projects| - 1], tasks, filtered)
        + [SummarizeProject(projects[|projects| - 1], tasks, filtered)]
  }

  /** The earnings of one entry: nothing when its task has no resolvable project. */
  function EntryEarnings(tasks: seq<Task>, projects: seq<Project>, e: TimeEntry): (r: real)
    ensures ResolveProject(tasks, projects, e).None? ==> r == 0.0
    ensures ResolveProject(tasks, projects, e).Some? ==>
      r == ProjectEarnings(e.duration, ResolveProject(tasks, projects, e).value.hourlyRate)
  {
    match ResolveProject(tasks, projects, e)
    case None => 0.0
    case Some(p) => ProjectEarnings(e.duration, p.hourlyRate)
  }

  /** No project has a negative hourly rate. */
  predicate NonNegativeRates(projects: seq<Project>) {
    forall i :: 0 <= i < |projects| ==> projects[i].hourlyRate >= 0.0
  }

  /** `clientEntries.reduce((acc, entry) => acc + (entry.duration / 3600) * (project?.hourlyRate || 0), 0)` */
  function EntriesEarnings(tasks: seq<Task>, projects: seq<Project>, es: seq<TimeEntry>): real {
    if es == [] then 0.0
    else EntriesEarnings(tasks, projects, es[..|es| - 1]) + EntryEarnings(tasks, projects, es[|es| - 1])
  }

  /** The client earnings are never negative when no duration and no rate is. */
  lemma {:induction false} EntriesEarningsNonNegative(tasks: seq<Task>, projects: seq<Project>, es: seq<TimeEntry>)
    requires NonNegative(es) && NonNegativeRates(projects)
    ensures EntriesEarnings(tasks, projects, es) >= 0.0
  {
    if es != [] {
      assert NonNegative(es[..|es| - 1]);
      EntriesEarningsNonNegative(tasks, projects, es[..|es| - 1]);
      EntryEarningsNonNegative(tasks, projects, es[|es| - 1]);
    }
  }

  /** A resolved project is one of `projects`, so it has a non-negative rate when they all do. */
  lemma ResolvedRate(tasks: seq<Task>, projects: seq<Project>, e: TimeEntry)
    ensures NonNegativeRates(projects) && ResolveProject(tasks, projects, e).Some? ==>
              ResolveProject(tasks, projects, e).value.hourlyRate >= 0.0
  {
    if ResolveProject(tasks, projects, e).Some? {
      var pid := ProjectIdOf(tasks, e).value;
      var i :| 0 <= i < |projects| && projects[i] == ResolveProject(tasks, projects, e).value
               && ProjectHasId(pid)(projects[i]);
    }
  }

  /** One entry earns nothing negative when its duration and every rate are non-negative. */
  lemma EntryEarningsNonNegative(tasks: seq<Task>, projects: seq<Project>, e: TimeEntry)
    ensures e.duration >= 0 && NonNegativeRates(projects) ==> EntryEarnings(tasks, projects, e) >= 0.0
  {
    ResolvedRate(tasks, projects, e);
    if e.duration >= 0 && NonNegativeRates(projects) && ResolveProject(tasks, projects, e).Some? {
      EarningsNonNegative(e.duration, ResolveProject(tasks, projects, e).value.hourlyRate);
    }
  }

  function SummarizeClient(c: Client, tasks: seq<Task>, projects: seq<Project>, filtered: Option<seq<TimeEntry>>)
    : ClientSummary
  {
    var es := ClientEntries(filtered, tasks, c.id);
    ClientSummary(c, TotalDuration(es), EntriesEarnings(tasks, projects, es))
  }

  /** `clients.map(...)`: one summary per client, in the order of `clients`. */
  function ClientSummaries(clients: seq<Client>, tasks: seq<Task>, projects: seq<Project>, filtered: Option<seq<TimeEntry>>)
    : (r: seq<ClientSummary>)
    ensures |r| == |clients|
    ensures forall i :: 0 <= i < |r| ==>
              r[i].client == clients[i]
              && r[i].totalTime == TotalDuration(ClientEntries(filtered, tasks, clients[i].id))
              && r[i].earnings == EntriesEarnings(tasks, projects, ClientEntries(filtered, tasks, clients[i].id))
  {
    if clients == [] then
      []
    else
      ClientSummaries(clients[..|clients| - 1], tasks, projects, filtered)
        + [SummarizeClient(clients[|clients| - 1], tasks, projects, filtered)]
  }

  /** `projectSummaries.reduce((acc, project) => acc + project.earnings, 0)`: never negative when no summand is. */
  function TotalEarnings(summaries: seq<ProjectSummary>): (r: real)
    ensures (forall i :: 0 <= i < |summaries| ==> summaries[i].earnings >= 0.0) ==> r >= 0.0
  {
    if summaries == [] then 0.0
    else
      var n := |summaries| - 1;
      assert forall i :: 0 <= i < n ==> summaries[..n][i] == summaries[i];
      TotalEarnings(summaries[..n]) + summaries[n].earnings
  }

  function SummaryTime(): ProjectSummary -> int {
    (s: ProjectSummary) => s.totalTime
  }

  /** The per-project totals, added up. */
  function SummedProjectTimes(summaries: seq<ProjectSummary>): int {
    Seqs.Sum(summaries, SummaryTime())
  }

  // ---------------------------------------------------------------------------------------
  // Properties of the summaries

  predicate DistinctProjectIds(projects: seq<Project>) {
    forall i, j :: 0 <= i < j < |projects| ==> projects[i].id != projects[j].id
  }

  /** The entry's task names a project that is in `projects`. */
  function HasProjectIn(tasks: seq<Task>, projects: seq<Project>): TimeEntry -> bool {
    (e: TimeEntry) => ResolveProject(tasks, projects, e).Some?
  }

  /**
   * With one project selected, every filtered entry belongs to it, so that project's
   * summary carries the whole headline total.
   */
  lemma SelectedProjectCarriesTotal(es: seq<TimeEntry>, tasks: seq<Task>, projects: seq<Project>,
                                    clientSel: string, projectSel: string, k: nat)
    requires projectSel != AllSelected
    requires k < |projects| && projects[k].id == projectSel
    ensures var filtered := FilteredEntries(Some(es), tasks, clientSel, projectSel);
            ProjectSummaries(projects, tasks, filtered)[k].totalTime == TotalTime(filtered)
  {
    var fs := Seqs.Filter(es, SelectedBy(tasks, clientSel, projectSel));
    forall i | 0 <= i < |fs|
      ensures InProject(tasks, projectSel)(fs[i])
    {
      assert Selected(tasks, clientSel, projectSel, fs[i]);
    }
    Seqs.FilterAll(fs, InProject(tasks, projectSel));
  }

  /** Resolving against `projects + [p]` falls back to `p` only when `projects` has no match. */
  lemma ResolveExtend(tasks: seq<Task>, projects: seq<Project>, p: Project, e: TimeEntry)
    requires DistinctProjectIds(projects + [p])
    ensures ResolveProject(tasks, projects + [p], e)
            == if InProject(tasks, p.id)(e) then Some(p) else ResolveProject(tasks, projects, e)
  {
    match ProjectIdOf(tasks, e)
    case None =>
    case Some(pid) =>
      Seqs.FindAppend(projects, p, ProjectHasId(pid));
      var old_ := Seqs.Find(projects, ProjectHasId(pid));
      if old_.Some? {
        var i :| 0 <= i < |projects| && projects[i] == old_.value && ProjectHasId(pid)(old_.value);
        assert (projects + [p])[i] == projects[i] && (projects + [p])[|projects|] == p;
      }
  }

  /** With distinct ids, an entry resolves against `projects + [p]` iff it resolves against one of the parts, never both. */
  lemma HasProjectInExtend(tasks: seq<Task>, rest: seq<Project>, p: Project, e: TimeEntry)
    requires DistinctProjectIds(rest + [p])
    ensures HasProjectIn(tasks, rest + [p])(e)
            == (HasProjectIn(tasks, rest)(e) || InProject(tasks, p.id)(e))
    ensures !(HasProjectIn(tasks, rest)(e) && InProject(tasks, p.id)(e))
  {
    ResolveExtend(tasks, rest, p, e);
    var r := ResolveProject(tasks, rest, e);
    if r.Some? && InProject(tasks, p.id)(e) {
      var pid := ProjectIdOf(tasks, e).value;
      var j :| 0 <= j < |rest| && rest[j] == r.value && ProjectHasId(pid)(r.value);
      DistinctFromLast(rest, p, j);
      assert false;
    }
  }

  lemma DistinctFromLast(rest: seq<Project>, p: Project, j: nat)
    requires DistinctProjectIds(rest + [p]) && j < |rest|
    ensures rest[j].id != p.id
  {
    assert (rest + [p])[j] == rest[j] && (rest + [p])[|rest|] == p;
  }

  /**
   * With distinct project ids, the per-project totals add up to exactly the time of the
   * entries whose task's project is one of `projects`.
   */
  lemma SummedProjectTimesLast(rest: seq<Project>, p: Project, tasks: seq<Task>, es: seq<TimeEntry>)
    ensures SummedProjectTimes(ProjectSummaries(rest + [p], tasks, Some(es)))
            == SummedProjectTimes(ProjectSummaries(rest, tasks, Some(es)))
               + TotalDuration(Seqs.Filter(es, InProject(tasks, p.id)))
  {
    var sums := ProjectSummaries(rest + [p], tasks, Some(es));
    assert (rest + [p])[..|rest|] == rest;
    assert sums == ProjectSummaries(rest, tasks, Some(es)) + [sums[|rest|]];
    Seqs.SumAppend(ProjectSummaries(rest, tasks, Some(es)), sums[|rest|], SummaryTime());
  }

  lemma {:induction false} ProjectTimesPartition(projects: seq<Project>, tasks: seq<Task>, es: seq<TimeEntry>)
    requires DistinctProjectIds(projects)
    ensures SummedProjectTimes(ProjectSummaries(projects, tasks, Some(es)))
            == TotalDuration(Seqs.Filter(es, HasProjectIn(tasks, projects)))
  {
    if projects == [] {
      Seqs.FilterNone(es, HasProjectIn(tasks, projects));
    } else {
      var n := |projects| - 1;
      var rest, p := projects[..n], projects[n];
      assert projects == rest + [p];
      assert DistinctProjectIds(rest);
      ProjectTimesPartition(rest, tasks, es);
      SummedProjectTimesLast(rest, p, tasks, es);
      SplitOnLast(tasks, rest, p, es);
    }
  }

  /** The entries of `rest + [p]` are those of `rest` and, apart from them, those of `p`. */
  lemma SplitOnLast(tasks: seq<Task>, rest: seq<Project>, p: Project, es: seq<TimeEntry>)
    requires DistinctProjectIds(rest + [p])
    ensures TotalDuration(Seqs.Filter(es, HasProjectIn(tasks, rest + [p])))
            == TotalDuration(Seqs.Filter(es, HasProjectIn(tasks, rest)))
               + TotalDuration(Seqs.Filter(es, InProject(tasks, p.id)))
  {
    forall i | 0 <= i < |es|
      ensures HasProjectIn(tasks, rest + [p])(es[i])
              == (HasProjectIn(tasks, rest)(es[i]) || InProject(tasks, p.id)(es[i]))
              && !(HasProjectIn(tasks, rest)(es[i]) && InProject(tasks, p.id)(es[i]))
    {
      HasProjectInExtend(tasks, rest, p, es[i]);
    }
    FilterSplitTotal(es, HasProjectIn(tasks, rest), InProject(tasks, p.id), HasProjectIn(tasks, rest + [p]));
  }

  /** Hence, for non-negative durations, the per-project totals never exceed the headline total. */
  lemma ProjectTimesAtMostTotal(projects: seq<Project>, tasks: seq<Task>, es: seq<TimeEntry>)
    requires DistinctProjectIds(projects) && NonNegative(es)
    ensures SummedProjectTimes(ProjectSummaries(projects, tasks, Some(es))) <= TotalTime(Some(es))
  {
    ProjectTimesPartition(projects, tasks, es);
    FilteredTotalAtMost(es, HasProjectIn(tasks, projects));
  }

  // ---------------------------------------------------------------------------------------
  // Earnings

  lemma ProjectEarningsAdd(a: int, b: int, rate: real)
    ensures ProjectEarnings(a + b, rate) == ProjectEarnings(a, rate) + ProjectEarnings(b, rate)
  {
    assert (a + b) as real / 3600.0 == a as real / 3600.0 + b as real / 3600.0;
  }

  lemma EntriesEarningsLast(tasks: seq<Task>, projects: seq<Project>, es: seq<TimeEntry>, x: TimeEntry)
    ensures EntriesEarnings(tasks, projects, es + [x])
            == EntriesEarnings(tasks, projects, es) + EntryEarnings(tasks, projects, x)
  {
    assert (es + [x])[..|es|] == es;
  }

  lemma FilteredTotalLast(es: seq<TimeEntry>, x: TimeEntry, f: TimeEntry -> bool)
    ensures TotalDuration(Seqs.Filter(es + [x], f))
            == TotalDuration(Seqs.Filter(es, f)) + (if f(x) then x.duration else 0)
  {
    Seqs.FilterAppend(es, [x], f);
    TotalDurationAppend(Seqs.Filter(es, f), Seqs.Filter([x], f));
    assert [x][1..] == [];
    assert TotalDuration([x]) == TotalDuration([x][..0]) + x.duration;
  }

  lemma {:induction false} EarningsWithoutProjects(tasks: seq<Task>, es: seq<TimeEntry>)
    ensures EntriesEarnings(tasks, [], es) == 0.0
  {
    if es != [] {
      EarningsWithoutProjects(tasks, es[..|es| - 1]);
    }
  }

  /** One entry's earnings after adding a project with a new id. */
  lemma EntryEarningsExtend(tasks: seq<Task>, rest: seq<Project>, p: Project, x: TimeEntry)
    requires DistinctProjectIds(rest + [p])
    ensures EntryEarnings(tasks, rest + [p], x)
            == EntryEarnings(tasks, rest, x)
               + (if InProject(tasks, p.id)(x) then EntryEarnings(tasks, [p], x) else 0.0)
  {
    ResolveExtend(tasks, rest, p, x);
    ResolveExtend(tasks, [], p, x);
    assert [] + [p] == [p];
    HasProjectInExtend(tasks, rest, p, x);
  }

  /** Adding a project with a new id adds the earnings of its own entries at its rate. */
  lemma {:induction false} EarningsExtend(tasks: seq<Task>, rest: seq<Project>, p: Project, es: seq<TimeEntry>)
    requires DistinctProjectIds(rest + [p])
    ensures EntriesEarnings(tasks, rest + [p], es)
            == EntriesEarnings(tasks, rest, es) + EntriesEarnings(tasks, [p], Seqs.Filter(es, InProject(tasks, p.id)))
  {
    if es != [] {
      var n := |es| - 1;
      var es0, x := es[..n], es[n];
      assert es == es0 + [x];
      EarningsExtend(tasks, rest, p, es0);
      EarningsExtendStep(tasks, rest, p, es0, x);
    }
  }

  lemma EarningsExtendStep(tasks: seq<Task>, rest: seq<Project>, p: Project, es0: seq<TimeEntry>, x: TimeEntry)
    requires DistinctProjectIds(rest + [p])
    requires EntriesEarnings(tasks, rest + [p], es0)
             == EntriesEarnings(tasks, rest, es0) + EntriesEarnings(tasks, [p], Seqs.Filter(es0, InProject(tasks, p.id)))
    ensures EntriesEarnings(tasks, rest + [p], es0 + [x])
            == EntriesEarnings(tasks, rest, es0 + [x]) + EntriesEarnings(tasks, [p], Seqs.Filter(es0 + [x], InProject(tasks, p.id)))
  {
    var f := InProject(tasks, p.id);
    EntriesEarningsLast(tasks, rest + [p], es0, x);
    EntriesEarningsLast(tasks, rest, es0, x);
    EntryEarningsExtend(tasks, rest, p, x);
    Seqs.FilterLast(es0, x, f);
    if f(x) {
      EntriesEarningsLast(tasks, [p], Seqs.Filter(es0, f), x);
    }
  }

  /** Entries of one project, earned one by one at its rate, earn what their total time earns. */
  lemma {:induction false} OneProjectEarnings(tasks: seq<Task>, p: Project, ys: seq<TimeEntry>)
    requires forall i :: 0 <= i < |ys| ==> InProject(tasks, p.id)(ys[i])
    ensures EntriesEarnings(tasks, [p], ys) == ProjectEarnings(TotalDuration(ys), p.hourlyRate)
  {
    if ys == [] {
      assert ProjectEarnings(0, p.hourlyRate) == 0.0;
    } else {
      var n := |ys| - 1;
      var ys0, y := ys[..n], ys[n];
      assert forall i :: 0 <= i < n ==> ys0[i] == ys[i];
      OneProjectEarnings(tasks, p, ys0);
      OwnEntryEarnings(tasks, p, y);
      assert EntriesEarnings(tasks, [p], ys) == EntriesEarnings(tasks, [p], ys0) + EntryEarnings(tasks, [p], y);
      assert TotalDuration(ys) == TotalDuration(ys0) + y.duration;
      ProjectEarningsAdd(TotalDuration(ys0), y.duration, p.hourlyRate);
    }
  }

  /** An entry of `p` earns at `p`'s rate. */
  lemma OwnEntryEarnings(tasks: seq<Task>, p: Project, y: TimeEntry)
    requires InProject(tasks, p.id)(y)
    ensures EntryEarnings(tasks, [p], y) == ProjectEarnings(y.duration, p.hourlyRate)
  {
    ResolveExtend(tasks, [], p, y);
    assert [] + [p] == [p];
  }

  /**
   * With distinct project ids, the headline earnings (a sum over projects) equal the sum of
   * every filtered entry's own earnings at its project's rate, the way client earnings are
   * computed.
   */
  lemma {:induction false} TotalEarningsByEntry(projects: seq<Project>, tasks: seq<Task>, es: seq<TimeEntry>)
    requires DistinctProjectIds(projects)
    ensures TotalEarnings(ProjectSummaries(projects, tasks, Some(es))) == EntriesEarnings(tasks, projects, es)
  {
    if projects == [] {
      EarningsWithoutProjects(tasks, es);
    } else {
      var n := |projects| - 1;
      var rest, p := projects[..n], projects[n];
      assert projects == rest + [p];
      assert DistinctProjectIds(rest);
      TotalEarningsByEntry(rest, tasks, es);
      var sums := ProjectSummaries(projects, tasks, Some(es));
      assert sums[..|sums| - 1] == ProjectSummaries(rest, tasks, Some(es));
      EarningsExtend(tasks, rest, p, es);
      OneProjectEarnings(tasks, p, Seqs.Filter(es, InProject(tasks, p.id)));
    }
  }

  /** Entries whose task has no resolvable project contribute nothing to a sum of entry earnings. */
  lemma {:induction false} UnresolvedEarnNothing(tasks: seq<Task>, projects: seq<Project>, es: seq<TimeEntry>)
    ensures EntriesEarnings(tasks, projects, es)
            == EntriesEarnings(tasks, projects, Seqs.Filter(es, HasProjectIn(tasks, projects)))
  {
    if es != [] {
      var n := |es| - 1;
      var es0, x := es[..n], es[n];
      assert es == es0 + [x];
      UnresolvedEarnNothing(tasks, projects, es0);
      UnresolvedStep(tasks, projects, es0, x);
    }
  }

  lemma UnresolvedStep(tasks: seq<Task>, projects: seq<Project>, es0: seq<TimeEntry>, x: TimeEntry)
    requires EntriesEarnings(tasks, projects, es0)
             == EntriesEarnings(tasks, projects, Seqs.Filter(es0, HasProjectIn(tasks, projects)))
    ensures EntriesEarnings(tasks, projects, es0 + [x])
            == EntriesEarnings(tasks, projects, Seqs.Filter(es0 + [x], HasProjectIn(tasks, projects)))
  {
    var f := HasProjectIn(tasks, projects);
    Seqs.FilterLast(es0, x, f);
    EntriesEarningsLast(tasks, projects, es0, x);
    if f(x) {
      EntriesEarningsLast(tasks, projects, Seqs.Filter(es0, f), x);
    }
  }

  /** A client's earnings count only its entries whose project resolves. */
  lemma ClientEarningsOnlyFromProjects(clients: seq<Client>, tasks: seq<Task>, projects: seq<Project>,
                                       filtered: Option<seq<TimeEntry>>, k: nat)
    requires k < |clients|
    ensures ClientSummaries(clients, tasks, projects, filtered)[k].earnings
            == EntriesEarnings(tasks, projects,
                 Seqs.Filter(ClientEntries(filtered, tasks, clients[k].id), HasProjectIn(tasks, projects)))
  {
    UnresolvedEarnNothing(tasks, projects, ClientEntries(filtered, tasks, clients[k].id));
  }

  // ---------------------------------------------------------------------------------------
  // formatTime

  /** JavaScript's `a % b` for `b > 0`: the remainder takes the sign of the dividend. */
  function JsRem(a: int, b: int): (r: int)
    requires b > 0
    ensures a >= 0 ==> 0 <= r < b
    ensures a < 0 ==> -b < r <= 0
  {
    if a >= 0 then a % b else -((-a) % b)
  }

  datatype Clock = Clock(hours: int, minutes: int)

  /** `Math.floor(seconds / 3600)` and `Math.floor((seconds % 3600) / 60)`. */
  function HoursMinutes(seconds: int): (r: Clock)
    ensures seconds >= 0 ==> r.hours >= 0 && 0 <= r.minutes < 60
    ensures seconds >= 0 ==> r.hours * 60 + r.minutes == seconds / 60
    ensures seconds >= 0 ==> r.hours * 3600 + r.minutes * 60 <= seconds < r.hours * 3600 + r.minutes * 60 + 60
    ensures seconds < 0 ==> r.hours < 0 && -60 <= r.minutes <= 0
  {
    var h := seconds / SecondsPerHour;
    var m := JsRem(seconds, SecondsPerHour) / 60;
    if seconds >= 0 then
      assert JsRem(seconds, SecondsPerHour) == seconds - h * 3600;
      Clock(h, m)
    else
      Clock(h, m)
  }

  /**
   * `${hours}h ${minutes}m`: a non-negative duration is written without any sign, a negative
   * one starts with `-`.
   */
  function FormatTime(seconds: int): (r: string)
    ensures |r| > 0 && r[|r| - 1] == 'm'
    ensures seconds >= 0 ==> forall i :: 0 <= i < |r| ==> r[i] != '-'
    ensures seconds < 0 ==> r[0] == '-'
  {
    var c := HoursMinutes(seconds);
    var hs, ms := Decimal.IntToString(c.hours), Decimal.IntToString(c.minutes);
    var r := hs + "h " + ms + "m";
    assert forall i :: 0 <= i < |hs| ==> r[i] == hs[i];
    assert forall i :: 0 <= i < |ms| ==> r[|hs| + 2 + i] == ms[i];
    r
  }

  /** The rendering can be read back: the text before the first `h` and after it. */
  lemma SplitRendering(a: string, b: string, c: string, d: string)
    requires forall i :: 0 <= i < |a| ==> a[i] != 'h'
    requires forall i :: 0 <= i < |c| ==> c[i] != 'h'
    requires a + "h " + b + "m" == c + "h " + d + "m"
    ensures a == c && b == d
  {
    var l := a + "h " + b + "m";
    var l' := c + "h " + d + "m";
    assert l[|a|] == 'h' && l'[|c|] == 'h';
    assert forall i :: 0 <= i < |a| ==> l[i] == a[i];
    assert forall i :: 0 <= i < |c| ==> l'[i] == c[i];
    assert |a| == |c|;
    assert a == l[..|a|] && c == l'[..|c|];
    assert b == l[|a| + 2..|l| - 1] && d == l'[|c| + 2..|l'| - 1];
  }

  /** Two durations render alike exactly when they have the same hours and minutes. */
  lemma FormatTimeInjective(x: int, y: int)
    ensures FormatTime(x) == FormatTime(y) <==> HoursMinutes(x) == HoursMinutes(y)
  {
    var cx, cy := HoursMinutes(x), HoursMinutes(y);
    if FormatTime(x) == FormatTime(y) {
      var hx, hy := Decimal.IntToString(cx.hours), Decimal.IntToString(cy.hours);
      assert forall i :: 0 <= i < |hx| ==> hx[i] != 'h';
      assert forall i :: 0 <= i < |hy| ==> hy[i] != 'h';
      SplitRendering(hx, Decimal.IntToString(cx.minutes), hy, Decimal.IntToString(cy.minutes));
      Decimal.IntToStringInjective(cx.hours, cy.hours);
      Decimal.IntToStringInjective(cx.minutes, cy.minutes);
    }
  }

  /** For non-negative durations the rendering loses exactly the seconds below a minute. */
  lemma FormatTimeWholeMinutes(x: int, y: int)
    requires x >= 0 && y >= 0
    ensures FormatTime(x) == FormatTime(y) <==> x / 60 == y / 60
  {
    FormatTimeInjective(x, y);
    var cx, cy := HoursMinutes(x), HoursMinutes(y);
    if x / 60 == y / 60 {
      assert cx.hours == cy.hours && cx.minutes == cy.minutes by {
        MinutesDetermineClock(cx.hours, cx.minutes, cy.hours, cy.minutes);
      }
    }
  }

  lemma MinutesDetermineClock(h: int, m: int, h': int, m': int)
    requires 0 <= m < 60 && 0 <= m' < 60 && h * 60 + m == h' * 60 + m'
    ensures h == h' && m == m'
  {
  }

  // ---------------------------------------------------------------------------------------
  // pieData and barData

  datatype PieSlice = PieSlice(name: string, value: int, earnings: real, formattedTime: string)

  datatype BarItem = BarItem(name: string, time: real, earnings: real)

  function PieSliceOf(s: ProjectSummary): PieSlice {
    PieSlice(s.project.name, s.totalTime, s.earnings, FormatTime(s.totalTime))
  }

  function BarItemOf(s: ClientSummary): BarItem {
    BarItem(s.client.name, s.totalTime as real / SecondsPerHour as real, s.earnings)
  }

  /** The slice of some summary with time on it. */
  predicate SliceOfBusy(summaries: seq<ProjectSummary>, sl: PieSlice) {
    exists j :: 0 <= j < |summaries| && summaries[j].totalTime > 0 && PieSliceOf(summaries[j]) == sl
  }

  /** The bar of some summary with time on it. */
  predicate BarOfBusy(summaries: seq<ClientSummary>, b: BarItem) {
    exists j :: 0 <= j < |summaries| && summaries[j].totalTime > 0 && BarItemOf(summaries[j]) == b
  }

  function HasTime(): ProjectSummary -> bool {
    (s: ProjectSummary) => s.totalTime > 0
  }

  function ClientHasTime(): ClientSummary -> bool {
    (s: ClientSummary) => s.totalTime > 0
  }

  function PieSlices(summaries: seq<ProjectSummary>): (r: seq<PieSlice>)
    ensures |r| == |summaries|
    ensures forall i :: 0 <= i < |r| ==> r[i] == PieSliceOf(summaries[i])
  {
    seq(|summaries|, i requires 0 <= i < |summaries| => PieSliceOf(summaries[i]))
  }

  function BarItems(summaries: seq<ClientSummary>): (r: seq<BarItem>)
    ensures |r| == |summaries|
    ensures forall i :: 0 <= i < |r| ==> r[i] == BarItemOf(summaries[i])
  {
    seq(|summaries|, i requires 0 <= i < |summaries| => BarItemOf(summaries[i]))
  }

  lemma PieSlicesSound(summaries: seq<ProjectSummary>)
    ensures forall i :: 0 <= i < |PieSlices(Seqs.Filter(summaries, HasTime()))| ==>
              PieSlices(Seqs.Filter(summaries, HasTime()))[i].value > 0
              && SliceOfBusy(summaries, PieSlices(Seqs.Filter(summaries, HasTime()))[i])
  {
    var kept := Seqs.Filter(summaries, HasTime());
    var r := PieSlices(kept);
    forall i | 0 <= i < |r|
      ensures r[i].value > 0 && SliceOfBusy(summaries, r[i])
    {
      assert kept[i] in summaries && HasTime()(kept[i]);
      var j :| 0 <= j < |summaries| && summaries[j] == kept[i];
    }
  }

  lemma PieSlicesComplete(summaries: seq<ProjectSummary>)
    ensures forall j :: 0 <= j < |summaries| && summaries[j].totalTime > 0 ==>
              PieSliceOf(summaries[j]) in PieSlices(Seqs.Filter(summaries, HasTime()))
  {
    var kept := Seqs.Filter(summaries, HasTime());
    var r := PieSlices(kept);
    forall j | 0 <= j < |summaries| && summaries[j].totalTime > 0
      ensures PieSliceOf(summaries[j]) in r
    {
      assert HasTime()(summaries[j]);
      var k :| 0 <= k < |kept| && kept[k] == summaries[j];
      assert r[k] == PieSliceOf(summaries[j]);
    }
  }

  /**
   * `projectSummaries.filter((p) => p.totalTime > 0).map(...)`: a slice for every summary
   * with time on it and for nothing else, in the summaries' order.
   */
  function PieData(summaries: seq<ProjectSummary>): (r: seq<PieSlice>)
    ensures forall i :: 0 <= i < |r| ==> r[i].value > 0 && SliceOfBusy(summaries, r[i])
    ensures forall j :: 0 <= j < |summaries| && summaries[j].totalTime > 0 ==> PieSliceOf(summaries[j]) in r
    ensures |r| == |Seqs.Filter(summaries, HasTime())|
    ensures forall i :: 0 <= i < |r| ==> r[i] == PieSliceOf(Seqs.Filter(summaries, HasTime())[i])
  {
    PieSlicesSound(summaries);
    PieSlicesComplete(summaries);
    PieSlices(Seqs.Filter(summaries, HasTime()))
  }

  lemma BarItemsSound(summaries: seq<ClientSummary>)
    ensures forall i :: 0 <= i < |BarItems(Seqs.Filter(summaries, ClientHasTime()))| ==>
              BarItems(Seqs.Filter(summaries, ClientHasTime()))[i].time > 0.0
              && BarOfBusy(summaries, BarItems(Seqs.Filter(summaries, ClientHasTime()))[i])
  {
    var kept := Seqs.Filter(summaries, ClientHasTime());
    var r := BarItems(kept);
    forall i | 0 <= i < |r|
      ensures r[i].time > 0.0 && BarOfBusy(summaries, r[i])
    {
      assert kept[i] in summaries && ClientHasTime()(kept[i]);
      var j :| 0 <= j < |summaries| && summaries[j] == kept[i];
    }
  }

  lemma BarItemsComplete(summaries: seq<ClientSummary>)
    ensures forall j :: 0 <= j < |summaries| && summaries[j].totalTime > 0 ==>
              BarItemOf(summaries[j]) in BarItems(Seqs.Filter(summaries, ClientHasTime()))
  {
    var kept := Seqs.Filter(summaries, ClientHasTime());
    var r := BarItems(kept);
    forall j | 0 <= j < |summaries| && summaries[j].totalTime > 0
      ensures BarItemOf(summaries[j]) in r
    {
      assert ClientHasTime()(summaries[j]);
      var k :| 0 <= k < |kept| && kept[k] == summaries[j];
      assert r[k] == BarItemOf(summaries[j]);
    }
  }

  /**
   * `clientSummaries.filter((c) => c.totalTime > 0).map(...)`: a bar, in hours, for every
   * summary with time on it and for nothing else, in the summaries' order.
   */
  function BarData(summaries: seq<ClientSummary>): (r: seq<BarItem>)
    ensures forall i :: 0 <= i < |r| ==> r[i].time > 0.0 && BarOfBusy(summaries, r[i])
    ensures forall j :: 0 <= j < |summaries| && summaries[j].totalTime > 0 ==> BarItemOf(summaries[j]) in r
    ensures |r| == |Seqs.Filter(summaries, ClientHasTime())|
    ensures forall i :: 0 <= i < |r| ==> r[i] == BarItemOf(Seqs.Filter(summaries, ClientHasTime())[i])
  {
    BarItemsSound(summaries);
    BarItemsComplete(summaries);
    BarItems(Seqs.Filter(summaries, ClientHasTime()))
  }

  /**
   * The summaries the pie is drawn from: those with time on them, in their order, each as
   * often as it occurs.
   */
  lemma BusyProjects(summaries: seq<ProjectSummary>)
    ensures Seqs.Subseq(Seqs.Filter(summaries, HasTime()), summaries)
    ensures forall s {:trigger multiset(summaries)[s]} ::
              multiset(Seqs.Filter(summaries, HasTime()))[s] == if s.totalTime > 0 then multiset(summaries)[s] else 0
  {
    Seqs.FilterIsSubseq(summaries, HasTime());
    Seqs.FilterCounts(summaries, HasTime());
  }

  /** The summaries the bars are drawn from: likewise those with time on them, in order. */
  lemma BusyClients(summaries: seq<ClientSummary>)
    ensures Seqs.Subseq(Seqs.Filter(summaries, ClientHasTime()), summaries)
    ensures forall s {:trigger multiset(summaries)[s]} ::
              multiset(Seqs.Filter(summaries, ClientHasTime()))[s] == if s.totalTime > 0 then multiset(summaries)[s] else 0
  {
    Seqs.FilterIsSubseq(summaries, ClientHasTime());
    Seqs.FilterCounts(summaries, ClientHasTime());
  }

  function SliceValue(): PieSlice -> int {
    (sl: PieSlice) => sl.value
  }

  lemma {:induction false} SlicesTotal(xs: seq<ProjectSummary>)
    ensures Seqs.Sum(PieSlices(xs), SliceValue()) == Seqs.Sum(xs, SummaryTime())
  {
    if xs != [] {
      SlicesTotal(xs[1..]);
      assert PieSlices(xs)[1..] == PieSlices(xs[1..]);
    }
  }

  /** Dropping the idle projects loses no time: the pie adds up to the per-project totals. */
  lemma PieTotal(summaries: seq<ProjectSummary>)
    requires forall i :: 0 <= i < |summaries| ==> summaries[i].totalTime >= 0
    ensures Seqs.Sum(PieData(summaries), SliceValue()) == SummedProjectTimes(summaries)
  {
    SlicesTotal(Seqs.Filter(summaries, HasTime()));
    Seqs.SumFilterZero(summaries, HasTime(), SummaryTime());
  }

  /** The hours of the bars, added up. */
  function BarHours(bs: seq<BarItem>): real {
    if bs == [] then 0.0 else bs[0].time + BarHours(bs[1..])
  }

  function ClientTime(): ClientSummary -> int {
    (s: ClientSummary) => s.totalTime
  }

  /** The per-client totals, added up. */
  function SummedClientTimes(summaries: seq<ClientSummary>): int {
    Seqs.Sum(summaries, ClientTime())
  }

  lemma {:induction false} BarItemsHours(xs: seq<ClientSummary>)
    ensures BarHours(BarItems(xs)) == SummedClientTimes(xs) as real / SecondsPerHour as real
  {
    if xs != [] {
      BarItemsHours(xs[1..]);
      assert BarItems(xs)[1..] == BarItems(xs[1..]);
    }
  }

  /** Dropping the idle clients loses no time: the bars add up to the per-client totals, in hours. */
  lemma BarTotal(summaries: seq<ClientSummary>)
    requires forall i :: 0 <= i < |summaries| ==> summaries[i].totalTime >= 0
    ensures BarHours(BarData(summaries)) == SummedClientTimes(summaries) as real / SecondsPerHour as real
  {
    BarItemsHours(Seqs.Filter(summaries, ClientHasTime()));
    Seqs.SumFilterZero(summaries, ClientHasTime(), ClientTime());
  }

  // ---------------------------------------------------------------------------------------
  // areaChartData

  const UnknownProject := "Unknown"

  /** `project?.name || "Unknown"` */
  function ProjectLabel(tasks: seq<Task>, projects: seq<Project>, e: TimeEntry): (r: string)
    ensures r != ""
    ensures ResolveProject(tasks, projects, e).None? ==> r == UnknownProject
    ensures ResolveProject(tasks, projects, e).Some? && ResolveProject(tasks, projects, e).value.name != "" ==>
              r == ResolveProject(tasks, projects, e).value.name
  {
    match ResolveProject(tasks, projects, e)
    case Some(p) => if p.name != "" then p.name else UnknownProject
    case None => UnknownProject
  }

  function AreaRows(tasks: seq<Task>, projects: seq<Project>, es: seq<TimeEntry>): (r: seq<TaskAreaChart.ChartRow>)
    ensures |r| == |es|
    ensures forall i :: 0 <= i < |es| ==>
              r[i] == TaskAreaChart.ChartRow(es[i].date, ProjectLabel(tasks, projects, es[i]), es[i].duration)
  {
    if es == [] then []
    else
      var n := |es| - 1;
      var r0 := AreaRows(tasks, projects, es[..n]);
      assert forall i :: 0 <= i < n ==> es[..n][i] == es[i];
      r0 + [TaskAreaChart.ChartRow(es[n].date, ProjectLabel(tasks, projects, es[n]), es[n].duration)]
  }

  /** `filteredTimeEntries?.map(...) || []`: one chart row per filtered entry, in order. */
  function AreaChartData(filtered: Option<seq<TimeEntry>>, tasks: seq<Task>, projects: seq<Project>)
    : (r: seq<TaskAreaChart.ChartRow>)
    ensures filtered.None? ==> r == []
    ensures filtered.Some? ==> |r| == |filtered.value|
    ensures filtered.Some? ==> forall i :: 0 <= i < |r| ==>
              r[i] == TaskAreaChart.ChartRow(filtered.value[i].date, ProjectLabel(tasks, projects, filtered.value[i]),
                                             filtered.value[i].duration)
  {
    match filtered
    case None => []
    case Some(es) => AreaRows(tasks, projects, es)
  }

  /** The area chart carries exactly the headline total time. */
  lemma {:induction false} AreaChartTotal(filtered: Option<seq<TimeEntry>>, tasks: seq<Task>, projects: seq<Project>)
    ensures TaskAreaChart.Total(AreaChartData(filtered, tasks, projects)) == TotalTime(filtered)
  {
    if filtered.Some? {
      AreaRowsTotal(tasks, projects, filtered.value);
    }
  }

  lemma {:induction false} AreaRowsTotal(tasks: seq<Task>, projects: seq<Project>, es: seq<TimeEntry>)
    ensures TaskAreaChart.Total(AreaRows(tasks, projects, es)) == TotalDuration(es)
  {
    if es != [] {
      var n := |es| - 1;
      AreaRowsTotal(tasks, projects, es[..n]);
      var r := AreaRows(tasks, projects, es);
      assert r[..n] == AreaRows(tasks, projects, es[..n]);
    }
  }

  // ---------------------------------------------------------------------------------------
  // A worked example

  /**
   * Project P at 60 per hour, one task of P with no client, and two closed entries of 1800 s
   * and 3600 s: the total time is 5400 s and the total earnings are 90.
   */
  lemma WorkedExample()
    ensures var tasks := [Task("t", "T", Some("p"), None, "u", false)];
            var projects := [Project("p", "P", 60.0, "u")];
            var entries := [TimeEntry("e1", "t", "u", 0, Some(1800000), 1800, "2024-01-01"),
                            TimeEntry("e2", "t", "u", 1800000, Some(5400000), 3600, "2024-01-01")];
            var filtered := FilteredEntries(Some(entries), tasks, AllSelected, AllSelected);
            TotalTime(filtered) == 5400
            && TotalEarnings(ProjectSummaries(projects, tasks, filtered)) == 90.0
  {
    var tasks := [Task("t", "T", Some("p"), None, "u", false)];
    var projects := [Project("p", "P", 60.0, "u")];
    var e1 := TimeEntry("e1", "t", "u", 0, Some(1800000), 1800, "2024-01-01");
    var e2 := TimeEntry("e2", "t", "u", 1800000, Some(5400000), 3600, "2024-01-01");
    var entries := [e1, e2];
    assert FindTask(tasks, "t") == Some(tasks[0]);
    assert Seqs.Filter(entries, SelectedBy(tasks, AllSelected, AllSelected)) == entries by {
      Seqs.FilterAll(entries, SelectedBy(tasks, AllSelected, AllSelected));
    }
    assert TotalDuration(entries) == 5400 by {
      assert entries[..1] == [e1] && [e1][..0] == [];
      assert TotalDuration([e1]) == 1800;
    }
    var pe := ProjectEntries(Some(entries), tasks, "p");
    assert pe == entries by {
      Seqs.FilterAll(entries, InProject(tasks, "p"));
    }
    var sums := ProjectSummaries(projects, tasks, Some(entries));
    assert sums[0].totalTime == 5400;
    assert sums[0].earnings == 90.0;
    assert sums[..0] == [];
  }
}
