/**
 * The "Tasks Over Time" chart: the distinct project names of the input rows, the chart
 * configuration giving each a colour, the grouping of `(date, project, duration)` rows into
 * one row per day holding one cell per project, sorted by day, and the day-over-day trend.
 *
 * A JavaScript object keeps its keys in insertion order; the grouped dictionary of days and
 * each day's dictionary of projects are modelled as lists in that order with distinct keys.
 */
module TaskAreaChart {
  import opened Wrappers
  import Seqs
  import Lex

  /** One input row: the day of a time entry, its project's name and its duration in seconds. */
  datatype ChartRow = ChartRow(date: string, project: string, duration: int)

  /** One project's seconds on one day. */
  datatype Cell = Cell(project: string, seconds: int)

  /** One output row: a day and its project cells, in order of first appearance. */
  datatype DayRow = DayRow(date: string, cells: seq<Cell>)

  /** A series entry of the chart configuration: its `label` (here `caption`) and colour. */
  datatype SeriesConfig = SeriesConfig(caption: string, color: Option<string>)

  const ChartColors: seq<string> :=
    ["hsl(var(--chart-1))", "hsl(var(--chart-2))", "hsl(var(--chart-3))",
     "hsl(var(--chart-4))", "hsl(var(--chart-5))"]

  /** The key of the configuration entry that is not a project. */
  const TasksKey := "tasks"

  // ---------------------------------------------------------------------------------------
  // Sums over the input

  /** The sum of all input durations. */
  function Total(data: seq<ChartRow>): int {
    if data == [] then 0 else Total(data[..|data| - 1]) + data[|data| - 1].duration
  }

  /** The sum of the durations of the input rows with day `d` and project `p`. */
  function CellSum(data: seq<ChartRow>, d: string, p: string): int {
    if data == [] then 0
    else
      var x := data[|data| - 1];
      CellSum(data[..|data| - 1], d, p) + (if x.date == d && x.project == p then x.duration else 0)
  }

  /** Some input row has day `d` and project `p`. */
  predicate Occurs(data: seq<ChartRow>, d: string, p: string) {
    exists i :: 0 <= i < |data| && data[i].date == d && data[i].project == p
  }

  lemma {:induction false} CellSumAbsent(data: seq<ChartRow>, d: string, p: string)
    requires !Occurs(data, d, p)
    ensures CellSum(data, d, p) == 0
  {
    if data != [] {
      var n := |data| - 1;
      forall i | 0 <= i < n
        ensures data[..n][i] == data[i]
      {
      }
      CellSumAbsent(data[..n], d, p);
    }
  }

  lemma OccursLast(data: seq<ChartRow>, x: ChartRow, d: string, p: string)
    ensures Occurs(data + [x], d, p) <==> Occurs(data, d, p) || (x.date == d && x.project == p)
  {
    if Occurs(data + [x], d, p) && !(x.date == d && x.project == p) {
      var i :| 0 <= i < |data| + 1 && (data + [x])[i].date == d && (data + [x])[i].project == p;
      assert i < |data| && data[i] == (data + [x])[i];
    }
    if Occurs(data, d, p) {
      var i :| 0 <= i < |data| && data[i].date == d && data[i].project == p;
      assert (data + [x])[i] == data[i];
    }
    if x.date == d && x.project == p {
      assert (data + [x])[|data|] == x;
    }
  }

  // ---------------------------------------------------------------------------------------
  // projects: `Array.from(new Set(data.map((item) => item.project)))`

  /** Some input row before position `i` has project `name`. */
  predicate NamedBefore(data: seq<ChartRow>, i: int, name: string) {
    exists t :: 0 <= t < i && t < |data| && data[t].project == name
  }

  /** The distinct project names, in order of first occurrence. */
  function Projects(data: seq<ChartRow>): (r: seq<string>)
    ensures Seqs.Distinct(r)
    ensures forall i :: 0 <= i < |data| ==> data[i].project in r
    ensures forall j :: 0 <= j < |r| ==> NamedBefore(data, |data|, r[j])
  {
    if data == [] then []
    else
      var n := |data| - 1;
      var r0 := Projects(data[..n]);
      assert forall i :: 0 <= i < n ==> data[i] == data[..n][i];
      assert forall j :: 0 <= j < |r0| ==> NamedBefore(data, |data|, r0[j]) by {
        forall j | 0 <= j < |r0|
          ensures NamedBefore(data, |data|, r0[j])
        {
          assert NamedBefore(data[..n], n, r0[j]);
          var t :| 0 <= t < n && data[..n][t].project == r0[j];
        }
      }
      if data[n].project in r0 then r0 else r0 + [data[n].project]
  }

  /** One more row adds its project at the end, unless it is already listed. */
  lemma ProjectsStep(data: seq<ChartRow>)
    requires data != []
    ensures Projects(data) == (if data[|data| - 1].project in Projects(data[..|data| - 1])
                               then Projects(data[..|data| - 1])
                               else Projects(data[..|data| - 1]) + [data[|data| - 1].project])
  {
  }

  /** Every row before the last has its project listed already. */
  lemma ListedBeforeLast(data: seq<ChartRow>, i: nat)
    ensures 0 < |data| && i < |data| - 1 ==> data[i].project in Projects(data[..|data| - 1])
  {
    if 0 < |data| && i < |data| - 1 {
      assert data[..|data| - 1][i] == data[i];
    }
  }

  /** An occurrence before `i0` in a prefix is an occurrence before any `i >= i0` in the whole. */
  lemma NamedBeforePrefix(data: seq<ChartRow>, n: nat, i0: nat, i: nat, name: string)
    requires n <= |data| && i0 <= i && NamedBefore(data[..n], i0, name)
    ensures NamedBefore(data, i, name)
  {
    var t :| 0 <= t < i0 && t < n && data[..n][t].project == name;
    assert data[t] == data[..n][t];
  }

  /**
   * The names come in order of first occurrence: every occurrence of a later name is
   * preceded by an occurrence of each earlier one.
   */
  lemma {:induction false} ProjectsFirstOccurrence(data: seq<ChartRow>, j: nat, k: nat, i: nat)
    requires j < k < |Projects(data)| && i < |data| && data[i].project == Projects(data)[k]
    ensures NamedBefore(data, i, Projects(data)[j])
  {
    var n := |data| - 1;
    var front := data[..n];
    var r0 := Projects(front);
    ProjectsStep(data);
    if k < |r0| {
      var i0 := i;
      if i == n {
        assert NamedBefore(front, n, r0[k]);
        var t :| 0 <= t < n && t < |front| && front[t].project == r0[k];
        i0 := t;
      } else {
        assert front[i] == data[i];
      }
      ProjectsFirstOccurrence(front, j, k, i0);
      NamedBeforePrefix(data, n, i0, i, r0[j]);
    } else {
      ListedBeforeLast(data, i);
      assert NamedBefore(front, n, r0[j]);
      NamedBeforePrefix(data, n, n, i, r0[j]);
    }
  }

  // ---------------------------------------------------------------------------------------
  // chartConfig

  /** `index % CHART_COLORS.length`: always a valid index into the palette. */
  function ColorIndex(index: nat): (r: nat)
    ensures r < |ChartColors|
    ensures r == index % 5
  {
    index % |ChartColors|
  }

  /** The colour a project gets when it last occurs at position `i`. */
  function ProjectSeries(project: string, i: nat): SeriesConfig {
    SeriesConfig(project, Some(ChartColors[ColorIndex(i)]))
  }

  /** No later position among the first `n` repeats the project at position `i`. */
  predicate LastWithin(projects: seq<string>, i: nat, n: nat)
    requires i < n <= |projects|
  {
    forall j :: i < j < n ==> projects[j] != projects[i]
  }

  /** The keys after the first `n` assignments: "tasks" and exactly those projects. */
  predicate KeysAfter(projects: seq<string>, n: nat, config: map<string, SeriesConfig>)
    requires n <= |projects|
  {
    && TasksKey in config
    && (forall i :: 0 <= i < n ==> projects[i] in config)
    && (forall p :: p in config ==> p == TasksKey || p in projects[..n])
  }

  /** The values after the first `n` assignments: each project coloured by its last position. */
  predicate ColorsAfter(projects: seq<string>, n: nat, config: map<string, SeriesConfig>)
    requires n <= |projects|
  {
    forall i :: 0 <= i < n && LastWithin(projects, i, n) ==>
      projects[i] in config && config[projects[i]] == ProjectSeries(projects[i], i)
  }

  /** "tasks" keeps its caption while no project has been named "tasks". */
  predicate TasksAfter(projects: seq<string>, n: nat, config: map<string, SeriesConfig>)
    requires n <= |projects|
  {
    TasksKey !in projects[..n] ==> TasksKey in config && config[TasksKey] == SeriesConfig("Tasks", None)
  }

  lemma KeysStep(projects: seq<string>, n: nat, before: map<string, SeriesConfig>)
    requires n < |projects| && KeysAfter(projects, n, before) && TasksAfter(projects, n, before)
    ensures KeysAfter(projects, n + 1, before[projects[n] := ProjectSeries(projects[n], n)])
    ensures TasksAfter(projects, n + 1, before[projects[n] := ProjectSeries(projects[n], n)])
  {
    assert projects[..n + 1] == projects[..n] + [projects[n]];
  }

  lemma ColorsStep(projects: seq<string>, n: nat, before: map<string, SeriesConfig>)
    requires n < |projects| && ColorsAfter(projects, n, before)
    ensures ColorsAfter(projects, n + 1, before[projects[n] := ProjectSeries(projects[n], n)])
  {
    var after := before[projects[n] := ProjectSeries(projects[n], n)];
    forall i | 0 <= i < n + 1 && LastWithin(projects, i, n + 1)
      ensures projects[i] in after && after[projects[i]] == ProjectSeries(projects[i], i)
    {
      if i < n {
        assert projects[n] != projects[i];
        assert LastWithin(projects, i, n);
      }
    }
  }

  /**
   * The configuration: `tasks` labelled "Tasks" with no colour, then each project labelled
   * with its own name and coloured by its position; a later assignment to the same key wins.
   */
  method ChartConfig(projects: seq<string>) returns (config: map<string, SeriesConfig>)
    ensures TasksKey in config
    ensures forall i :: 0 <= i < |projects| ==> projects[i] in config
    ensures forall p :: p in config ==> p == TasksKey || p in projects
    ensures TasksKey !in projects ==> config[TasksKey] == SeriesConfig("Tasks", None)
    ensures forall i :: 0 <= i < |projects| && (forall j :: i < j < |projects| ==> projects[j] != projects[i]) ==>
              config[projects[i]] == SeriesConfig(projects[i], Some(ChartColors[ColorIndex(i)]))
  {
    config := map[TasksKey := SeriesConfig("Tasks", None)];
    for index := 0 to |projects|
      invariant KeysAfter(projects, index, config)
      invariant TasksAfter(projects, index, config)
      invariant ColorsAfter(projects, index, config)
    {
      KeysStep(projects, index, config);
      ColorsStep(projects, index, config);
      config := config[projects[index] := ProjectSeries(projects[index], index)];
    }
    ConfigComplete(projects, config);
  }

  /** After every assignment, the step invariants are the configuration's contract. */
  lemma ConfigComplete(projects: seq<string>, config: map<string, SeriesConfig>)
    requires KeysAfter(projects, |projects|, config) && TasksAfter(projects, |projects|, config)
    requires ColorsAfter(projects, |projects|, config)
    ensures forall p :: p in config ==> p == TasksKey || p in projects
    ensures TasksKey !in projects ==> config[TasksKey] == SeriesConfig("Tasks", None)
    ensures forall i :: 0 <= i < |projects| && (forall j :: i < j < |projects| ==> projects[j] != projects[i]) ==>
              config[projects[i]] == SeriesConfig(projects[i], Some(ChartColors[ColorIndex(i)]))
  {
    assert projects[..|projects|] == projects;
    forall i | 0 <= i < |projects| && (forall j :: i < j < |projects| ==> projects[j] != projects[i])
      ensures config[projects[i]] == SeriesConfig(projects[i], Some(ChartColors[ColorIndex(i)]))
    {
      assert LastWithin(projects, i, |projects|);
    }
  }

  // ---------------------------------------------------------------------------------------
  // chartData: the grouping reduce

  function ForProject(p: string): Cell -> bool {
    (c: Cell) => c.project == p
  }

  function OnDate(d: string): DayRow -> bool {
    (r: DayRow) => r.date == d
  }

  /**
   * `acc[date][project] ||= 0; acc[date][project] += duration` on one day's cells: the cells
   * keep their order and every other project's cell, and a new project's cell goes last.
   */
  function AddSeconds(cells: seq<Cell>, p: string, seconds: int): (r: seq<Cell>)
    ensures |r| == if HasCell(cells, p) then |cells| else |cells| + 1
    ensures forall k :: 0 <= k < |cells| ==> r[k].project == cells[k].project
    ensures forall k :: 0 <= k < |cells| && cells[k].project != p ==> r[k] == cells[k]
    ensures !HasCell(cells, p) ==> r[|cells|] == Cell(p, seconds)
  {
    match Seqs.FindIndex(cells, ForProject(p))
    case None => cells + [Cell(p, seconds)]
    case Some(k) => cells[k := Cell(p, cells[k].seconds + seconds)]
  }

  /**
   * One step of the reduce: `acc[date] ||= {}` and then the cell update. The days keep their
   * order and every other day is untouched; a new day goes last, with the row's one cell.
   */
  function AddRow(groups: seq<DayRow>, x: ChartRow): (r: seq<DayRow>)
    ensures |r| == |groups| || |r| == |groups| + 1
    ensures forall k :: 0 <= k < |groups| ==> r[k].date == groups[k].date
    ensures forall k :: 0 <= k < |groups| && groups[k].date != x.date ==> r[k] == groups[k]
    ensures |r| == |groups| + 1 ==> r[|groups|] == DayRow(x.date, [Cell(x.project, x.duration)])
  {
    match Seqs.FindIndex(groups, OnDate(x.date))
    case None => groups + [DayRow(x.date, [Cell(x.project, x.duration)])]
    case Some(k) => groups[k := DayRow(x.date, AddSeconds(groups[k].cells, x.project, x.duration))]
  }

  /** `data.reduce(...)` from the empty dictionary, days in order of first appearance: at most one per row. */
  function Group(data: seq<ChartRow>): (r: seq<DayRow>)
    ensures |r| <= |data|
    ensures data != [] ==> |r| > 0
  {
    if data == [] then [] else AddRow(Group(data[..|data| - 1]), data[|data| - 1])
  }

  function RowDate(): DayRow -> string {
    (r: DayRow) => r.date
  }

  /** `Object.entries(groupedData).map(...).sort(...)` by day: a reordering of the grouped days. */
  function ChartRows(data: seq<ChartRow>): (r: seq<DayRow>)
    ensures multiset(r) == multiset(Group(data))
  {
    Lex.SortBy(Group(data), RowDate())
  }

  // ---------------------------------------------------------------------------------------
  // What a grouped row means

  function CellSeconds(): Cell -> int {
    (c: Cell) => c.seconds
  }

  /** The numeric values of a chart row: the seconds of each project on that day. */
  function DayTotal(r: DayRow): int {
    Seqs.Sum(r.cells, CellSeconds())
  }

  function DayTotalOf(): DayRow -> int {
    (r: DayRow) => DayTotal(r)
  }

  function RowsTotal(rows: seq<DayRow>): int {
    Seqs.Sum(rows, DayTotalOf())
  }

  predicate DistinctProjects(cells: seq<Cell>) {
    forall i, j :: 0 <= i < j < |cells| ==> cells[i].project != cells[j].project
  }

  /**
   * A row is faithful to the input: it has a cell, its cells have distinct projects, and
   * each cell holds the sum of the durations for its day and project, which occur together.
   */
  predicate RowOk(data: seq<ChartRow>, r: DayRow) {
    |r.cells| > 0
    && DistinctProjects(r.cells)
    && forall k :: 0 <= k < |r.cells| ==>
         Occurs(data, r.date, r.cells[k].project)
         && r.cells[k].seconds == CellSum(data, r.date, r.cells[k].project)
  }

  /** Some cell is for project `p`. */
  predicate HasCell(cells: seq<Cell>, p: string) {
    exists k :: 0 <= k < |cells| && cells[k].project == p
  }

  /** Some row is for day `d` and has a cell for project `p`. */
  predicate Covered(rows: seq<DayRow>, d: string, p: string) {
    exists i, k :: 0 <= i < |rows| && 0 <= k < |rows[i].cells| && rows[i].date == d && rows[i].cells[k].project == p
  }

  /** The grouping invariant: distinct days, faithful rows, every input pair covered, total kept. */
  predicate Represents(rows: seq<DayRow>, data: seq<ChartRow>) {
    (forall i, j :: 0 <= i < j < |rows| ==> rows[i].date != rows[j].date)
    && (forall i :: 0 <= i < |rows| ==> RowOk(data, rows[i]))
    && (forall j :: 0 <= j < |data| ==> Covered(rows, data[j].date, data[j].project))
    && RowsTotal(rows) == Total(data)
  }

  /** A row whose day is not the new input's keeps its meaning. */
  lemma RowOkOtherDay(data: seq<ChartRow>, x: ChartRow, r: DayRow)
    requires RowOk(data, r) && r.date != x.date
    ensures RowOk(data + [x], r)
  {
    assert (data + [x])[..|data|] == data;
    forall k | 0 <= k < |r.cells|
      ensures Occurs(data + [x], r.date, r.cells[k].project)
    {
      OccursLast(data, x, r.date, r.cells[k].project);
    }
  }

  /** The cell update on the row of the new input's day. */
  lemma AddSecondsOk(data: seq<ChartRow>, x: ChartRow, r: DayRow)
    requires RowOk(data, r) && r.date == x.date
    requires Occurs(data, x.date, x.project) ==> HasCell(r.cells, x.project)
    ensures RowOk(data + [x], DayRow(x.date, AddSeconds(r.cells, x.project, x.duration)))
    ensures DayTotal(DayRow(x.date, AddSeconds(r.cells, x.project, x.duration))) == DayTotal(r) + x.duration
    ensures forall q :: HasCell(r.cells, q) ==> HasCell(AddSeconds(r.cells, x.project, x.duration), q)
    ensures HasCell(AddSeconds(r.cells, x.project, x.duration), x.project)
  {
    match Seqs.FindIndex(r.cells, ForProject(x.project))
    case None => AddSecondsNewCell(data, x, r);
    case Some(m) => AddSecondsToCell(data, x, r, m);
  }

  /** Appending an input row adds its duration to its own pair's sum only. */
  lemma CellSumLast(data: seq<ChartRow>, x: ChartRow, d: string, p: string)
    ensures CellSum(data + [x], d, p) == CellSum(data, d, p) + (if x.date == d && x.project == p then x.duration else 0)
  {
    assert (data + [x])[..|data|] == data;
  }

  /** One cell of the updated row, given its new seconds. */
  lemma CellAfter(data: seq<ChartRow>, x: ChartRow, r: DayRow, c: Cell)
    requires r.date == x.date
    requires c.project == x.project ==> c.seconds == CellSum(data, r.date, c.project) + x.duration
    requires c.project != x.project ==> Occurs(data, r.date, c.project) && c.seconds == CellSum(data, r.date, c.project)
    ensures Occurs(data + [x], r.date, c.project) && c.seconds == CellSum(data + [x], r.date, c.project)
  {
    CellSumLast(data, x, r.date, c.project);
    OccursLast(data, x, r.date, c.project);
  }

  /** The day has no cell for the project yet: one is appended. */
  lemma AddSecondsNewCell(data: seq<ChartRow>, x: ChartRow, r: DayRow)
    requires RowOk(data, r) && r.date == x.date
    requires Occurs(data, x.date, x.project) ==> HasCell(r.cells, x.project)
    requires Seqs.FindIndex(r.cells, ForProject(x.project)).None?
    ensures RowOk(data + [x], DayRow(x.date, AddSeconds(r.cells, x.project, x.duration)))
    ensures DayTotal(DayRow(x.date, AddSeconds(r.cells, x.project, x.duration))) == DayTotal(r) + x.duration
    ensures forall q :: HasCell(r.cells, q) ==> HasCell(AddSeconds(r.cells, x.project, x.duration), q)
    ensures HasCell(AddSeconds(r.cells, x.project, x.duration), x.project)
  {
    var cells := AddSeconds(r.cells, x.project, x.duration);
    var c := Cell(x.project, x.duration);
    assert cells == r.cells + [c];
    forall k | 0 <= k < |r.cells|
      ensures r.cells[k].project != x.project
    {
      assert !ForProject(x.project)(r.cells[k]);
    }
    CellSumAbsent(data, x.date, x.project);
    forall k | 0 <= k < |cells|
      ensures Occurs(data + [x], x.date, cells[k].project) && cells[k].seconds == CellSum(data + [x], x.date, cells[k].project)
    {
      if k < |r.cells| {
        assert cells[k] == r.cells[k];
      }
      CellAfter(data, x, r, cells[k]);
    }
    assert DistinctProjects(cells);
    Seqs.SumAppend(r.cells, c, CellSeconds());
    assert cells[|r.cells|] == c;
    forall q | HasCell(r.cells, q)
      ensures HasCell(cells, q)
    {
      var k :| 0 <= k < |r.cells| && r.cells[k].project == q;
      assert cells[k] == r.cells[k];
    }
  }

  /** The day already has a cell for the project, at `m`: its seconds grow. */
  lemma AddSecondsToCell(data: seq<ChartRow>, x: ChartRow, r: DayRow, m: nat)
    requires RowOk(data, r) && r.date == x.date
    requires Seqs.FindIndex(r.cells, ForProject(x.project)) == Some(m)
    ensures RowOk(data + [x], DayRow(x.date, AddSeconds(r.cells, x.project, x.duration)))
    ensures DayTotal(DayRow(x.date, AddSeconds(r.cells, x.project, x.duration))) == DayTotal(r) + x.duration
    ensures forall q :: HasCell(r.cells, q) ==> HasCell(AddSeconds(r.cells, x.project, x.duration), q)
    ensures HasCell(AddSeconds(r.cells, x.project, x.duration), x.project)
  {
    var c := Cell(x.project, r.cells[m].seconds + x.duration);
    var cells := AddSeconds(r.cells, x.project, x.duration);
    assert cells == r.cells[m := c];
    assert r.cells[m].project == x.project;
    forall k | 0 <= k < |cells|
      ensures Occurs(data + [x], x.date, cells[k].project) && cells[k].seconds == CellSum(data + [x], x.date, cells[k].project)
    {
      if k != m {
        assert cells[k] == r.cells[k];
      }
      CellAfter(data, x, r, cells[k]);
    }
    assert DistinctProjects(cells) by {
      forall i, j | 0 <= i < j < |cells|
        ensures cells[i].project != cells[j].project
      {
        assert cells[i].project == r.cells[i].project && cells[j].project == r.cells[j].project;
      }
    }
    Seqs.SumUpdate(r.cells, m, c, CellSeconds());
    forall q | HasCell(r.cells, q)
      ensures HasCell(cells, q)
    {
      var k :| 0 <= k < |r.cells| && r.cells[k].project == q;
      assert cells[k].project == r.cells[k].project;
    }
    assert cells[m].project == x.project;
  }

  /** A first row for a new day keeps the grouping invariant. */
  lemma AddNewDay(groups: seq<DayRow>, data: seq<ChartRow>, x: ChartRow)
    requires Represents(groups, data)
    requires forall i :: 0 <= i < |groups| ==> groups[i].date != x.date
    ensures Represents(groups + [DayRow(x.date, [Cell(x.project, x.duration)])], data + [x])
  {
    var g := groups + [DayRow(x.date, [Cell(x.project, x.duration)])];
    NewDayTotal(groups, data, x);
    NewDayRowsOk(groups, data, x);
    NewDayCovered(groups, data, x);
    assert forall i, j :: 0 <= i < j < |g| ==> g[i].date != g[j].date;
  }

  lemma NewDayTotal(groups: seq<DayRow>, data: seq<ChartRow>, x: ChartRow)
    requires RowsTotal(groups) == Total(data)
    ensures RowsTotal(groups + [DayRow(x.date, [Cell(x.project, x.duration)])]) == Total(data + [x])
  {
    var nr := DayRow(x.date, [Cell(x.project, x.duration)]);
    assert (data + [x])[..|data|] == data;
    Seqs.SumAppend(groups, nr, DayTotalOf());
    var c := Cell(x.project, x.duration);
    assert [c][1..] == [];
    assert Seqs.Sum([c], CellSeconds()) == CellSeconds()(c) + Seqs.Sum([c][1..], CellSeconds());
  }

  lemma NewDayRowsOk(groups: seq<DayRow>, data: seq<ChartRow>, x: ChartRow)
    requires forall i :: 0 <= i < |groups| ==> RowOk(data, groups[i])
    requires forall j :: 0 <= j < |data| ==> Covered(groups, data[j].date, data[j].project)
    requires forall i :: 0 <= i < |groups| ==> groups[i].date != x.date
    ensures forall i :: 0 <= i < |groups| + 1 ==>
              RowOk(data + [x], (groups + [DayRow(x.date, [Cell(x.project, x.duration)])])[i])
  {
    var g := groups + [DayRow(x.date, [Cell(x.project, x.duration)])];
    assert (data + [x])[..|data|] == data;
    forall j | 0 <= j < |data|
      ensures data[j].date != x.date
    {
      assert Covered(groups, data[j].date, data[j].project);
    }
    CellSumAbsent(data, x.date, x.project);
    OccursLast(data, x, x.date, x.project);
    forall i | 0 <= i < |g|
      ensures RowOk(data + [x], g[i])
    {
      if i < |groups| {
        assert g[i] == groups[i];
        RowOkOtherDay(data, x, groups[i]);
      }
    }
  }

  lemma NewDayCovered(groups: seq<DayRow>, data: seq<ChartRow>, x: ChartRow)
    requires forall j :: 0 <= j < |data| ==> Covered(groups, data[j].date, data[j].project)
    ensures forall j :: 0 <= j < |data| + 1 ==>
              Covered(groups + [DayRow(x.date, [Cell(x.project, x.duration)])], (data + [x])[j].date, (data + [x])[j].project)
  {
    var nr := DayRow(x.date, [Cell(x.project, x.duration)]);
    var g := groups + [nr];
    var data' := data + [x];
    forall j | 0 <= j < |data'|
      ensures Covered(g, data'[j].date, data'[j].project)
    {
      if j < |data| {
        assert data'[j] == data[j];
        var i, k :| 0 <= i < |groups| && 0 <= k < |groups[i].cells| && groups[i].date == data[j].date && groups[i].cells[k].project == data[j].project;
        assert g[i] == groups[i];
      } else {
        assert g[|groups|] == nr && nr.cells[0].project == x.project;
      }
    }
  }

  /** Adding to the cells of an existing day keeps the grouping invariant. */
  lemma AddToDay(groups: seq<DayRow>, data: seq<ChartRow>, x: ChartRow, m: nat)
    requires Represents(groups, data)
    requires m < |groups| && groups[m].date == x.date
    ensures Represents(groups[m := DayRow(x.date, AddSeconds(groups[m].cells, x.project, x.duration))], data + [x])
  {
    var data' := data + [x];
    var r := groups[m];
    var nr := DayRow(x.date, AddSeconds(r.cells, x.project, x.duration));
    var g := groups[m := nr];
    assert RowOk(data, r);
    DayHasItsCells(groups, data, x, m);
    AddSecondsOk(data, x, r);
    ExistingDayTotal(groups, data, x, m, nr);
    OtherRowsOk(groups, data, x, m);
    ReplacedRow(groups, g, m, data');
    AddToDayCovered(groups, data, x, m);
  }

  /** Replacing one row by a faithful row of the same day keeps days distinct and rows faithful. */
  lemma ReplacedRow(groups: seq<DayRow>, g: seq<DayRow>, m: nat, data: seq<ChartRow>)
    requires m < |groups| == |g| && g[m].date == groups[m].date
    requires forall i :: 0 <= i < |g| && i != m ==> g[i] == groups[i]
    requires forall i, j :: 0 <= i < j < |groups| ==> groups[i].date != groups[j].date
    requires forall i :: 0 <= i < |groups| && i != m ==> RowOk(data, groups[i])
    requires RowOk(data, g[m])
    ensures forall i, j :: 0 <= i < j < |g| ==> g[i].date != g[j].date
    ensures forall i :: 0 <= i < |g| ==> RowOk(data, g[i])
  {
    forall i, j | 0 <= i < j < |g|
      ensures g[i].date != g[j].date
    {
      assert g[i].date == groups[i].date && g[j].date == groups[j].date;
    }
    forall i | 0 <= i < |g|
      ensures RowOk(data, g[i])
    {
      if i != m {
        assert g[i] == groups[i];
      }
    }
  }

  lemma ExistingDayTotal(groups: seq<DayRow>, data: seq<ChartRow>, x: ChartRow, m: nat, nr: DayRow)
    requires RowsTotal(groups) == Total(data)
    requires m < |groups| && DayTotal(nr) == DayTotal(groups[m]) + x.duration
    ensures RowsTotal(groups[m := nr]) == Total(data + [x])
  {
    assert (data + [x])[..|data|] == data;
    Seqs.SumUpdate(groups, m, nr, DayTotalOf());
  }

  /** The row of an existing day already has a cell for every project the input pairs with it. */
  lemma DayHasItsCells(groups: seq<DayRow>, data: seq<ChartRow>, x: ChartRow, m: nat)
    requires m < |groups| && groups[m].date == x.date
    requires forall i, j :: 0 <= i < j < |groups| ==> groups[i].date != groups[j].date
    requires forall j :: 0 <= j < |data| ==> Covered(groups, data[j].date, data[j].project)
    ensures Occurs(data, x.date, x.project) ==> HasCell(groups[m].cells, x.project)
  {
    forall j | 0 <= j < |data| && data[j].date == x.date
      ensures HasCell(groups[m].cells, data[j].project)
    {
      assert Covered(groups, data[j].date, data[j].project);
      var i, k :| 0 <= i < |groups| && 0 <= k < |groups[i].cells| && groups[i].date == data[j].date && groups[i].cells[k].project == data[j].project;
      assert i == m;
    }
  }

  /** Rows of the other days keep their meaning when a row for `x`'s day is added to. */
  lemma OtherRowsOk(groups: seq<DayRow>, data: seq<ChartRow>, x: ChartRow, m: nat)
    requires m < |groups| && groups[m].date == x.date
    requires forall i, j :: 0 <= i < j < |groups| ==> groups[i].date != groups[j].date
    requires forall i :: 0 <= i < |groups| ==> RowOk(data, groups[i])
    ensures forall i :: 0 <= i < |groups| && i != m ==> RowOk(data + [x], groups[i])
  {
    forall i | 0 <= i < |groups| && i != m
      ensures RowOk(data + [x], groups[i])
    {
      RowOkOtherDay(data, x, groups[i]);
    }
  }

  lemma AddToDayCovered(groups: seq<DayRow>, data: seq<ChartRow>, x: ChartRow, m: nat)
    requires m < |groups| && groups[m].date == x.date
    requires forall j :: 0 <= j < |data| ==> Covered(groups, data[j].date, data[j].project)
    requires forall q :: HasCell(groups[m].cells, q) ==> HasCell(AddSeconds(groups[m].cells, x.project, x.duration), q)
    requires HasCell(AddSeconds(groups[m].cells, x.project, x.duration), x.project)
    ensures forall j :: 0 <= j < |data| + 1 ==>
              Covered(groups[m := DayRow(x.date, AddSeconds(groups[m].cells, x.project, x.duration))],
                      (data + [x])[j].date, (data + [x])[j].project)
  {
    var data' := data + [x];
    var r := groups[m];
    var nr := DayRow(x.date, AddSeconds(r.cells, x.project, x.duration));
    var g := groups[m := nr];
    forall j | 0 <= j < |data'|
      ensures Covered(g, data'[j].date, data'[j].project)
    {
      if j < |data| {
        assert data'[j] == data[j];
        var i, k :| 0 <= i < |groups| && 0 <= k < |groups[i].cells| && groups[i].date == data[j].date && groups[i].cells[k].project == data[j].project;
        if i != m {
          assert g[i] == groups[i];
        } else {
          assert HasCell(r.cells, data[j].project);
          var k' :| 0 <= k' < |nr.cells| && nr.cells[k'].project == data[j].project;
          assert g[m] == nr;
        }
      } else {
        var k' :| 0 <= k' < |nr.cells| && nr.cells[k'].project == x.project;
        assert g[m] == nr;
      }
    }
  }

  /** One step of the reduce keeps the grouping invariant. */
  lemma AddRowRepresents(groups: seq<DayRow>, data: seq<ChartRow>, x: ChartRow)
    requires Represents(groups, data)
    ensures Represents(AddRow(groups, x), data + [x])
  {
    match Seqs.FindIndex(groups, OnDate(x.date))
    case None =>
      forall i | 0 <= i < |groups|
        ensures groups[i].date != x.date
      {
        assert !OnDate(x.date)(groups[i]);
      }
      AddNewDay(groups, data, x);
    case Some(m) =>
      AddToDay(groups, data, x, m);
  }

  lemma {:induction false} GroupRepresents(data: seq<ChartRow>)
    ensures Represents(Group(data), data)
  {
    if data != [] {
      var n := |data| - 1;
      var front, last := data[..n], data[n];
      assert front + [last] == data;
      GroupRepresents(front);
      AddRowRepresents(Group(front), front, last);
      assert Group(data) == AddRow(Group(front), last);
    }
  }

  // ---------------------------------------------------------------------------------------
  // chartData: the method

  /**
   * The grouped chart rows: days strictly ascending (so one row per day), each row faithful
   * to the input, every input (day, project) pair given a cell, and the grand total kept.
   */
  method ChartData(data: seq<ChartRow>) returns (rows: seq<DayRow>)
    ensures rows == ChartRows(data)
    ensures Lex.AscendingBy(rows, RowDate())
    ensures forall i :: 0 <= i < |rows| ==> RowOk(data, rows[i])
    ensures forall j :: 0 <= j < |data| ==> Covered(rows, data[j].date, data[j].project)
    ensures RowsTotal(rows) == Total(data)
  {
    var acc: seq<DayRow> := [];
    for i := 0 to |data|
      invariant acc == Group(data[..i])
    {
      GroupStep(data, i);
      acc := AddRow(acc, data[i]);
    }
    assert data[..|data|] == data;
    rows := Lex.SortBy(acc, RowDate());
    assert rows == ChartRows(data);
    GroupRepresents(data);
    SortedRepresents(data);
  }

  /** The reduce over one more input row is one more step. */
  lemma GroupStep(data: seq<ChartRow>, i: nat)
    requires i < |data|
    ensures Group(data[..i + 1]) == AddRow(Group(data[..i]), data[i])
  {
    assert data[..i + 1][..i] == data[..i];
    assert data[..i + 1][i] == data[i];
  }

  /** Sorting the grouped rows by day keeps what they mean and orders the days. */
  lemma SortedRepresents(data: seq<ChartRow>)
    ensures Lex.AscendingBy(ChartRows(data), RowDate())
    ensures forall i :: 0 <= i < |ChartRows(data)| ==> RowOk(data, ChartRows(data)[i])
    ensures forall j :: 0 <= j < |data| ==> Covered(ChartRows(data), data[j].date, data[j].project)
    ensures RowsTotal(ChartRows(data)) == Total(data)
  {
    GroupRepresents(data);
    var g := Group(data);
    Lex.SortAscending(g, RowDate());
    Lex.SumSort(g, RowDate(), DayTotalOf());
    SortKeepsRows(data, g, ChartRows(data));
  }

  lemma SortKeepsRows(data: seq<ChartRow>, g: seq<DayRow>, s: seq<DayRow>)
    requires multiset(s) == multiset(g)
    requires forall i :: 0 <= i < |g| ==> RowOk(data, g[i])
    requires forall j :: 0 <= j < |data| ==> Covered(g, data[j].date, data[j].project)
    ensures forall i :: 0 <= i < |s| ==> RowOk(data, s[i])
    ensures forall j :: 0 <= j < |data| ==> Covered(s, data[j].date, data[j].project)
  {
    forall i | 0 <= i < |s|
      ensures RowOk(data, s[i])
    {
      assert s[i] in multiset(g);
      var m :| 0 <= m < |g| && g[m] == s[i];
    }
    forall j | 0 <= j < |data|
      ensures Covered(s, data[j].date, data[j].project)
    {
      var i, k :| 0 <= i < |g| && 0 <= k < |g[i].cells| && g[i].date == data[j].date && g[i].cells[k].project == data[j].project;
      assert g[i] in multiset(s);
      var m :| 0 <= m < |s| && s[m] == g[i];
      assert s[m].date == data[j].date && s[m].cells[k].project == data[j].project;
    }
  }

  /** Some input row is for day `d`. */
  predicate InputDay(data: seq<ChartRow>, d: string) {
    exists j :: 0 <= j < |data| && data[j].date == d
  }

  /** Some output row is for day `d`. */
  predicate RowDay(rows: seq<DayRow>, d: string) {
    exists i :: 0 <= i < |rows| && rows[i].date == d
  }

  /** Every row's day is an input day, and every input day has a row. */
  lemma RowsAreInputDays(data: seq<ChartRow>)
    ensures forall i :: 0 <= i < |ChartRows(data)| ==> InputDay(data, ChartRows(data)[i].date)
    ensures forall j :: 0 <= j < |data| ==> RowDay(ChartRows(data), data[j].date)
  {
    SortedRepresents(data);
    RowDaysOccur(data, ChartRows(data));
    InputDaysHaveRows(data, ChartRows(data));
  }

  lemma RowDaysOccur(data: seq<ChartRow>, s: seq<DayRow>)
    requires forall i :: 0 <= i < |s| ==> RowOk(data, s[i])
    ensures forall i :: 0 <= i < |s| ==> InputDay(data, s[i].date)
  {
    forall i | 0 <= i < |s|
      ensures InputDay(data, s[i].date)
    {
      assert RowOk(data, s[i]);
      var j :| 0 <= j < |data| && data[j].date == s[i].date && data[j].project == s[i].cells[0].project;
    }
  }

  lemma InputDaysHaveRows(data: seq<ChartRow>, s: seq<DayRow>)
    requires forall j :: 0 <= j < |data| ==> Covered(s, data[j].date, data[j].project)
    ensures forall j :: 0 <= j < |data| ==> RowDay(s, data[j].date)
  {
    forall j | 0 <= j < |data|
      ensures RowDay(s, data[j].date)
    {
      assert Covered(s, data[j].date, data[j].project);
      var i, k :| 0 <= i < |s| && 0 <= k < |s[i].cells| && s[i].date == data[j].date && s[i].cells[k].project == data[j].project;
    }
  }

  // ---------------------------------------------------------------------------------------
  // trend

  /**
   * The change of the last day's total over the previous day's, in percent; 0 with fewer
   * than two days or when the previous day's total is 0 (falsy).
   */
  function Trend(rows: seq<DayRow>): (r: real)
    ensures |rows| < 2 ==> r == 0.0
    ensures |rows| >= 2 && DayTotal(rows[|rows| - 2]) == 0 ==> r == 0.0
    ensures |rows| >= 2 && DayTotal(rows[|rows| - 2]) != 0 && DayTotal(rows[|rows| - 1]) == DayTotal(rows[|rows| - 2]) ==> r == 0.0
  {
    if |rows| < 2 then 0.0
    else
      var lastDay := DayTotal(rows[|rows| - 1]);
      var previousDay := DayTotal(rows[|rows| - 2]);
      if previousDay == 0 then 0.0
      else ((lastDay - previousDay) as real / previousDay as real) * 100.0
  }
}
