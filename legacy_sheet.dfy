/** The task table of a legacy project sheet and the project built from it
    (dash_old/services/excelParser.ts): the walk over the task rows, the
    stage-duration totals, the project dates and status, and the workbook
    loop that skips auxiliary sheets. */
module LegacySheet {
  import opened Options
  import opened Text
  import opened JsNumbers
  import opened Calendar
  import opened Seqs
  import opened Grid
  import opened Domain
  import opened Keywords
  import opened LegacyValues
  import opened LegacyHeader

  // ---- Stage totals: an object keyed by stage label, in insertion order ----

  type Stages = seq<(string, real)>

  predicate DistinctKeys(st: Stages) {
    forall i, j :: 0 <= i < j < |st| ==> st[i].0 != st[j].0
  }

  /** `record[k] || 0`. */
  function Lookup(st: Stages, k: string): real {
    if |st| == 0 then 0.0 else if st[0].0 == k then st[0].1 else Lookup(st[1..], k)
  }

  /** `record[k] = (record[k] || 0) + v`: an existing key keeps its place, a new one goes last. */
  function AddTo(st: Stages, k: string, v: real): (r: Stages)
    requires DistinctKeys(st)
    ensures DistinctKeys(r)
    ensures FirstKeys(r) == FirstKeys(st) + (if k in FirstKeys(st) then [] else [k])
    ensures forall x :: Lookup(r, x) == Lookup(st, x) + (if x == k then v else 0.0)
  {
    if |st| == 0 then [(k, v)]
    else if st[0].0 == k then
      assert k in FirstKeys(st) by { assert FirstKeys(st)[0] == k; }
      [(k, st[0].1 + v)] + st[1..]
    else
      var t := AddTo(st[1..], k, v);
      AddStageBehind(st, k, t);
      [st[0]] + t
  }

  /** Putting the untouched first entry back in front of the updated rest keeps
      the keys distinct and in order. */
  lemma AddStageBehind(st: Stages, k: string, t: Stages)
    requires |st| > 0 && st[0].0 != k && DistinctKeys(st) && DistinctKeys(t)
    requires FirstKeys(t) == FirstKeys(st[1..]) + (if k in FirstKeys(st[1..]) then [] else [k])
    ensures DistinctKeys([st[0]] + t)
    ensures FirstKeys([st[0]] + t) == FirstKeys(st) + (if k in FirstKeys(st) then [] else [k])
  {
    assert FirstKeys(st) == [st[0].0] + FirstKeys(st[1..]);
    assert k in FirstKeys(st) <==> k in FirstKeys(st[1..]);
    assert st[0].0 !in FirstKeys(st[1..]);
    assert st[0].0 !in FirstKeys(t);
    FirstKeysCons(st[0], t);
    assert ([st[0]] + t)[1..] == t;
    KeysDistinct([st[0]] + t);
  }

  lemma KeysDistinct(st: Stages)
    requires |st| > 0 && st[0].0 !in FirstKeys(st[1..]) && DistinctKeys(st[1..])
    ensures DistinctKeys(st)
  {
    forall i, j | 0 <= i < j < |st| ensures st[i].0 != st[j].0 {
      if i == 0 {
        assert st[j].0 == FirstKeys(st[1..])[j - 1];
      } else {
        assert st[i].0 == st[1..][i - 1].0 && st[j].0 == st[1..][j - 1].0;
      }
    }
  }

  // ---- One task row ----

  /** `String(row[colIndexTask] || '').trim()`. */
  function TaskName(row: Row, cols: Columns): string {
    var cell := RowCell(row, cols.task);
    Trim(if Truthy(cell) then CellText(cell) else "")
  }

  /** Rows whose first two cells are both empty, or without a task name, are skipped. */
  predicate SkipsRow(row: Row, cols: Columns) {
    (!Truthy(RowCell(row, 0)) && !Truthy(RowCell(row, 1))) || TaskName(row, cols) == ""
  }

  /** The duration column: a number as it is, anything else through the
      radix-less parseInt (so "0x10" is 16), NaN as 0. */
  function DurationOf(cell: Cell): (r: real)
    ensures cell.Num? ==> r == cell.value
    ensures !cell.Num? ==> r == ParseIntAuto(CellText(cell)).GetOr(0) as real
  {
    if cell.Num? then cell.value else ParseIntAuto(CellText(cell)).GetOr(0) as real
  }

  /** A duration text "0x…" of hexadecimal digits counts their base-16 value of days. */
  lemma HexDuration(d: string)
    requires |d| > 0 && forall k :: 0 <= k < |d| ==> IsHexDigit(d[k])
    ensures DurationOf(Str("0x" + d)) == HexDigitsValue(d) as real
  {
    ParseIntAutoHex(d);
  }

  /** The progress column: a fraction up to 1 is scaled to percent, a text loses its first '%'. */
  function ProgressOf(cell: Cell): (r: real)
    ensures cell.Num? && cell.value <= 1.0 ==> r == cell.value * 100.0
    ensures cell.Num? && cell.value > 1.0 ==> r == cell.value
    ensures cell.Empty? || cell.DateV? ==> r == 0.0
  {
    match cell
    case Num(v) => if v <= 1.0 then v * 100.0 else v
    case Str(s) => ParseFloat(ReplaceFirst(s, '%', "")).GetOr(0.0)
    case _ => 0.0
  }

  /** '85%' reads as 85, and an unreadable text as 0. */
  lemma PercentText(t: string)
    requires '%' !in t
    ensures ProgressOf(Str(t + "%")) == ParseFloat(t).GetOr(0.0)
  {
    ReplaceFirstAfter(t, "%", '%', "");
    assert ReplaceFirst("%", '%', "") == "";
    assert t + "" == t;
  }

  /** A fraction between 0 and 1 becomes a percentage between 0 and 100. */
  lemma FractionScaled(v: real)
    requires 0.0 <= v <= 1.0
    ensures 0.0 <= ProgressOf(Num(v)) <= 100.0
  {
  }

  /** `subDays(date, n)`: whole days back; an Invalid Date stays one, and a
      result beyond the Date range is one. */
  function SubDays(d: JsDate, n: real): JsDate {
    if d.Valid? then TimeClip(d.ms - Trunc(n) * DayMs) else InvalidDate
  }

  /** A missing start is the planned end minus the duration, in whole days. */
  function BackfillStart(start: Option<JsDate>, plannedEnd: Option<JsDate>, duration: real): (r: Option<JsDate>)
    ensures start.Some? ==> r == start
    ensures start.None? ==> (r.Some? <==> plannedEnd.Some? && duration > 0.0)
    ensures start.None? && plannedEnd == Some(InvalidDate) && duration > 0.0 ==> r == Some(InvalidDate)
    ensures start.None? && plannedEnd.Some? && plannedEnd.value.Valid? && duration > 0.0 ==>
      var t := plannedEnd.value.ms - Trunc(duration) * DayMs;
      (r.value.Valid? <==> -MaxTimeMs <= t <= MaxTimeMs) && (r.value.Valid? ==> r.value.ms == t)
    ensures start.None? && r.Some? && r.value.Valid? ==> plannedEnd.value.Valid? && r.value.ms <= plannedEnd.value.ms
    ensures start.None? && r.Some? && r.value.Valid? && duration >= 1.0 ==> r.value.ms < plannedEnd.value.ms
  {
    if start.None? && plannedEnd.Some? && duration > 0.0 then
      Some(SubDays(plannedEnd.value, duration))
    else start
  }

  /** How the walk reads a date cell. The parser applies `parseExcelDate`
      with the workbook's date parser; see `ExcelDates`. */
  type CellDate = Cell -> Option<JsDate>

  function ExcelDates(dateParse: DateParser): CellDate {
    c => ParseExcelDate(c, dateParse)
  }

  /** A named row as the loop body holds it; its dates are Date objects or null. */
  datatype Reading = Reading(name: string, start: Option<JsDate>, plannedEnd: Option<JsDate>,
                             actualEnd: Option<JsDate>, duration: real, progress: real)

  /** The task pushed for a reading, each date turned into its time
      (`sDate ? sDate.getTime() : null`, NaN for an Invalid Date). */
  function TaskOf(rd: Reading): TaskData {
    TaskData(rd.name, TimeOrNone(rd.start), TimeOrNone(rd.plannedEnd), TimeOrNone(rd.actualEnd), rd.duration, rd.progress)
  }

  /** What the loop body reads from a named row. */
  function ReadTask(row: Row, cols: Columns, date: CellDate): (rd: Reading)
    ensures rd.name == TaskName(row, cols)
    ensures rd.plannedEnd == date(RowCell(row, cols.plannedEnd))
    ensures cols.executedEnd <= cols.plannedEnd ==> rd.actualEnd.None?
    ensures cols.executedEnd > cols.plannedEnd ==> rd.actualEnd == date(RowCell(row, cols.executedEnd))
    ensures cols.start > -1 && date(RowCell(row, cols.start)).Some? ==> rd.start == date(RowCell(row, cols.start))
    ensures cols.duration == -1 ==> rd.duration == 0.0
    ensures cols.progress == -1 ==> rd.progress == 0.0
  {
    var pDate := date(RowCell(row, cols.plannedEnd));
    var eDate := if cols.executedEnd > cols.plannedEnd then date(RowCell(row, cols.executedEnd)) else None;
    var sDate := if cols.start > -1 then date(RowCell(row, cols.start)) else None;
    var duration := if cols.duration > -1 then DurationOf(RowCell(row, cols.duration)) else 0.0;
    var p := if cols.progress > -1 then ProgressOf(RowCell(row, cols.progress)) else 0.0;
    Reading(TaskName(row, cols), BackfillStart(sDate, pDate, duration), pDate, eDate, duration, p)
  }

  /** The label of the first stage keyword in the upper-cased task name. */
  function StageOf(rd: Reading): Option<string> {
    FirstMatch(StageKeywords, Upper(rd.name))
  }

  /** The days a row adds to its stage: its duration, or 1 for a row of
      duration 0 with both a planned end and a start (an Invalid Date is
      truthy, so it counts). */
  function StageDays(rd: Reading): (r: real)
    ensures rd.duration != 0.0 ==> r == rd.duration
    ensures rd.duration == 0.0 ==> (r == 1.0 <==> rd.plannedEnd.Some? && rd.start.Some?)
    ensures rd.duration == 0.0 ==> r == 0.0 || r == 1.0
  {
    if rd.duration == 0.0 && rd.plannedEnd.Some? && rd.start.Some? then 1.0 else rd.duration
  }

  // ---- The walk over the task rows ----

  datatype Walk = Walk(tasks: seq<TaskData>, stages: Stages, totalProgress: real, taskCount: nat)

  const NoTasks: Walk := Walk([], [], 0.0, 0)

  function Progress(t: TaskData): real { t.progress }

  /** The invariant of the walk: the count and the progress total describe the task list. */
  predicate WalkInvariant(w: Walk) {
    w.taskCount == |w.tasks|
    && w.totalProgress == Sum(w.tasks, Progress)
    && DistinctKeys(w.stages)
  }

  /** A named row: a row whose planned end parsed, to a valid or an Invalid
      Date, is recorded and counted; any named row adds its days to its
      stage (`StageOf`). */
  function AddTask(w: Walk, rd: Reading, stage: Option<string>): (r: Walk)
    requires WalkInvariant(w)
    ensures WalkInvariant(r)
    ensures r.tasks == w.tasks + (if rd.plannedEnd.Some? then [TaskOf(rd)] else [])
    ensures FirstKeys(r.stages) == FirstKeys(w.stages) + (if stage.Some? && stage.value !in FirstKeys(w.stages) then [stage.value] else [])
    ensures forall x :: Lookup(r.stages, x) == Lookup(w.stages, x) + (if stage == Some(x) then StageDays(rd) else 0.0)
  {
    var stages := AddStage(w.stages, stage, StageDays(rd));
    if rd.plannedEnd.Some? then
      var t := TaskOf(rd);
      assert (w.tasks + [t])[..|w.tasks|] == w.tasks;
      Walk(w.tasks + [t], stages, w.totalProgress + t.progress, w.taskCount + 1)
    else Walk(w.tasks, stages, w.totalProgress, w.taskCount)
  }

  /** A row whose planned end is an Invalid Date (a serial beyond the Date
      range) is recorded and counted, but its NaN end reaches no baseline. */
  lemma InvalidPlannedEnd(w: Walk, rd: Reading, stage: Option<string>)
    requires WalkInvariant(w) && rd.plannedEnd == Some(InvalidDate)
    ensures AddTask(w, rd, stage).taskCount == w.taskCount + 1
    ensures Times(AddTask(w, rd, stage).tasks, PlannedEnd, AnyTask) == Times(w.tasks, PlannedEnd, AnyTask)
  {
    var ts := w.tasks + [TaskOf(rd)];
    assert ts[..|ts| - 1] == w.tasks;
  }

  /** The stage totals after a row of stage `stage` (none: unchanged). */
  function AddStage(st: Stages, stage: Option<string>, v: real): (r: Stages)
    requires DistinctKeys(st)
    ensures DistinctKeys(r)
    ensures FirstKeys(r) == FirstKeys(st) + (if stage.Some? && stage.value !in FirstKeys(st) then [stage.value] else [])
    ensures forall x :: Lookup(r, x) == Lookup(st, x) + (if stage == Some(x) then v else 0.0)
  {
    if stage.Some? then AddTo(st, stage.value, v) else st
  }

  /** One iteration of the task loop. */
  function RowStep(w: Walk, row: Row, cols: Columns, date: CellDate): (r: Walk)
    requires WalkInvariant(w)
    ensures WalkInvariant(r)
    ensures SkipsRow(row, cols) ==> r == w
    ensures !SkipsRow(row, cols) ==> var rd := ReadTask(row, cols, date); r == AddTask(w, rd, StageOf(rd))
  {
    if SkipsRow(row, cols) then w else var rd := ReadTask(row, cols, date); AddTask(w, rd, StageOf(rd))
  }

  /** The task loop over rows `first` up to `n`. */
  function WalkRows(grid: Sheet, first: nat, n: nat, cols: Columns, date: CellDate): (r: Walk)
    requires first <= n <= |grid|
    ensures WalkInvariant(r)
    decreases n - first
  {
    if n == first then NoTasks else RowStep(WalkRows(grid, first, n - 1, cols, date), grid[n - 1], cols, date)
  }

  /** The body of the task loop. */
  method VisitRow(w: Walk, row: Row, cols: Columns, date: CellDate) returns (next: Walk)
    requires WalkInvariant(w)
    ensures next == RowStep(w, row, cols, date)
  {
    next := w;
    if (!Truthy(RowCell(row, 0)) && !Truthy(RowCell(row, 1))) {
      return;
    }
    var taskName := TaskName(row, cols);
    if taskName == "" {
      return;
    }
    var rd := ReadRow(row, cols, date);
    var stage := FindLabel(StageKeywords, Upper(taskName));
    next := RecordTask(w, rd, stage);
  }

  /** The cells of a named row, with the start back-filled. */
  method ReadRow(row: Row, cols: Columns, date: CellDate) returns (rd: Reading)
    ensures rd == ReadTask(row, cols, date)
  {
    var pDate := date(RowCell(row, cols.plannedEnd));
    var eDate := if cols.executedEnd > cols.plannedEnd then date(RowCell(row, cols.executedEnd)) else None;
    var read := if cols.start > -1 then date(RowCell(row, cols.start)) else None;
    var sDate := read;
    var duration := if cols.duration > -1 then DurationOf(RowCell(row, cols.duration)) else 0.0;
    if sDate.None? && pDate.Some? && duration > 0.0 {
      sDate := Some(SubDays(pDate.value, duration));
    }
    assert sDate == BackfillStart(read, pDate, duration);
    var p := if cols.progress > -1 then ProgressOf(RowCell(row, cols.progress)) else 0.0;
    var name := TaskName(row, cols);
    rd := Reading(name, sDate, pDate, eDate, duration, p);
  }

  /** The task list, the stage totals and the progress total after a named row. */
  method RecordTask(w: Walk, rd: Reading, stage: Option<string>) returns (next: Walk)
    requires WalkInvariant(w)
    ensures next == AddTask(w, rd, stage)
  {
    var tasks := w.tasks;
    if rd.plannedEnd.Some? {
      tasks := tasks + [TaskOf(rd)];
    }
    var stages := w.stages;
    if stage.Some? {
      var days := rd.duration;
      if days == 0.0 && rd.plannedEnd.Some? && rd.start.Some? {
        days := 1.0;
      }
      stages := AddTo(stages, stage.value, days);
    }
    var totalProgress, taskCount := w.totalProgress, w.taskCount;
    if rd.plannedEnd.Some? {
      totalProgress := totalProgress + rd.progress;
      taskCount := taskCount + 1;
    }
    next := Walk(tasks, stages, totalProgress, taskCount);
  }

  /** The task loop of parseProjectSheet, over the rows below the header row. */
  method WalkTable(grid: Sheet, headerRow: nat, cols: Columns, date: CellDate) returns (w: Walk)
    requires headerRow < |grid|
    ensures w == WalkRows(grid, headerRow + 1, |grid|, cols, date)
  {
    w := NoTasks;
    var r := headerRow + 1;
    while r < |grid|
      invariant headerRow + 1 <= r <= |grid|
      invariant w == WalkRows(grid, headerRow + 1, r, cols, date)
    {
      w := VisitRow(w, grid[r], cols, date);
      r := r + 1;
    }
  }

  // ---- The project built from the walk ----

  /** `avgProgress`: the mean progress of the dated tasks, 0 without any. */
  function Average(w: Walk): real {
    if w.taskCount > 0 then w.totalProgress / w.taskCount as real else 0.0
  }

  lemma AverageIsMean(w: Walk)
    requires WalkInvariant(w) && |w.tasks| > 0
    ensures Average(w) == Sum(w.tasks, Progress) / |w.tasks| as real
  {
  }

  function PlannedEnd(t: TaskData): Option<int> { t.plannedEnd }
  function StartOf(t: TaskData): Option<int> { t.startDate }
  function ActualEnd(t: TaskData): Option<int> { t.actualEnd }
  predicate AnyTask(t: TaskData) { true }
  predicate Finished(t: TaskData) { t.progress >= 99.0 }

  /** The truthy (present and non-zero) timestamps `pick` gives for the tasks that satisfy `need`. */
  function Times(ts: seq<TaskData>, pick: TaskData -> Option<int>, need: TaskData -> bool): (r: seq<int>)
    ensures |r| <= |ts|
  {
    if |ts| == 0 then []
    else
      var t := ts[|ts| - 1];
      Times(ts[..|ts| - 1], pick, need) + (if need(t) && pick(t).Some? && pick(t).value != 0 then [pick(t).value] else [])
  }

  /** A timestamp is collected exactly when some selected task has it. */
  lemma {:induction false} TimesMembers(ts: seq<TaskData>, pick: TaskData -> Option<int>, need: TaskData -> bool, x: int)
    ensures x in Times(ts, pick, need) <==> exists k :: 0 <= k < |ts| && need(ts[k]) && pick(ts[k]) == Some(x) && x != 0
  {
    if |ts| > 0 {
      var init := ts[..|ts| - 1];
      TimesMembers(init, pick, need, x);
      if exists k :: 0 <= k < |ts| && need(ts[k]) && pick(ts[k]) == Some(x) && x != 0 {
        var k :| 0 <= k < |ts| && need(ts[k]) && pick(ts[k]) == Some(x) && x != 0;
        if k < |init| {
          assert init[k] == ts[k];
        }
      }
      if exists k :: 0 <= k < |init| && need(init[k]) && pick(init[k]) == Some(x) && x != 0 {
        var k :| 0 <= k < |init| && need(init[k]) && pick(init[k]) == Some(x) && x != 0;
        assert ts[k] == init[k];
      }
    }
  }

  /** `${file}-${sheet}-${Date.now()}` with white-space runs turned into '_'. */
  function ProjectId(fileName: string, sheetName: string, stamp: int): (r: string)
    ensures forall k :: 0 <= k < |r| ==> !IsSpace(r[k])
    ensures r == UnderscoreSpaces(fileName) + "-" + UnderscoreSpaces(sheetName) + "-" + IntText(stamp)
  {
    var a, b, c := UnderscoreSpaces(fileName), UnderscoreSpaces(sheetName), IntText(stamp);
    IntTextNoSpace(stamp);
    JoinNoSpace(a, b, c);
    a + "-" + b + "-" + c
  }

  lemma JoinNoSpace(a: string, b: string, c: string)
    requires NoSpace(a) && NoSpace(b) && NoSpace(c)
    ensures NoSpace(a + "-" + b + "-" + c)
  {
    var r := a + "-" + b + "-" + c;
    forall k | 0 <= k < |r| ensures !IsSpace(r[k]) {
      if k < |a| {
        assert r[k] == a[k];
      } else if k == |a| {
        assert r[k] == '-';
      } else if k < |a| + 1 + |b| {
        assert r[k] == b[k - |a| - 1];
      } else if k == |a| + 1 + |b| {
        assert r[k] == '-';
      } else {
        assert r[k] == c[k - |a| - |b| - 2];
      }
    }
  }

  /** The project of a sheet whose task walk gave `w`; None when it has
      neither a planned end nor a saving. */
  function Assemble(info: HeaderInfo, description: string, w: Walk, sheetName: string, fileName: string, stamp: int, today: int): (r: Option<ProjectData>)
    requires WalkInvariant(w)
    ensures r.None? <==> |Times(w.tasks, PlannedEnd, AnyTask)| == 0 && info.saving == 0.0
    ensures r.Some? ==> (r.value.name == sheetName && r.value.tasks == w.tasks
                         && r.value.stageDurations == w.stages && r.value.saving == info.saving)
    ensures r.Some? ==> (r.value.status == Concluido <==> Average(w) >= 99.0)
    ensures r.Some? ==> (r.value.status == Atrasado <==>
      r.value.baselineDate.Some? && today > r.value.baselineDate.value && Average(w) < 99.0)
    ensures r.Some? ==> IsProjectStatus(r.value.status) && r.value.status != Cancelado
    ensures r.Some? && r.value.actualDate.Some? ==> r.value.status == Concluido
    ensures r.Some? ==> r.value.baselineDate == LatestOf(Times(w.tasks, PlannedEnd, AnyTask))
    ensures r.Some? ==> r.value.startDate == EarliestOf(Times(w.tasks, StartOf, AnyTask))
    ensures r.Some? ==> r.value.id == ProjectId(fileName, sheetName, stamp)
    ensures r.Some? ==> r.value.description == Some(description)
    ensures r.Some? ==> (r.value.factory == Some(info.factory) && r.value.squad == Some(info.squad)
                         && r.value.architect == Some(info.architect) && r.value.analyst == Some(info.analyst)
                         && r.value.developer == Some(info.developer))
    ensures r.Some? ==> r.value.technology.None? && r.value.burnupData.None?
  {
    var avg := Average(w);
    var baseline := LatestOf(Times(w.tasks, PlannedEnd, AnyTask));
    var start := EarliestOf(Times(w.tasks, StartOf, AnyTask));
    var isDone := avg >= 99.0;
    var actual := Times(w.tasks, ActualEnd, Finished);
    var actualDate := if isDone && |actual| > 0 then LatestOf(actual) else None;
    var isLate := baseline.Some? && today > baseline.value && !isDone;
    var status := EmptyTextStatus(avg, isLate);
    if baseline.None? && info.saving == 0.0 then None
    else
      Some(ProjectData(ProjectId(fileName, sheetName, stamp), sheetName, Some(description),
        start, baseline, actualDate, status, info.saving, w.tasks, w.stages,
        Some(info.factory), Some(info.squad), Some(info.architect), Some(info.analyst), Some(info.developer),
        None, None))
  }

  /** `normalizeStatus('', avgProgress, isLate)`, which EmptyStatusText shows it equals. */
  function EmptyTextStatus(completion: real, isLate: bool): Status {
    if completion >= 99.0 then Concluido else if isLate then Atrasado else if completion > 0.0 then EmAndamento else NaoIniciado
  }

  /** The status text passed in is empty, so only the completion and the lateness decide. */
  lemma EmptyStatusText(completion: real, isLate: bool)
    ensures NormalizeStatus("", completion, isLate) == EmptyTextStatus(completion, isLate)
  {
    assert Trim(Lower("")) == "";
    NotInEmpty("conclu");
    NotInEmpty("entregue");
    NotInEmpty("cancel");
    NotInEmpty("atrasado");
    NotInEmpty("bloqueado");
  }

  /** The baseline date is the latest truthy planned end of any task. */
  lemma BaselineIsLatest(info: HeaderInfo, description: string, w: Walk, sheetName: string, fileName: string, stamp: int, today: int, k: int)
    requires WalkInvariant(w)
    requires 0 <= k < |w.tasks| && w.tasks[k].plannedEnd.Some? && w.tasks[k].plannedEnd.value != 0
    ensures var r := Assemble(info, description, w, sheetName, fileName, stamp, today);
      r.Some? && r.value.baselineDate.Some? && w.tasks[k].plannedEnd.value <= r.value.baselineDate.value
  {
    var x := w.tasks[k].plannedEnd.value;
    TimesMembers(w.tasks, PlannedEnd, AnyTask, x);
    var planned := Times(w.tasks, PlannedEnd, AnyTask);
    var i :| 0 <= i < |planned| && planned[i] == x;
  }

  // ---- The sheet and the workbook ----

  /** parseProjectSheet. */
  function ProjectSheet(grid: Sheet, sheetName: string, fileName: string, dateParse: DateParser, stamp: int, today: int): (r: Option<ProjectData>)
    ensures |grid| < 5 ==> r.None?
    ensures HeaderRowIndex(grid) < 0 ==> r.None?
    ensures r.Some? ==> r.value.name == sheetName
    ensures r.Some? ==> r.value.description == Some(Description(grid)) && r.value.saving == HeaderScan(grid).saving
    ensures r.Some? ==> (r.value.factory == Some(HeaderScan(grid).factory) && r.value.squad == Some(HeaderScan(grid).squad)
                         && r.value.architect == Some(HeaderScan(grid).architect) && r.value.analyst == Some(HeaderScan(grid).analyst)
                         && r.value.developer == Some(HeaderScan(grid).developer))
  {
    if |grid| < 5 then None
    else
      var h := HeaderRowIndex(grid);
      if h < 0 then None
      else
        HeaderRowInGrid(grid);
        var cols := ColumnsOf(HeaderLabels(grid[h]));
        var w := WalkRows(grid, h + 1, |grid|, cols, ExcelDates(dateParse));
        Assemble(HeaderScan(grid), Description(grid), w, sheetName, fileName, stamp, today)
  }

  method ParseProjectSheet(grid: Sheet, sheetName: string, fileName: string, dateParse: DateParser, stamp: int, today: int)
    returns (project: Option<ProjectData>)
    ensures project == ProjectSheet(grid, sheetName, fileName, dateParse, stamp, today)
  {
    if |grid| < 5 {
      return None;
    }
    var description := Description(grid);
    var info := ScanHeader(grid);
    var h := FindHeaderRow(grid);
    if h == -1 {
      return None;
    }
    HeaderRowInGrid(grid);
    var cols := ColumnsOf(HeaderLabels(grid[h]));
    var w := WalkTable(grid, h, cols, ExcelDates(dateParse));
    project := Assemble(info, description, w, sheetName, fileName, stamp, today);
  }

  /** Names of auxiliary sheets, matched as parts of the lower-cased sheet name. */
  const SkippedSheets: seq<string> := ["feriados", "config", "instrucoes", "menu", "legendas", "historico", "capa"]

  function AnyContained(text: string, words: seq<string>): (b: bool)
    ensures b <==> exists i :: 0 <= i < |words| && Contains(text, words[i])
  {
    if |words| == 0 then false
    else if Contains(text, words[0]) then true
    else
      var b := AnyContained(text, words[1..]);
      assert forall i :: 1 <= i < |words| ==> words[i] == words[1..][i - 1];
      b
  }

  predicate Skipped(sheetName: string) {
    AnyContained(Lower(sheetName), SkippedSheets)
  }

  /** How the workbook loop turns one named sheet into a project. */
  type SheetParser = (string, Sheet) -> Option<ProjectData>

  /** parseProjectSheet for one upload: the file name, the date parser, the
      id stamp and today's date are shared by every sheet. */
  function SheetProjects(fileName: string, dateParse: DateParser, stamp: int, today: int): SheetParser {
    (name, grid) => ProjectSheet(grid, name, fileName, dateParse, stamp, today)
  }

  /** A project always carries the name of the sheet it came from. */
  ghost predicate KeepsName(parse: SheetParser) {
    forall name, grid :: parse(name, grid).Some? ==> parse(name, grid).value.name == name
  }

  lemma SheetProjectsKeepName(fileName: string, dateParse: DateParser, stamp: int, today: int)
    ensures KeepsName(SheetProjects(fileName, dateParse, stamp, today))
  {
  }

  /** The projects of a workbook, sheet by sheet in order, skipping auxiliary sheets. */
  function Workbook(sheets: seq<(string, Sheet)>, parse: SheetParser): (r: seq<ProjectData>)
    ensures |r| <= |sheets|
  {
    if |sheets| == 0 then []
    else
      var (name, grid) := sheets[|sheets| - 1];
      var prev := Workbook(sheets[..|sheets| - 1], parse);
      if Skipped(name) || parse(name, grid).None? then prev else prev + [parse(name, grid).value]
  }

  /** Every project comes from a sheet of the workbook that is not skipped. */
  lemma {:induction false} WorkbookSources(sheets: seq<(string, Sheet)>, parse: SheetParser)
    requires KeepsName(parse)
    ensures forall k :: 0 <= k < |Workbook(sheets, parse)| ==>
      !Skipped(Workbook(sheets, parse)[k].name) && exists i :: 0 <= i < |sheets| && sheets[i].0 == Workbook(sheets, parse)[k].name
  {
    if |sheets| > 0 {
      var init := sheets[..|sheets| - 1];
      WorkbookSources(init, parse);
      var prev := Workbook(init, parse);
      forall k | 0 <= k < |prev| ensures exists i :: 0 <= i < |sheets| && sheets[i].0 == prev[k].name {
        var i :| 0 <= i < |init| && init[i].0 == prev[k].name;
        assert sheets[i] == init[i];
      }
      var (name, grid) := sheets[|sheets| - 1];
      if !Skipped(name) && parse(name, grid).Some? {
        var r := Workbook(sheets, parse);
        assert r == prev + [parse(name, grid).value];
        assert r[|prev|].name == sheets[|sheets| - 1].0;
      }
    }
  }

  /** The sheet loop of parseExcelFile. */
  method ParseWorkbook(sheets: seq<(string, Sheet)>, fileName: string, dateParse: DateParser, stamp: int, today: int)
    returns (projects: seq<ProjectData>)
    ensures projects == Workbook(sheets, SheetProjects(fileName, dateParse, stamp, today))
  {
    ghost var parse := SheetProjects(fileName, dateParse, stamp, today);
    projects := [];
    var i := 0;
    while i < |sheets|
      invariant 0 <= i <= |sheets|
      invariant projects == Workbook(sheets[..i], parse)
    {
      var (name, grid) := sheets[i];
      assert sheets[..i + 1][..i] == sheets[..i];
      if !Skipped(name) {
        var project := ParseProjectSheet(grid, name, fileName, dateParse, stamp, today);
        assert project == parse(name, grid);
        if project.Some? {
          projects := projects + [project.value];
        }
      }
      i := i + 1;
    }
    assert sheets[..|sheets|] == sheets;
  }
}
