/** The rows of the Gantt charts of both front ends (dash_old/components/GanttChart.tsx
    and react-app/src/components/GanttChart.tsx). With one project in
    single-project mode the rows are its dated tasks (the second front end
    groups them under one header per phase); otherwise they are the
    projects with a start and a planned end. Every row then gets its offset
    from the earliest start and its length. */
module Gantt {
  import opened Options
  import opened Seqs
  import opened Text
  import opened JsNumbers
  import opened Domain
  import Calendar
  import opened Keywords

  /** A row's `status`: a project or task status, or the 'Header' of a phase. */
  datatype RowStatus = Is(status: Status) | Header

  /** A raw item. `phase` and `isPhaseHeader` are None where the source's
      object has no such field. */
  datatype Row = Row(
    name: string,
    subtitle: string,
    start: int,
    end: int,
    duration: real,
    progress: real,
    status: RowStatus,
    phase: Option<string>,
    isPhaseHeader: Option<bool>)

  /** A row with its transparent `placeholder` and visible `barSize`. */
  datatype Bar = Bar(row: Row, placeholder: int, barSize: int)

  /** A task's timestamp field is truthy when it is set and not 0. */
  predicate Stamped(t: Option<int>) {
    t.Some? && t.value != 0
  }

  /** `t.startDate && t.plannedEnd`. */
  predicate HasDates(t: TaskData) {
    Stamped(t.startDate) && Stamped(t.plannedEnd)
  }

  /** `t.progress === 100 ? 'Concluído' : 'Pendente'`. */
  function TaskStatus(progress: real): RowStatus {
    if progress == 100.0 then Is(Concluido) else Is(Pendente)
  }

  /** `s.split(' ')[0]`: the text before the first space. */
  function FirstWord(s: string): (r: string)
    ensures |r| <= |s| && r == s[..|r|]
    ensures ' ' !in r
    ensures |r| < |s| ==> s[|r|] == ' '
  {
    if |s| == 0 || s[0] == ' ' then "" else [s[0]] + FirstWord(s[1..])
  }

  /** The `parts` of a project's subtitle, in the order they are pushed. */
  function SubtitleParts(p: ProjectData): seq<string> {
    (if Present(p.squad) then [p.squad.value] else [])
    + (if Present(p.factory) then [p.factory.value] else [])
    + (if Present(p.developer) then ["Dev: " + FirstWord(p.developer.value)] else [])
    + (if Present(p.analyst) then ["AF: " + FirstWord(p.analyst.value)] else [])
    + (if Present(p.architect) then ["Arq: " + FirstWord(p.architect.value)] else [])
  }

  function Subtitle(p: ProjectData): string {
    Join(SubtitleParts(p), " • ")
  }

  /** Joining non-empty parts gives the empty text only for no parts. */
  lemma {:induction false} JoinEmpty(parts: seq<string>, sep: string)
    requires forall i :: 0 <= i < |parts| ==> parts[i] != ""
    ensures Join(parts, sep) == "" <==> |parts| == 0
  {
    if |parts| > 1 {
      assert |Join(parts, sep)| >= |parts[0]|;
    }
  }

  /** The subtitle is empty exactly when none of the five team fields is filled. */
  lemma SubtitleEmpty(p: ProjectData)
    ensures Subtitle(p) == "" <==>
      !Present(p.squad) && !Present(p.factory) && !Present(p.developer) && !Present(p.analyst) && !Present(p.architect)
  {
    var parts := SubtitleParts(p);
    assert forall i :: 0 <= i < |parts| ==> parts[i] != "" by {
      forall i | 0 <= i < |parts| ensures parts[i] != "" {
        assert parts[i] in parts;
      }
    }
    JoinEmpty(parts, " • ");
  }

  /** A task row of the first front end. The `!` of the source is sound because only dated tasks are mapped. */
  function OldTaskRow(t: TaskData): Row {
    Row(t.name, "", t.startDate.GetOr(0), t.plannedEnd.GetOr(0), t.duration, t.progress, TaskStatus(t.progress), None, None)
  }

  /** `p.startDate && p.baselineDate`. */
  predicate HasSpan(p: ProjectData) {
    p.startDate.Some? && p.baselineDate.Some?
  }

  /** A project row; the second front end adds `isPhaseHeader: false`. */
  function ProjectRow(p: ProjectData, isPhaseHeader: Option<bool>): Row {
    Row(p.name, Subtitle(p), p.startDate.GetOr(0), p.baselineDate.GetOr(0), 0.0,
        if p.status == Concluido then 100.0 else 0.0, Is(p.status), None, isPhaseHeader)
  }

  function OldProjectRow(p: ProjectData): Row {
    ProjectRow(p, None)
  }

  function RowStart(r: Row): int { r.start }
  function RowEnd(r: Row): int { r.end }
  function RowDuration(r: Row): real { r.duration }

  /** The last `map` of both charts: offsets from the earliest start, and lengths. */
  function Offsets(raw: seq<Row>): (r: seq<Bar>)
    ensures |r| == |raw|
    ensures forall i :: 0 <= i < |r| ==> r[i].row == raw[i] && r[i].barSize == raw[i].end - raw[i].start
    ensures forall i :: 0 <= i < |r| ==> r[i].placeholder >= 0
    ensures forall i, j :: 0 <= i < |r| && 0 <= j < |r| ==> r[i].placeholder - r[j].placeholder == raw[i].start - raw[j].start
    ensures |raw| > 0 ==> exists i :: 0 <= i < |r| && r[i].placeholder == 0
  {
    if |raw| == 0 then []
    else
      var starts := Map(raw, RowStart);
      var m := MinOf(starts);
      var k :| 0 <= k < |starts| && starts[k] == m;
      var r := Map(raw, (x: Row) => Bar(x, x.start - m, x.end - x.start));
      assert r[k].placeholder == 0;
      r
  }

  /** The first front end's raw items. */
  function OldRawItems(ps: seq<ProjectData>, singleProjectMode: bool): seq<Row> {
    if singleProjectMode && |ps| == 1 then Map(Filter(ps[0].tasks, HasDates), OldTaskRow)
    else Map(Filter(ps, HasSpan), OldProjectRow)
  }

  function BarStart(b: Bar): int { b.row.start }

  /** The first front end's `chartData`: the bars sorted by start. */
  function OldChartData(ps: seq<ProjectData>, singleProjectMode: bool): seq<Bar> {
    if |ps| == 0 then [] else SortBy(Offsets(OldRawItems(ps, singleProjectMode)), BarStart)
  }

  /** The first front end's chart: one bar per kept item, sorted by start
      (stable for equal starts), the earliest with offset 0. */
  lemma OldChart(ps: seq<ProjectData>, singleProjectMode: bool, k: int)
    ensures |ps| == 0 ==> OldChartData(ps, singleProjectMode) == []
    ensures |ps| > 0 ==> var bars := Offsets(OldRawItems(ps, singleProjectMode));
      multiset(OldChartData(ps, singleProjectMode)) == multiset(bars)
      && Filter(OldChartData(ps, singleProjectMode), HasKey(BarStart, k)) == Filter(bars, HasKey(BarStart, k))
    ensures SortedBy(OldChartData(ps, singleProjectMode), BarStart)
    ensures forall i :: 0 <= i < |OldChartData(ps, singleProjectMode)| ==> OldChartData(ps, singleProjectMode)[i].placeholder >= 0
    ensures |OldChartData(ps, singleProjectMode)| > 0 ==> OldChartData(ps, singleProjectMode)[0].placeholder == 0
  {
    if |ps| > 0 {
      var raw := OldRawItems(ps, singleProjectMode);
      SortedOffsets(raw, k);
    }
  }

  /** The bars of any rows, sorted by start. */
  lemma SortedOffsets(raw: seq<Row>, k: int)
    ensures var bars := Offsets(raw); var c := SortBy(bars, BarStart);
      SortedBy(c, BarStart) && multiset(c) == multiset(bars)
      && Filter(c, HasKey(BarStart, k)) == Filter(bars, HasKey(BarStart, k))
      && (forall i :: 0 <= i < |c| ==> c[i].placeholder >= 0)
      && (|c| > 0 ==> c[0].placeholder == 0)
  {
    var bars := Offsets(raw);
    var c := SortBy(bars, BarStart);
    SortByStable(bars, BarStart, k);
    forall i | 0 <= i < |c| ensures c[i].placeholder >= 0 {
      assert c[i] in multiset(bars);
    }
    if |c| > 0 {
      EarliestFirst(bars, c);
    }
  }

  /** Sorting the bars by start puts one with offset 0 first. */
  lemma EarliestFirst(bars: seq<Bar>, c: seq<Bar>)
    requires |bars| > 0 && multiset(c) == multiset(bars) && SortedBy(c, BarStart)
    requires forall i :: 0 <= i < |bars| ==> bars[i].placeholder >= 0
    requires forall i, j :: 0 <= i < |bars| && 0 <= j < |bars| ==>
      bars[i].placeholder - bars[j].placeholder == bars[i].row.start - bars[j].row.start
    requires exists i :: 0 <= i < |bars| && bars[i].placeholder == 0
    ensures c[0].placeholder == 0
  {
    var z :| 0 <= z < |bars| && bars[z].placeholder == 0;
    assert bars[z] in multiset(c);
    var zc :| 0 <= zc < |c| && c[zc] == bars[z];
    assert c[0] in multiset(bars);
    var f :| 0 <= f < |bars| && bars[f] == c[0];
    assert BarStart(c[0]) <= BarStart(c[zc]);
    assert bars[f].placeholder - bars[z].placeholder == bars[f].row.start - bars[z].row.start;
  }

  /** The phase detection table's labels and `phaseOrder`. */
  const PhaseOrder: seq<string> := ["Discovery", "Desenvolvimento", "Homologação", "Implantação", "Delivery", "Outras"]

  /** The phase of a task: the label of the first key its upper-cased name contains, else 'Outras'. */
  function TaskPhase(t: TaskData): string {
    FirstMatch(PhaseKeywords, Upper(t.name)).GetOr("Outras")
  }

  lemma PhaseLabelsOrdered()
    ensures forall i :: 0 <= i < |PhaseKeywords| ==> PhaseKeywords[i].1 in PhaseOrder
  {
  }

  /** Every detected phase has a place in `phaseOrder`. */
  lemma TaskPhaseOrdered(t: TaskData)
    ensures TaskPhase(t) in PhaseOrder
  {
    PhaseLabelsOrdered();
  }

  lemma PhaseOrderDistinct()
    ensures forall i, j :: 0 <= i < j < |PhaseOrder| ==> PhaseOrder[i] != PhaseOrder[j]
  {
  }

  /** The phase loop: the `for ... of` over the table that stops at the first key found. */
  method DetectPhase(t: TaskData) returns (phase: string)
    ensures phase == TaskPhase(t)
  {
    var upperName := Upper(t.name);
    phase := "Outras";
    var found := FindLabel(PhaseKeywords, upperName);
    if found.Some? {
      phase := found.value;
    }
  }

  /** `t.duration || 0`, and when that is 0 the whole days from start to planned end, rounded up. */
  function TaskDays(t: TaskData): real {
    if t.duration != 0.0 then t.duration
    else Ceil((t.plannedEnd.GetOr(0) - t.startDate.GetOr(0)) as real / Calendar.DayMs as real) as real
  }

  /** A dated task as the second front end maps it. */
  function PhasedRow(t: TaskData): Row {
    Row(t.name, "", t.startDate.GetOr(0), t.plannedEnd.GetOr(0), TaskDays(t), t.progress,
        TaskStatus(t.progress), Some(TaskPhase(t)), None)
  }

  /** `tasksWithPhase`. */
  function TasksWithPhase(ts: seq<TaskData>): seq<Row> {
    Map(Filter(ts, HasDates), PhasedRow)
  }

  /** The `.filter(...).map(...)` that builds `tasksWithPhase`. */
  method PhaseTasks(ts: seq<TaskData>) returns (items: seq<Row>)
    ensures items == TasksWithPhase(ts)
  {
    var dated := Filter(ts, HasDates);
    items := [];
    var j := 0;
    while j < |dated|
      invariant 0 <= j <= |dated|
      invariant items == Map(dated[..j], PhasedRow)
    {
      var t := dated[j];
      var phase := DetectPhase(t);
      var row := Row(t.name, "", t.startDate.GetOr(0), t.plannedEnd.GetOr(0), TaskDays(t), t.progress,
                     TaskStatus(t.progress), Some(phase), None);
      assert row == PhasedRow(t);
      MapPrefix(dated, j, PhasedRow);
      items := items + [row];
      j := j + 1;
    }
    assert dated[..|dated|] == dated;
  }

  /** The rows of phase `ph`. */
  function InPhase(ph: string): Row -> bool {
    (r: Row) => r.phase == Some(ph)
  }

  /** A phase header: earliest start, latest end, total duration. */
  function PhaseHeader(g: seq<Row>, ph: string): (h: Row)
    requires |g| > 0
    ensures h.status == Header && h.isPhaseHeader == Some(true) && h.phase == Some(ph)
    ensures forall i :: 0 <= i < |g| ==> h.start <= g[i].start && g[i].end <= h.end
    ensures (exists i :: 0 <= i < |g| && h.start == g[i].start) && (exists i :: 0 <= i < |g| && h.end == g[i].end)
    ensures h.duration == Sum(g, RowDuration)
  {
    var starts, ends := Map(g, RowStart), Map(g, RowEnd);
    var lo, hi := MinOf(starts), MaxOf(ends);
    var a :| 0 <= a < |g| && starts[a] == lo;
    var b :| 0 <= b < |g| && ends[b] == hi;
    Row("● " + Upper(ph), "", lo, hi, Sum(g, RowDuration), 0.0, Header, Some(ph), Some(true))
  }

  /** A task under its header: `{...task, name: '  └─ ' + name, isPhaseHeader: false}`. */
  function Child(r: Row): Row {
    r.(name := "  └─ " + r.name, isPhaseHeader := Some(false))
  }

  predicate IsChild(r: Row) {
    r.isPhaseHeader == Some(false)
  }

  /** The items pushed for one phase: nothing for no tasks, otherwise the header and then the tasks. */
  function Section(g: seq<Row>, ph: string): seq<Row> {
    if |g| == 0 then [] else [PhaseHeader(g, ph)] + Map(g, Child)
  }

  /** The items pushed for the phases `phs`, in order. */
  function Sections(items: seq<Row>, phs: seq<string>): seq<Row> {
    if |phs| == 0 then []
    else Sections(items, phs[..|phs| - 1]) + Section(Filter(items, InPhase(phs[|phs| - 1])), phs[|phs| - 1])
  }

  /** `groupedItems`. */
  function Grouped(items: seq<Row>): seq<Row> {
    Sections(items, PhaseOrder)
  }

  /** `phaseGroups[ph]`, with a missing key read as no tasks. */
  function GroupOf(groups: map<string, seq<Row>>, ph: string): seq<Row> {
    if ph in groups then groups[ph] else []
  }

  /** The `forEach` that fills `phaseGroups`. */
  method GroupByPhase(items: seq<Row>) returns (groups: map<string, seq<Row>>)
    requires forall i :: 0 <= i < |items| ==> items[i].phase.Some?
    ensures forall ph :: GroupOf(groups, ph) == Filter(items, InPhase(ph))
    ensures forall ph :: ph in groups ==> |groups[ph]| > 0
  {
    groups := map[];
    var i := 0;
    while i < |items|
      invariant 0 <= i <= |items|
      invariant forall ph :: GroupOf(groups, ph) == Filter(items[..i], InPhase(ph))
      invariant forall ph :: ph in groups ==> |groups[ph]| > 0
    {
      groups := GroupTask(items, i, groups);
      i := i + 1;
    }
    assert items[..|items|] == items;
  }

  /** The `forEach` body: append the task to its phase's array, creating it if missing. */
  method GroupTask(items: seq<Row>, i: nat, groups: map<string, seq<Row>>) returns (next: map<string, seq<Row>>)
    requires i < |items| && items[i].phase.Some?
    requires forall ph :: GroupOf(groups, ph) == Filter(items[..i], InPhase(ph))
    requires forall ph :: ph in groups ==> |groups[ph]| > 0
    ensures forall ph :: GroupOf(next, ph) == Filter(items[..i + 1], InPhase(ph))
    ensures forall ph :: ph in next ==> |next[ph]| > 0
  {
    var task := items[i];
    var key := task.phase.value;
    next := groups;
    if key !in next {
      next := next[key := []];
    }
    next := next[key := next[key] + [task]];
    assert items[..i + 1] == items[..i] + [task];
    forall ph ensures GroupOf(next, ph) == Filter(items[..i + 1], InPhase(ph)) {
      FilterSnoc(items[..i], task, InPhase(ph));
      if ph == key {
        assert GroupOf(next, ph) == GroupOf(groups, ph) + [task];
      } else {
        assert GroupOf(next, ph) == GroupOf(groups, ph);
      }
    }
  }

  /** The `phaseOrder.forEach` that builds `groupedItems`. */
  method BuildGrouped(items: seq<Row>) returns (grouped: seq<Row>)
    requires forall i :: 0 <= i < |items| ==> items[i].phase.Some?
    ensures grouped == Grouped(items)
  {
    var groups := GroupByPhase(items);
    grouped := [];
    var k := 0;
    while k < |PhaseOrder|
      invariant 0 <= k <= |PhaseOrder|
      invariant grouped == Sections(items, PhaseOrder[..k])
    {
      grouped := NextSection(items, groups, k, grouped);
      k := k + 1;
    }
    assert PhaseOrder[..|PhaseOrder|] == PhaseOrder;
  }

  /** One turn of the `phaseOrder.forEach`. */
  method NextSection(items: seq<Row>, groups: map<string, seq<Row>>, k: int, grouped: seq<Row>) returns (next: seq<Row>)
    requires 0 <= k < |PhaseOrder|
    requires GroupOf(groups, PhaseOrder[k]) == Filter(items, InPhase(PhaseOrder[k]))
    requires grouped == Sections(items, PhaseOrder[..k])
    ensures next == Sections(items, PhaseOrder[..k + 1])
  {
    var phaseName := PhaseOrder[k];
    var tasks := GroupOf(groups, phaseName);
    SectionsStep(items, PhaseOrder, k);
    if |tasks| > 0 {
      next := PushSection(grouped, tasks, phaseName);
    } else {
      next := grouped;
      assert grouped + Section(tasks, phaseName) == grouped;
    }
  }

  lemma SectionsStep(items: seq<Row>, phs: seq<string>, k: int)
    requires 0 <= k < |phs|
    ensures Sections(items, phs[..k + 1]) == Sections(items, phs[..k]) + Section(Filter(items, InPhase(phs[k])), phs[k])
  {
    assert phs[..k + 1][..k] == phs[..k];
  }

  /** The header push and the `tasks.forEach` under it. */
  method PushSection(grouped: seq<Row>, tasks: seq<Row>, phaseName: string) returns (next: seq<Row>)
    requires |tasks| > 0
    ensures next == grouped + Section(tasks, phaseName)
  {
    var header := PhaseHeader(tasks, phaseName);
    next := grouped + [header];
    var j := 0;
    while j < |tasks|
      invariant 0 <= j <= |tasks|
      invariant next == grouped + [header] + Map(tasks[..j], Child)
    {
      MapPrefix(tasks, j, Child);
      next := next + [Child(tasks[j])];
      j := j + 1;
    }
    assert tasks[..|tasks|] == tasks;
    SectionSplit(grouped, tasks, phaseName);
  }

  lemma SectionSplit(grouped: seq<Row>, tasks: seq<Row>, phaseName: string)
    requires |tasks| > 0
    ensures grouped + Section(tasks, phaseName) == grouped + [PhaseHeader(tasks, phaseName)] + Map(tasks, Child)
  {
    var header, kids := PhaseHeader(tasks, phaseName), Map(tasks, Child);
    assert Section(tasks, phaseName) == [header] + kids;
    ConcatAssoc(grouped, [header], kids);
  }

  /** The number of items with phase among `phs`, phase by phase. */
  function PhaseTotal(items: seq<Row>, phs: seq<string>): nat {
    if |phs| == 0 then 0 else PhaseTotal(items, phs[..|phs| - 1]) + Count(items, InPhase(phs[|phs| - 1]))
  }

  /** Under the headers, the sections hold exactly the tasks of their phases. */
  lemma {:induction false} SectionsChildren(items: seq<Row>, phs: seq<string>)
    ensures |Filter(Sections(items, phs), IsChild)| == PhaseTotal(items, phs)
  {
    if |phs| > 0 {
      var init, ph := phs[..|phs| - 1], phs[|phs| - 1];
      SectionsChildren(items, init);
      var g := Filter(items, InPhase(ph));
      FilterAppend(Sections(items, init), Section(g, ph), IsChild);
      SectionChildren(g, ph);
    }
  }

  /** The children of one section are its tasks, renamed, in order. */
  lemma SectionChildren(g: seq<Row>, ph: string)
    ensures Filter(Section(g, ph), IsChild) == Map(g, Child)
  {
    if |g| > 0 {
      var kids := Map(g, Child);
      assert Section(g, ph) == [PhaseHeader(g, ph)] + kids;
      FilterAppend([PhaseHeader(g, ph)], kids, IsChild);
      FilterAll(kids, IsChild);
      assert Filter([PhaseHeader(g, ph)], IsChild) == [] by {
        assert [PhaseHeader(g, ph)][..0] == [];
      }
    }
  }

  /** One more item adds one to the total of the phase list holding its phase. */
  lemma {:induction false} PhaseTotalSnoc(items: seq<Row>, r: Row, phs: seq<string>)
    requires forall i, j :: 0 <= i < j < |phs| ==> phs[i] != phs[j]
    ensures PhaseTotal(items + [r], phs) == PhaseTotal(items, phs) + (if r.phase.Some? && r.phase.value in phs then 1 else 0)
  {
    if |phs| > 0 {
      var init, ph := phs[..|phs| - 1], phs[|phs| - 1];
      PhaseTotalSnoc(items, r, init);
      CountAppend(items, [r], InPhase(ph));
      assert Count([r], InPhase(ph)) == (if r.phase == Some(ph) then 1 else 0) by {
        assert [r][..0] == [];
      }
      assert r.phase.Some? && r.phase.value in phs <==> (r.phase.Some? && r.phase.value in init) || r.phase == Some(ph) by {
        assert phs == init + [ph];
      }
      assert !(r.phase == Some(ph) && r.phase.value in init);
    }
  }

  /** When every phase is listed once, the totals count every item. */
  lemma {:induction false} PhaseTotalAll(items: seq<Row>, phs: seq<string>)
    requires forall i, j :: 0 <= i < j < |phs| ==> phs[i] != phs[j]
    requires forall i :: 0 <= i < |items| ==> items[i].phase.Some? && items[i].phase.value in phs
    ensures PhaseTotal(items, phs) == |items|
  {
    if |items| == 0 {
      PhaseTotalEmpty(phs);
    } else {
      var init := items[..|items| - 1];
      PhaseTotalAll(init, phs);
      PhaseTotalSnoc(init, items[|items| - 1], phs);
      assert init + [items[|items| - 1]] == items;
    }
  }

  lemma {:induction false} PhaseTotalEmpty(phs: seq<string>)
    ensures PhaseTotal([], phs) == 0
  {
    if |phs| > 0 {
      PhaseTotalEmpty(phs[..|phs| - 1]);
    }
  }

  /** A section opens with its phase's header, and every row after it is a
      renamed task of that phase. */
  lemma SectionUnderHeader(items: seq<Row>, ph: string)
    ensures var s := Section(Filter(items, InPhase(ph)), ph);
      |s| > 0 ==>
        (s[0].isPhaseHeader == Some(true) && s[0].phase == Some(ph)
         && forall i :: 1 <= i < |s| ==> IsChild(s[i]) && s[i].phase == Some(ph))
  {
    var g := Filter(items, InPhase(ph));
    if |g| > 0 {
      var s, kids := Section(g, ph), Map(g, Child);
      assert s[1..] == kids;
      ChildrenOfPhase(g, ph);
      forall i | 1 <= i < |s| ensures IsChild(s[i]) && s[i].phase == Some(ph) {
        assert s[i] == kids[i - 1];
      }
    }
  }

  lemma ChildrenOfPhase(g: seq<Row>, ph: string)
    requires forall i :: 0 <= i < |g| ==> InPhase(ph)(g[i])
    ensures forall i :: 0 <= i < |g| ==> IsChild(Map(g, Child)[i]) && Map(g, Child)[i].phase == Some(ph)
  {
  }

  /** The images under `f` of the items of the phases `phs`, as a multiset,
      phase by phase; with `f` = Child, the children the sections hold. */
  function PhaseImages(items: seq<Row>, phs: seq<string>, f: Row -> Row): multiset<Row> {
    if |phs| == 0 then multiset{}
    else PhaseImages(items, phs[..|phs| - 1], f) + multiset(Map(Filter(items, InPhase(phs[|phs| - 1])), f))
  }

  /** Under the headers, the sections hold exactly the renamed tasks of their phases. */
  lemma {:induction false} SectionsChildBag(items: seq<Row>, phs: seq<string>)
    ensures multiset(Filter(Sections(items, phs), IsChild)) == PhaseImages(items, phs, Child)
  {
    if |phs| > 0 {
      var init, ph := phs[..|phs| - 1], phs[|phs| - 1];
      SectionsChildBag(items, init);
      var g := Filter(items, InPhase(ph));
      FilterAppend(Sections(items, init), Section(g, ph), IsChild);
      SectionChildren(g, ph);
    }
  }

  /** One more item adds its image to the images of its own phase. */
  lemma InPhaseSnoc(items: seq<Row>, r: Row, ph: string, f: Row -> Row)
    ensures multiset(Map(Filter(items + [r], InPhase(ph)), f))
      == multiset(Map(Filter(items, InPhase(ph)), f)) + (if r.phase == Some(ph) then multiset{f(r)} else multiset{})
  {
    var g := Filter(items, InPhase(ph));
    FilterSnoc(items, r, InPhase(ph));
    if r.phase == Some(ph) {
      MapSnoc(g, r, f);
    } else {
      assert Filter(items + [r], InPhase(ph)) == g;
    }
  }

  /** One more item adds its image to the images of the phase list holding its phase. */
  lemma {:induction false} PhaseImagesSnoc(items: seq<Row>, r: Row, phs: seq<string>, f: Row -> Row)
    requires forall i, j :: 0 <= i < j < |phs| ==> phs[i] != phs[j]
    ensures PhaseImages(items + [r], phs, f)
      == PhaseImages(items, phs, f) + (if r.phase.Some? && r.phase.value in phs then multiset{f(r)} else multiset{})
  {
    if |phs| > 0 {
      var init, ph := phs[..|phs| - 1], phs[|phs| - 1];
      PhaseImagesSnoc(items, r, init, f);
      InPhaseSnoc(items, r, ph, f);
      LastPhase(phs, r.phase);
    }
  }

  /** In a list of distinct phases, a phase is listed exactly when it is the
      last one or listed before it, and not both. */
  lemma LastPhase(phs: seq<string>, phase: Option<string>)
    requires |phs| > 0
    requires forall i, j :: 0 <= i < j < |phs| ==> phs[i] != phs[j]
    ensures var init, ph := phs[..|phs| - 1], phs[|phs| - 1];
      (phase.Some? && phase.value in phs) == ((phase.Some? && phase.value in init) || phase == Some(ph))
      && !(phase.Some? && phase.value in init && phase == Some(ph))
  {
    var init, ph := phs[..|phs| - 1], phs[|phs| - 1];
    assert phs == init + [ph];
    forall i | 0 <= i < |init| ensures init[i] != ph {
      assert init[i] == phs[i];
    }
  }

  lemma {:induction false} PhaseImagesEmpty(phs: seq<string>, f: Row -> Row)
    ensures PhaseImages([], phs, f) == multiset{}
  {
    if |phs| > 0 {
      PhaseImagesEmpty(phs[..|phs| - 1], f);
    }
  }

  /** When every phase is listed once, the images are those of all the items. */
  lemma {:induction false} PhaseImagesAll(items: seq<Row>, phs: seq<string>, f: Row -> Row)
    requires forall i, j :: 0 <= i < j < |phs| ==> phs[i] != phs[j]
    requires forall i :: 0 <= i < |items| ==> items[i].phase.Some? && items[i].phase.value in phs
    ensures PhaseImages(items, phs, f) == multiset(Map(items, f))
  {
    if |items| == 0 {
      PhaseImagesEmpty(phs, f);
    } else {
      var init, last := items[..|items| - 1], items[|items| - 1];
      PhaseImagesAll(init, phs, f);
      assert init + [last] == items;
      PhaseImagesSnoc(init, last, phs, f);
      MapSnoc(init, last, f);
    }
  }

  /** Renaming under a header loses nothing from a task row, which has no `isPhaseHeader`. */
  lemma ChildInjective(a: Row, b: Row)
    requires a.isPhaseHeader.None? && b.isPhaseHeader.None?
    ensures Child(a) == Child(b) <==> a == b
  {
    if Child(a) == Child(b) {
      var prefix := "  └─ ";
      assert (prefix + a.name)[|prefix|..] == a.name;
      assert (prefix + b.name)[|prefix|..] == b.name;
    }
  }

  /** An element that `f` maps apart from all others occurs among the images
      as often as among the elements. */
  lemma {:induction false} ImageMultiplicity<T, U>(items: seq<T>, x: T, f: T -> U)
    requires forall i :: 0 <= i < |items| ==> (f(items[i]) == f(x) <==> items[i] == x)
    ensures multiset(Map(items, f))[f(x)] == multiset(items)[x]
  {
    if |items| > 0 {
      var init, last := items[..|items| - 1], items[|items| - 1];
      ImageMultiplicity(init, x, f);
      assert init + [last] == items;
      MapSnoc(init, last, f);
    }
  }

  /** Grouping by phase loses and duplicates no dated task: the rows under
      the headers are the rows of `tasksWithPhase`, renamed, with the same
      multiplicities. */
  lemma GroupedKeepsTasks(ts: seq<TaskData>)
    ensures multiset(Filter(Grouped(TasksWithPhase(ts)), IsChild)) == multiset(Map(TasksWithPhase(ts), Child))
    ensures |Filter(Grouped(TasksWithPhase(ts)), IsChild)| == |Filter(ts, HasDates)|
  {
    var items := TasksWithPhase(ts);
    forall i | 0 <= i < |items| ensures items[i].phase.Some? && items[i].phase.value in PhaseOrder {
      TaskPhaseOrdered(Filter(ts, HasDates)[i]);
    }
    PhaseOrderDistinct();
    SectionsChildBag(items, PhaseOrder);
    PhaseImagesAll(items, PhaseOrder, Child);
    SectionsChildren(items, PhaseOrder);
    PhaseTotalAll(items, PhaseOrder);
  }

  /** Every dated task appears under a header exactly as often as it does in
      `tasksWithPhase`: once, for a task met once. */
  lemma GroupedTaskCount(ts: seq<TaskData>, x: Row)
    requires x.isPhaseHeader.None?
    ensures multiset(Filter(Grouped(TasksWithPhase(ts)), IsChild))[Child(x)] == multiset(TasksWithPhase(ts))[x]
  {
    var items := TasksWithPhase(ts);
    GroupedKeepsTasks(ts);
    forall i | 0 <= i < |items| ensures Child(items[i]) == Child(x) <==> items[i] == x {
      ChildInjective(items[i], x);
    }
    ImageMultiplicity(items, x, Child);
  }

  /** The number of phases among `phs` that hold at least one item. */
  function NonEmptyPhases(items: seq<Row>, phs: seq<string>): nat {
    if |phs| == 0 then 0
    else NonEmptyPhases(items, phs[..|phs| - 1]) + (if Count(items, InPhase(phs[|phs| - 1])) > 0 then 1 else 0)
  }

  /** Each non-empty phase adds one header row to its tasks. */
  lemma {:induction false} SectionsLength(items: seq<Row>, phs: seq<string>)
    ensures |Sections(items, phs)| == PhaseTotal(items, phs) + NonEmptyPhases(items, phs)
  {
    if |phs| > 0 {
      SectionsLength(items, phs[..|phs| - 1]);
    }
  }

  /** The grouped list holds one row per dated task plus one header per non-empty phase. */
  lemma GroupedLength(ts: seq<TaskData>)
    ensures |Grouped(TasksWithPhase(ts))| == |Filter(ts, HasDates)| + NonEmptyPhases(TasksWithPhase(ts), PhaseOrder)
  {
    var items := TasksWithPhase(ts);
    forall i | 0 <= i < |items| ensures items[i].phase.Some? && items[i].phase.value in PhaseOrder {
      TaskPhaseOrdered(Filter(ts, HasDates)[i]);
    }
    PhaseOrderDistinct();
    SectionsLength(items, PhaseOrder);
    PhaseTotalAll(items, PhaseOrder);
  }

  /** `!p.burnupData`: projects carried only by a burnup table are left out. */
  predicate IsGanttProject(p: ProjectData) {
    p.startDate.Some? && p.baselineDate.Some? && p.burnupData.None?
  }

  function GlobalRow(p: ProjectData): Row {
    ProjectRow(p, Some(false))
  }

  /** The second front end's raw items. */
  function RawItems(ps: seq<ProjectData>, singleProjectMode: bool): seq<Row> {
    if singleProjectMode && |ps| == 1 then Grouped(TasksWithPhase(ps[0].tasks))
    else Map(Filter(ps, IsGanttProject), GlobalRow)
  }

  /** The second front end's `chartData`: the raw items with their offsets, unsorted. */
  function ChartData(ps: seq<ProjectData>, singleProjectMode: bool): seq<Bar> {
    if |ps| == 0 then [] else Offsets(RawItems(ps, singleProjectMode))
  }

  /** The `useMemo` body of the second front end's chart. */
  method GanttChartData(ps: seq<ProjectData>, singleProjectMode: bool) returns (r: seq<Bar>)
    ensures r == ChartData(ps, singleProjectMode)
  {
    if |ps| == 0 {
      return [];
    }
    var rawItems: seq<Row>;
    if singleProjectMode && |ps| == 1 {
      var tasksWithPhase := PhaseTasks(ps[0].tasks);
      rawItems := BuildGrouped(tasksWithPhase);
    } else {
      rawItems := Map(Filter(ps, IsGanttProject), GlobalRow);
    }
    if |rawItems| == 0 {
      return [];
    }
    r := Offsets(rawItems);
  }
}
