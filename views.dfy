/** The first front end's roadmap list (dash_old/components/RoadmapTimeline.tsx):
    the projects sorted by delivery date, undated ones last, and the first
    fifteen of them. */
module RoadmapTimeline {
  import opened Seqs
  import opened Domain

  /** `new Date(2099, 0, 1).getTime()`, taken at UTC. */
  const FarFuture: int := 4070908800000

  /** `a.actualDate || a.baselineDate || new Date(2099, 0, 1)`. */
  function DeliveryKey(p: ProjectData): int {
    if p.actualDate.Some? then p.actualDate.value
    else if p.baselineDate.Some? then p.baselineDate.value
    else FarFuture
  }

  /** `sortedData`: a sorted copy; the list passed in is a value and stays as it was. */
  function SortedData(data: seq<ProjectData>): seq<ProjectData> {
    SortBy(data, DeliveryKey)
  }

  /** `displayData`: the first fifteen of the sorted list. */
  function DisplayData(data: seq<ProjectData>): seq<ProjectData> {
    var s := SortedData(data);
    s[..Min(15, |s|)]
  }

  /** The roadmap is a permutation of the projects, ordered by delivery date, stable for equal
      dates, and the shown list is its first min(15, n) entries. */
  lemma Roadmap(data: seq<ProjectData>, k: int)
    ensures multiset(SortedData(data)) == multiset(data) && SortedBy(SortedData(data), DeliveryKey)
    ensures Filter(SortedData(data), HasKey(DeliveryKey, k)) == Filter(data, HasKey(DeliveryKey, k))
    ensures |DisplayData(data)| == Min(15, |data|)
    ensures DisplayData(data) == SortedData(data)[..|DisplayData(data)|]
  {
    SortByStable(data, DeliveryKey, k);
  }

  /** A project delivered (or due) before 2099 is listed before every undated project. */
  lemma UndatedLast(data: seq<ProjectData>, i: int, j: int)
    requires 0 <= i < |SortedData(data)| && 0 <= j < |SortedData(data)|
    requires DeliveryKey(SortedData(data)[i]) < FarFuture
    requires SortedData(data)[j].actualDate.None? && SortedData(data)[j].baselineDate.None?
    ensures i < j
  {
  }

  /** The width of a project's progress bar, in percent. */
  function ProgressWidth(s: Status): (w: int)
    ensures w == 100 <==> s == Concluido
    ensures w == 100 || w == 50
  {
    if s == Concluido then 100 else 50
  }
}

/** The first front end's squad view (dash_old/components/SquadView.tsx):
    the projects grouped by upper-cased squad, the groups in the comparator's
    order with 'SEM SQUAD' last. */
module SquadView {
  import opened Seqs
  import opened Text
  import opened Domain

  const NoSquad: string := "SEM SQUAD"

  /** `project.squad ? project.squad.toUpperCase() : 'SEM SQUAD'`. */
  function SquadName(p: ProjectData): string {
    if Present(p.squad) then Upper(p.squad.value) else NoSquad
  }

  function InGroup(name: string): ProjectData -> bool {
    (p: ProjectData) => SquadName(p) == name
  }

  /** The keys of `groups` in insertion order. */
  function Keys(data: seq<ProjectData>): seq<string> {
    Distinct(Map(data, SquadName))
  }

  /** The dictionary after the `forEach`: a group for each key seen, holding its projects in order. */
  ghost predicate IsGrouping(data: seq<ProjectData>, order: seq<string>, groups: map<string, seq<ProjectData>>) {
    order == Keys(data)
    && (forall k :: k in groups <==> k in order)
    && (forall k :: k in groups ==> groups[k] == Filter(data, InGroup(k)))
  }

  /** The `forEach` that fills `groups`; the keys' insertion order is returned beside it. */
  method GroupSquads(data: seq<ProjectData>) returns (order: seq<string>, groups: map<string, seq<ProjectData>>)
    ensures IsGrouping(data, order, groups)
  {
    order, groups := [], map[];
    var i := 0;
    while i < |data|
      invariant 0 <= i <= |data|
      invariant IsGrouping(data[..i], order, groups)
    {
      order, groups := AddToGroup(data, i, order, groups);
      i := i + 1;
    }
    assert data[..|data|] == data;
  }

  /** One project of the `forEach`: create its group when missing, then push the project. */
  method AddToGroup(data: seq<ProjectData>, i: int, order: seq<string>, groups: map<string, seq<ProjectData>>)
    returns (order': seq<string>, groups': map<string, seq<ProjectData>>)
    requires 0 <= i < |data| && IsGrouping(data[..i], order, groups)
    ensures IsGrouping(data[..i + 1], order', groups')
  {
    var p := data[i];
    var name := SquadName(p);
    assert data[..i + 1] == data[..i] + [p];
    var members := [];
    order' := order;
    if name in groups {
      members := groups[name];
    } else {
      order' := order + [name];
    }
    groups' := groups[name := members + [p]];
    GroupingStep(data[..i], p, order, groups);
  }

  /** The grouping after one more project: its group gets it, created when missing. */
  lemma GroupingStep(xs: seq<ProjectData>, p: ProjectData, order: seq<string>, groups: map<string, seq<ProjectData>>)
    requires IsGrouping(xs, order, groups)
    ensures var name := SquadName(p);
      IsGrouping(xs + [p],
        if name in groups then order else order + [name],
        groups[name := (if name in groups then groups[name] else []) + [p]])
  {
    var name := SquadName(p);
    var order' := if name in groups then order else order + [name];
    var groups' := groups[name := (if name in groups then groups[name] else []) + [p]];
    KeysSnoc(xs, p);
    GroupKeysStep(order, groups, name, order', groups');
    GroupValuesStep(xs, p, groups);
    assert IsGrouping(xs + [p], order', groups');
  }

  /** The keys part of the step: the new key is both appended and stored. */
  lemma GroupKeysStep(order: seq<string>, groups: map<string, seq<ProjectData>>, name: string,
                      order': seq<string>, groups': map<string, seq<ProjectData>>)
    requires forall k :: k in groups <==> k in order
    requires order' == if name in groups then order else order + [name]
    requires name in groups' && forall k :: k in groups' <==> k in groups || k == name
    ensures forall k :: k in groups' <==> k in order'
  {
  }

  /** The values part of the step: every group is the filter of the longer list. */
  lemma GroupValuesStep(xs: seq<ProjectData>, p: ProjectData, groups: map<string, seq<ProjectData>>)
    requires forall k :: k in groups <==> k in Keys(xs)
    requires forall k :: k in groups ==> groups[k] == Filter(xs, InGroup(k))
    ensures var name := SquadName(p);
      var groups' := groups[name := (if name in groups then groups[name] else []) + [p]];
      forall k :: k in groups' ==> groups'[k] == Filter(xs + [p], InGroup(k))
  {
    var name := SquadName(p);
    var groups' := groups[name := (if name in groups then groups[name] else []) + [p]];
    if name !in groups {
      NotKey(xs, name);
    }
    forall k | k in groups' ensures groups'[k] == Filter(xs + [p], InGroup(k)) {
      FilterSnoc(xs, p, InGroup(k));
    }
  }

  lemma KeysSnoc(xs: seq<ProjectData>, p: ProjectData)
    ensures Keys(xs + [p]) == if SquadName(p) in Keys(xs) then Keys(xs) else Keys(xs) + [SquadName(p)]
  {
    MapSnoc(xs, p, SquadName);
    DistinctSnoc(Map(xs, SquadName), SquadName(p));
  }

  /** A name that is no key has no projects. */
  lemma NotKey(xs: seq<ProjectData>, k: string)
    requires k !in Keys(xs)
    ensures Filter(xs, InGroup(k)) == []
  {
    forall j | 0 <= j < |xs| ensures !InGroup(k)(xs[j]) {
      assert Map(xs, SquadName)[j] == SquadName(xs[j]);
    }
    FilterNone(xs, InGroup(k));
  }

  predicate NotNoSquad(k: string) { k != NoSquad }

  /** The comparator's order on distinct keys: the others ascending, then 'SEM SQUAD'. */
  function SortedKeys(order: seq<string>): seq<string> {
    SortedDistinct(Filter(order, NotNoSquad)) + (if NoSquad in order then [NoSquad] else [])
  }

  /** `groupedSquads`: the entries of `groups`, sorted. */
  function GroupedSquads(data: seq<ProjectData>): seq<(string, seq<ProjectData>)> {
    Map(SortedKeys(Keys(data)), (k: string) => (k, Filter(data, InGroup(k))))
  }

  /** Each project is in the group of its own squad name and in no other, and there is such a
      group; within a group the input order is kept. */
  lemma GroupsPartition(data: seq<ProjectData>, p: ProjectData, i: int)
    requires 0 <= i < |GroupedSquads(data)|
    ensures Subsequence(GroupedSquads(data)[i].1, data)
    ensures p in GroupedSquads(data)[i].1 <==> p in data && GroupedSquads(data)[i].0 == SquadName(p)
    ensures p in data ==> exists j :: 0 <= j < |GroupedSquads(data)| && GroupedSquads(data)[j].0 == SquadName(p)
  {
    var g := GroupedSquads(data);
    var keys := SortedKeys(Keys(data));
    FilterSubsequence(data, InGroup(keys[i]));
    FilterMembers(data, InGroup(keys[i]), p);
    if p in data {
      var name := SquadName(p);
      assert name in Map(data, SquadName);
      SortedKeysMembers(Keys(data), name);
      var j :| 0 <= j < |keys| && keys[j] == name;
      assert g[j].0 == name;
    }
  }

  lemma SortedKeysMembers(order: seq<string>, k: string)
    ensures k in SortedKeys(order) <==> k in order
  {
    FilterMembers(order, NotNoSquad, k);
  }

  /** 'SEM SQUAD' is the last group when there is one, the other groups are in ascending
      order without repeats, and there is one group per distinct squad name. */
  lemma GroupsOrdered(data: seq<ProjectData>)
    ensures forall i :: 0 <= i < |GroupedSquads(data)| - 1 ==> GroupedSquads(data)[i].0 != NoSquad
    ensures forall i, j :: 0 <= i < j < |GroupedSquads(data)| && GroupedSquads(data)[j].0 != NoSquad ==>
      StrLt(GroupedSquads(data)[i].0, GroupedSquads(data)[j].0)
    ensures |GroupedSquads(data)| == |set p | p in data :: SquadName(p)|
  {
    var keys := SortedKeys(Keys(data));
    SortedKeysShape(Keys(data));
    assert (set k | k in keys) == (set p | p in data :: SquadName(p)) by {
      forall k ensures k in keys <==> k in (set p | p in data :: SquadName(p)) {
        KeyOfSome(data, k);
      }
    }
    DistinctCard(keys);
  }

  lemma KeyOfSome(data: seq<ProjectData>, k: string)
    ensures k in SortedKeys(Keys(data)) <==> exists p :: p in data && SquadName(p) == k
  {
    SortedKeysMembers(Keys(data), k);
    if k in Map(data, SquadName) {
      var j :| 0 <= j < |data| && Map(data, SquadName)[j] == k;
      assert data[j] in data;
    }
    if exists p :: p in data && SquadName(p) == k {
      var p :| p in data && SquadName(p) == k;
      var j :| 0 <= j < |data| && data[j] == p;
      assert Map(data, SquadName)[j] == k;
    }
  }

  /** The sorted keys: no repeats, 'SEM SQUAD' only last, the others ascending. */
  lemma SortedKeysShape(order: seq<string>)
    ensures forall i :: 0 <= i < |SortedKeys(order)| - 1 ==> SortedKeys(order)[i] != NoSquad
    ensures forall i, j :: 0 <= i < j < |SortedKeys(order)| && SortedKeys(order)[j] != NoSquad ==>
      StrLt(SortedKeys(order)[i], SortedKeys(order)[j])
    ensures forall i, j :: 0 <= i < j < |SortedKeys(order)| ==> SortedKeys(order)[i] != SortedKeys(order)[j]
  {
    var rest := SortedDistinct(Filter(order, NotNoSquad));
    var keys := SortedKeys(order);
    assert forall i :: 0 <= i < |rest| ==> rest[i] != NoSquad by {
      forall i | 0 <= i < |rest| ensures rest[i] != NoSquad {
        FilterMembers(order, NotNoSquad, rest[i]);
      }
    }
    assert forall i :: 0 <= i < |rest| ==> keys[i] == rest[i];
    forall i, j | 0 <= i < j < |keys| ensures keys[i] != keys[j] {
      if j < |rest| {
        StrictlySortedDistinct(rest, i, j);
      }
    }
  }

  /** A list without repeats has as many elements as its set. */
  lemma {:induction false} DistinctCard(xs: seq<string>)
    requires forall i, j :: 0 <= i < j < |xs| ==> xs[i] != xs[j]
    ensures |set k | k in xs| == |xs|
  {
    if |xs| > 0 {
      var init, x := xs[..|xs| - 1], xs[|xs| - 1];
      DistinctCard(init);
      assert (set k | k in xs) == (set k | k in init) + {x};
      assert x !in (set k | k in init);
    }
  }
}

/** The second front end's status doughnut and macro schedule
    (react-app/src/components/Charts.tsx). */
module Charts {
  import opened Options
  import opened Seqs
  import opened Text
  import opened Domain

  /** The keys of `counts`, in order. */
  const ChartStatuses: seq<Status> := [Concluido, EmAndamento, Atrasado, Bloqueado, Pendente, Cancelado]

  function HasStatus(s: Status): Project -> bool {
    (p: Project) => p.status == s
  }

  function InChart(p: Project): bool { p.status in ChartStatuses }

  function NatSum(xs: seq<nat>): nat {
    if |xs| == 0 then 0 else NatSum(xs[..|xs| - 1]) + xs[|xs| - 1]
  }

  /** The counts for the projects `ps`, one per chart status. */
  function StatusCounts(ps: seq<Project>): (r: seq<nat>)
    ensures |r| == |ChartStatuses|
  {
    seq(|ChartStatuses|, k requires 0 <= k < |ChartStatuses| => Count(ps, HasStatus(ChartStatuses[k])))
  }

  /** `StatusChart`'s `forEach`: a project whose status is a key adds one to it; any other is ignored. */
  method CountStatuses(ps: seq<Project>) returns (counts: seq<nat>)
    ensures counts == StatusCounts(ps)
  {
    counts := [0, 0, 0, 0, 0, 0];
    var i := 0;
    while i < |ps|
      invariant 0 <= i <= |ps|
      invariant counts == StatusCounts(ps[..i])
    {
      counts := CountOne(ps, i, counts);
      i := i + 1;
    }
    assert ps[..|ps|] == ps;
  }

  method CountOne(ps: seq<Project>, i: int, counts: seq<nat>) returns (next: seq<nat>)
    requires 0 <= i < |ps| && counts == StatusCounts(ps[..i])
    ensures next == StatusCounts(ps[..i + 1])
  {
    var p := ps[i];
    assert ps[..i + 1] == ps[..i] + [p];
    CountsSnoc(ps[..i], p);
    KeysDistinct();
    next := counts;
    var k := IndexOf(ChartStatuses, p.status);
    if k >= 0 {
      next := next[k := next[k] + 1];
    }
    var want := StatusCounts(ps[..i + 1]);
    forall j | 0 <= j < |ChartStatuses| ensures next[j] == want[j] {
      KeyAt(p.status, k, j);
    }
  }

  /** `IndexOf` finds the one key equal to the status. */
  lemma KeyAt(s: Status, k: int, j: int)
    requires k == IndexOf(ChartStatuses, s) && 0 <= j < |ChartStatuses|
    ensures s == ChartStatuses[j] <==> j == k
  {
    KeysDistinct();
  }

  /** The six keys are different statuses. */
  lemma KeysDistinct()
    ensures forall a, b :: 0 <= a < b < |ChartStatuses| ==> ChartStatuses[a] != ChartStatuses[b]
  {
  }

  /** One more project adds one to the count of its status, and to no other. */
  lemma CountsSnoc(ps: seq<Project>, p: Project)
    ensures forall j :: 0 <= j < |ChartStatuses| ==>
      StatusCounts(ps + [p])[j] == StatusCounts(ps)[j] + (if p.status == ChartStatuses[j] then 1 else 0)
  {
    assert [p][..0] == [];
    forall j | 0 <= j < |ChartStatuses|
      ensures StatusCounts(ps + [p])[j] == StatusCounts(ps)[j] + (if p.status == ChartStatuses[j] then 1 else 0)
    {
      CountAppend(ps, [p], HasStatus(ChartStatuses[j]));
    }
  }

  /** The six counts add up to the number of projects with one of the six statuses. */
  lemma {:induction false} CountsTotal(ps: seq<Project>)
    ensures NatSum(StatusCounts(ps)) == Count(ps, InChart)
  {
    if |ps| > 0 {
      var init, p := ps[..|ps| - 1], ps[|ps| - 1];
      CountsTotal(init);
      assert ps == init + [p];
      CountAppend(init, [p], InChart);
      assert [p][..0] == [];
      assert Count([p], InChart) == if InChart(p) then 1 else 0;
      CountsSnoc(init, p);
      CountsStep(StatusCounts(init), StatusCounts(ps), p.status);
    } else {
      SixSum(StatusCounts(ps));
    }
  }

  /** One project adds one to the count of its status when that is a key. */
  lemma CountsStep(a: seq<nat>, b: seq<nat>, s: Status)
    requires |a| == |ChartStatuses| && |b| == |ChartStatuses|
    requires forall j :: 0 <= j < |ChartStatuses| ==> b[j] == a[j] + (if s == ChartStatuses[j] then 1 else 0)
    ensures NatSum(b) == NatSum(a) + (if s in ChartStatuses then 1 else 0)
  {
    SixSum(a);
    SixSum(b);
    OneKey(s);
  }

  /** A status equals at most one of the six keys; exactly one when it is a key. */
  lemma OneKey(s: Status)
    ensures (if s == Concluido then 1 else 0) + (if s == EmAndamento then 1 else 0) + (if s == Atrasado then 1 else 0)
      + (if s == Bloqueado then 1 else 0) + (if s == Pendente then 1 else 0) + (if s == Cancelado then 1 else 0)
      == if s in ChartStatuses then 1 else 0
  {
  }

  /** The sum of six numbers, written out. */
  lemma SixSum(xs: seq<nat>)
    requires |xs| == 6
    ensures NatSum(xs) == xs[0] + xs[1] + xs[2] + xs[3] + xs[4] + xs[5]
  {
    assert xs[..5][..4] == xs[..4] && xs[..4][..3] == xs[..3] && xs[..3][..2] == xs[..2];
    assert xs[..2][..1] == xs[..1] && xs[..1][..0] == [];
    assert NatSum(xs[..1]) == xs[0];
    assert NatSum(xs[..2]) == xs[0] + xs[1];
    assert NatSum(xs[..3]) == xs[0] + xs[1] + xs[2];
    assert NatSum(xs[..4]) == xs[0] + xs[1] + xs[2] + xs[3];
    assert NatSum(xs[..5]) == xs[0] + xs[1] + xs[2] + xs[3] + xs[4];
  }

  /** A macro schedule bar: the label (the project's title), the range or `null`, and whether it is green. */
  datatype MacroBar = MacroBar(title: string, range: Option<(int, int)>, done: bool)

  /** `a.startDate?.getTime() || 0`. */
  function StartOrZero(p: Project): int {
    p.startDate.GetOr(0)
  }

  function MacroBarOf(p: Project): (b: MacroBar)
    ensures b.title == p.title
    ensures b.range.None? <==> p.startDate.None? || p.endDate.None?
    ensures b.range.Some? ==> b.range.value == (p.startDate.value, p.endDate.value)
    ensures b.done <==> p.status == Concluido
  {
    MacroBar(p.title,
      if p.startDate.None? || p.endDate.None? then None else Some((p.startDate.value, p.endDate.value)),
      p.status == Concluido)
  }

  /** `GanttChart`'s `sorted`: a copy sorted by start. */
  function SortedProjects(ps: seq<Project>): seq<Project> {
    SortBy(ps, StartOrZero)
  }

  function MacroBars(ps: seq<Project>): seq<MacroBar> {
    Map(SortedProjects(ps), MacroBarOf)
  }

  /** The schedule has one bar per project, in ascending order of start (a missing start as 0,
      stable for equal starts), each from the project at its place. */
  lemma MacroSchedule(ps: seq<Project>, k: int)
    ensures multiset(SortedProjects(ps)) == multiset(ps) && SortedBy(SortedProjects(ps), StartOrZero)
    ensures Filter(SortedProjects(ps), HasKey(StartOrZero, k)) == Filter(ps, HasKey(StartOrZero, k))
    ensures |MacroBars(ps)| == |ps|
    ensures forall i :: 0 <= i < |ps| ==> MacroBars(ps)[i] == MacroBarOf(SortedProjects(ps)[i])
  {
    SortByStable(ps, StartOrZero, k);
  }
}
