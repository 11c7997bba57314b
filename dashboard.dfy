/** The filter bar of the first front end's dashboard
    (dash_old/components/Dashboard.tsx): the squad tabs, the project and
    status choices, the filtered project list, its key figures and the
    single-project switch, and the filter state that the tabs, the search
    box and the drop-downs update. */
module LegacyDashboard {
  import opened Options
  import opened Seqs
  import opened Text
  import opened Domain
  import opened Analytics

  /** `p.squad && p.squad.trim() !== ''`. */
  predicate HasSquadTab(p: ProjectData) {
    p.squad.Some? && Trim(p.squad.value) != ""
  }

  /** The tab a project belongs to: its upper-cased squad. */
  function SquadKey(p: ProjectData): string {
    Upper(p.squad.GetOr(""))
  }

  /** The squads added to the set, in the order of first addition. */
  function SquadsSeen(data: seq<ProjectData>): seq<string> {
    Distinct(Map(Filter(data, HasSquadTab), SquadKey))
  }

  /** `uniqueSquads`: the sorted set of the upper-cased non-blank squads. */
  function SquadTabs(data: seq<ProjectData>): seq<string> {
    SortedDistinct(SquadsSeen(data))
  }

  /** There is a tab for exactly the upper-cased non-blank squads, in ascending order and without repeats. */
  lemma SquadTabsMembers(data: seq<ProjectData>, s: string)
    ensures StrictlySorted(SquadTabs(data))
    ensures s in SquadTabs(data) <==> exists i :: 0 <= i < |data| && HasSquadTab(data[i]) && SquadKey(data[i]) == s
  {
    MapFilterMembers(data, HasSquadTab, SquadKey, s);
  }

  /** The `forEach` that fills the set of squads, then the sort. */
  method UniqueSquads(data: seq<ProjectData>) returns (r: seq<string>)
    ensures r == SquadTabs(data)
  {
    var squads: seq<string> := [];
    var i := 0;
    while i < |data|
      invariant 0 <= i <= |data|
      invariant squads == SquadsSeen(data[..i])
    {
      squads := AddSquad(data, i, squads);
      i := i + 1;
    }
    assert data[..|data|] == data;
    r := SortedDistinct(squads);
  }

  /** One project of the `forEach`: `squads.add(p.squad.toUpperCase())` when the squad is not blank. */
  method AddSquad(data: seq<ProjectData>, i: int, squads: seq<string>) returns (next: seq<string>)
    requires 0 <= i < |data| && squads == SquadsSeen(data[..i])
    ensures next == SquadsSeen(data[..i + 1])
  {
    var p := data[i];
    assert data[..i + 1] == data[..i] + [p];
    SquadsSeenSnoc(data[..i], p);
    next := squads;
    if p.squad.Some? && Trim(p.squad.value) != "" {
      var key := Upper(p.squad.value);
      if key !in next {
        next := next + [key];
      }
    }
  }

  lemma SquadsSeenSnoc(xs: seq<ProjectData>, p: ProjectData)
    ensures SquadsSeen(xs + [p]) ==
      if HasSquadTab(p) && SquadKey(p) !in SquadsSeen(xs) then SquadsSeen(xs) + [SquadKey(p)] else SquadsSeen(xs)
  {
    var kept := Filter(xs, HasSquadTab);
    FilterSnoc(xs, p, HasSquadTab);
    if HasSquadTab(p) {
      MapSnoc(kept, p, SquadKey);
      DistinctSnoc(Map(kept, SquadKey), SquadKey(p));
    } else {
      assert Filter(xs + [p], HasSquadTab) == kept;
    }
  }

  /** `p.squad?.toUpperCase() === squad`: a project without a squad matches no tab. */
  function InSquad(squad: string): ProjectData -> bool {
    (p: ProjectData) => p.squad.Some? && Upper(p.squad.value) == squad
  }

  function Name(p: ProjectData): string { p.name }

  /** `uniqueProjects`: the sorted set of project names, within the selected squad unless it is 'Todos'. */
  function ProjectChoices(data: seq<ProjectData>, squadFilter: string): seq<string> {
    SortedDistinct(Map(if squadFilter != Todos then Filter(data, InSquad(squadFilter)) else data, Name))
  }

  /** The project drop-down lists each name of the selected squad's projects once, in ascending order. */
  lemma ProjectChoicesMembers(data: seq<ProjectData>, squadFilter: string, n: string)
    ensures StrictlySorted(ProjectChoices(data, squadFilter))
    ensures n in ProjectChoices(data, squadFilter) <==>
      exists i :: 0 <= i < |data| && data[i].name == n && (squadFilter == Todos || InSquad(squadFilter)(data[i]))
  {
    if squadFilter != Todos {
      MapFilterMembers(data, InSquad(squadFilter), Name, n);
    } else {
      var names := Map(data, Name);
      if n in names {
        var j :| 0 <= j < |names| && names[j] == n;
        assert data[j].name == n;
      }
    }
  }

  function StatusOf(p: ProjectData): Status { p.status }

  /** `uniqueStatuses`: the statuses of the projects in order of first occurrence. */
  function StatusChoices(data: seq<ProjectData>): (r: seq<Status>)
    ensures forall s :: s in r <==> exists i :: 0 <= i < |data| && data[i].status == s
    ensures forall i, j :: 0 <= i < j < |r| ==> r[i] != r[j]
  {
    var statuses := Map(data, StatusOf);
    assert forall s :: s in statuses <==> exists i :: 0 <= i < |data| && data[i].status == s by {
      forall s ensures s in statuses <==> exists i :: 0 <= i < |data| && data[i].status == s {
        if s in statuses {
          var i :| 0 <= i < |statuses| && statuses[i] == s;
          assert data[i].status == s;
        }
      }
    }
    Distinct(statuses)
  }

  /** The squad a project is compared with in the filter: upper-cased, or '' when falsy. */
  function ShownSquad(p: ProjectData): string {
    if Present(p.squad) then Upper(p.squad.value) else ""
  }

  predicate MatchesSearch(f: FilterState, p: ProjectData) {
    Contains(Lower(p.name), Lower(f.searchTerm))
  }

  predicate MatchesStatus(f: FilterState, p: ProjectData) {
    f.statusFilter.AnyStatus? || p.status == f.statusFilter.status
  }

  predicate MatchesProject(f: FilterState, p: ProjectData) {
    f.projectFilter == Todos || p.name == f.projectFilter
  }

  predicate MatchesSquad(f: FilterState, p: ProjectData) {
    f.squadFilter == Todos || ShownSquad(p) == f.squadFilter
  }

  function Matches(f: FilterState): ProjectData -> bool {
    (p: ProjectData) => MatchesSearch(f, p) && MatchesStatus(f, p) && MatchesProject(f, p) && MatchesSquad(f, p)
  }

  /** `filteredData`. */
  function Shown(data: seq<ProjectData>, f: FilterState): seq<ProjectData> {
    Filter(data, Matches(f))
  }

  /** The filtered list keeps the input order and holds exactly the projects passing all four tests. */
  lemma ShownMembers(data: seq<ProjectData>, f: FilterState, p: ProjectData)
    ensures Subsequence(Shown(data, f), data)
    ensures p in Shown(data, f) <==>
      p in data && MatchesSearch(f, p) && MatchesStatus(f, p) && MatchesProject(f, p) && MatchesSquad(f, p)
  {
    FilterSubsequence(data, Matches(f));
    FilterMembers(data, Matches(f), p);
  }

  /** The filter bar's initial state. */
  const NoFilters: FilterState := FilterState("", AnyStatus, Todos, Todos)

  /** With an empty search and every drop-down at 'Todos' every project is shown. */
  lemma ShownUnfiltered(data: seq<ProjectData>)
    ensures Shown(data, NoFilters) == data
  {
    assert Lower("") == "";
    forall k | 0 <= k < |data| ensures Matches(NoFilters)(data[k]) {
      ContainsEmpty(Lower(data[k].name));
    }
    FilterAll(data, Matches(NoFilters));
  }

  /** `metrics`, which computes over the filtered list what calculateKPIs computes. */
  function Metrics(data: seq<ProjectData>, f: FilterState): (m: DashboardMetrics)
    ensures m.totalProjects == |Shown(data, f)| && m.totalSaving == Sum(Shown(data, f), Saving)
    ensures m.avgDelayDays == 0.0
    ensures 0.0 <= m.completionRate <= 100.0
  {
    Kpis(Shown(data, f))
  }

  /** The status counts add up to the number of shown projects, and the rate is 0 when none is shown. */
  lemma MetricsTotals(data: seq<ProjectData>, f: FilterState)
    ensures Total(Metrics(data, f).statusDistribution) == Metrics(data, f).totalProjects
    ensures DistinctStatuses(Metrics(data, f).statusDistribution)
    ensures Metrics(data, f).totalProjects == 0 ==> Metrics(data, f).completionRate == 0.0
  {
    DistributeTotal(Shown(data, f));
  }

  /** `isSingleProject`. */
  predicate SingleProject(data: seq<ProjectData>, f: FilterState) {
    f.projectFilter != Todos && |Shown(data, f)| == 1
  }

  /** In single-project mode the one shown project is the selected one. */
  lemma SingleProjectIsSelected(data: seq<ProjectData>, f: FilterState)
    requires SingleProject(data, f)
    ensures Shown(data, f)[0] in data && Shown(data, f)[0].name == f.projectFilter
  {
    var p := Shown(data, f)[0];
    ShownMembers(data, f, p);
  }

  /** A squad tab: `{ ...prev, squadFilter: squad, projectFilter: 'Todos' }`. */
  function SquadTab(f: FilterState, squad: string): (g: FilterState)
    ensures g.searchTerm == f.searchTerm && g.statusFilter == f.statusFilter
    ensures g.squadFilter == squad && g.projectFilter == Todos
  {
    f.(squadFilter := squad, projectFilter := Todos)
  }

  /** After a squad tab is clicked the dashboard is never in single-project mode, and shows
      exactly the projects of that squad (all of them on the overview tab) that pass the
      search and status tests. */
  lemma SquadTabShows(data: seq<ProjectData>, f: FilterState, squad: string, p: ProjectData)
    ensures !SingleProject(data, SquadTab(f, squad))
    ensures p in Shown(data, SquadTab(f, squad)) <==>
      p in data && MatchesSearch(f, p) && MatchesStatus(f, p) && (squad == Todos || ShownSquad(p) == squad)
  {
    ShownMembers(data, SquadTab(f, squad), p);
  }

  /** The dashboard's filter state and the handlers that update it. */
  class FilterBar {
    var filters: FilterState

    constructor()
      ensures filters == NoFilters
    {
      filters := NoFilters;
    }

    /** The 'Visão Geral' tab. */
    method SelectOverview()
      modifies this
      ensures filters == SquadTab(old(filters), Todos)
    {
      filters := filters.(squadFilter := Todos, projectFilter := Todos);
    }

    /** The tab of one squad. */
    method SelectSquad(squad: string)
      modifies this
      ensures filters == SquadTab(old(filters), squad)
    {
      filters := filters.(squadFilter := squad, projectFilter := Todos);
    }

    /** The search box. */
    method Search(term: string)
      modifies this
      ensures filters == old(filters).(searchTerm := term)
    {
      filters := filters.(searchTerm := term);
    }

    /** The project drop-down. */
    method SelectProject(name: string)
      modifies this
      ensures filters == old(filters).(projectFilter := name)
    {
      filters := filters.(projectFilter := name);
    }

    /** The 'Todos' status button and the button of one status. */
    method SelectStatus(s: StatusFilter)
      modifies this
      ensures filters == old(filters).(statusFilter := s)
    {
      filters := filters.(statusFilter := s);
    }
  }
}
