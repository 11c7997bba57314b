/** The merge of a new batch of projects into the loaded ones, written
    the same way in react-app/src/App.tsx (`handleFiles`) and
    dash_old/App.tsx (`handleAppendData`): the loaded list stays in front
    and a new project is added only when no loaded project has its id. */
module ProjectMerge {
  import opened Seqs
  import opened Domain

  function Id(p: ProjectData): string { p.id }

  /** `new Set(prev.map(p => p.id))`. */
  function Ids(ps: seq<ProjectData>): seq<string> {
    Map(ps, Id)
  }

  function IsNew(prev: seq<ProjectData>): ProjectData -> bool {
    (p: ProjectData) => p.id !in Ids(prev)
  }

  /** `[...prev, ...newProjects.filter(p => !existingIds.has(p.id))]`. */
  function Merge(prev: seq<ProjectData>, batch: seq<ProjectData>): seq<ProjectData> {
    prev + Filter(batch, IsNew(prev))
  }

  lemma IdsMembers(ps: seq<ProjectData>, id: string)
    ensures id in Ids(ps) <==> exists i :: 0 <= i < |ps| && ps[i].id == id
  {
    if id in Ids(ps) {
      var i :| 0 <= i < |ps| && Ids(ps)[i] == id;
      assert ps[i].id == id;
    }
  }

  /** The loaded list is a prefix of the result; after it come, in batch order, exactly the
      batch's projects whose id is not loaded, repeats within the batch included. */
  lemma MergeKeeps(prev: seq<ProjectData>, batch: seq<ProjectData>, p: ProjectData)
    ensures |Merge(prev, batch)| >= |prev| && Merge(prev, batch)[..|prev|] == prev
    ensures Subsequence(Merge(prev, batch)[|prev|..], batch)
    ensures p in Merge(prev, batch)[|prev|..] <==> p in batch && p.id !in Ids(prev)
    ensures Count(Merge(prev, batch)[|prev|..], (q: ProjectData) => q == p) == Count(batch, (q: ProjectData) => q == p) || p.id in Ids(prev)
  {
    var added := Filter(batch, IsNew(prev));
    assert Merge(prev, batch)[|prev|..] == added;
    FilterSubsequence(batch, IsNew(prev));
    FilterMembers(batch, IsNew(prev), p);
    if p.id !in Ids(prev) {
      SameFilter(batch, prev, p);
    }
  }

  /** Every copy of a project with a new id passes the filter, so none is dropped. */
  lemma {:induction false} SameFilter(batch: seq<ProjectData>, prev: seq<ProjectData>, p: ProjectData)
    requires p.id !in Ids(prev)
    ensures Count(Filter(batch, IsNew(prev)), (q: ProjectData) => q == p) == Count(batch, (q: ProjectData) => q == p)
  {
    var eq := (q: ProjectData) => q == p;
    if |batch| > 0 {
      var init, x := batch[..|batch| - 1], batch[|batch| - 1];
      SameFilter(init, prev, p);
      assert batch == init + [x];
      var kept := Filter(init, IsNew(prev));
      FilterSnoc(init, x, IsNew(prev));
      CountAppend(init, [x], eq);
      if IsNew(prev)(x) {
        CountAppend(kept, [x], eq);
      } else {
        assert x != p;
        assert Filter(batch, IsNew(prev)) == kept;
        assert Count([x], eq) == 0;
      }
    }
  }

  /** Every project of the batch has its id in the merged list. */
  lemma MergedIds(prev: seq<ProjectData>, batch: seq<ProjectData>, i: int)
    requires 0 <= i < |batch|
    ensures batch[i].id in Ids(Merge(prev, batch))
  {
    var m := Merge(prev, batch);
    var p := batch[i];
    IdsMembers(prev, p.id);
    IdsMembers(m, p.id);
    if p.id in Ids(prev) {
      var k :| 0 <= k < |prev| && prev[k].id == p.id;
      assert m[k] == prev[k];
    } else {
      MergeKeeps(prev, batch, p);
      assert p in m[|prev|..];
      var k :| 0 <= k < |m| - |prev| && m[|prev|..][k] == p;
      assert m[|prev| + k] == p;
    }
  }

  /** Uploading the same batch a second time changes nothing. */
  lemma MergeIdempotent(prev: seq<ProjectData>, batch: seq<ProjectData>)
    ensures Merge(Merge(prev, batch), batch) == Merge(prev, batch)
  {
    var m := Merge(prev, batch);
    forall j | 0 <= j < |batch| ensures !IsNew(m)(batch[j]) {
      MergedIds(prev, batch, j);
    }
    FilterNone(batch, IsNew(m));
    assert m + [] == m;
  }
}

/** The root component of the second front end (react-app/src/App.tsx):
    the loaded projects, the filter selections, the theme, and the lists
    and flags derived from them. */
module ReactApp {
  import opened Options
  import opened Seqs
  import opened Text
  import opened Domain
  import opened Analytics
  import opened ProjectMerge

  const Themes: seq<Theme> := [Light, Dark, Vivo]

  /** `themes[(themes.indexOf(theme) + 1) % themes.length]`. */
  function NextTheme(t: Theme): Theme {
    Themes[(IndexOf(Themes, t) + 1) % |Themes|]
  }

  /** The toggle goes light, dark, vivo and back to light. */
  lemma NextThemes()
    ensures NextTheme(Light) == Dark && NextTheme(Dark) == Vivo && NextTheme(Vivo) == Light
  {
    ThemeAt(0);
    ThemeAt(1);
    ThemeAt(2);
  }

  /** Each theme's position in the cycle. */
  lemma ThemeAt(k: nat)
    requires k < |Themes|
    ensures IndexOf(Themes, Themes[k]) == k
  {
  }

  /** The toggle never keeps the theme, and three toggles come back to it. */
  lemma ThemeCycle(t: Theme)
    ensures NextTheme(t) != t
    ensures NextTheme(NextTheme(NextTheme(t))) == t
  {
    NextThemes();
  }

  /** A filter value that is set: `!!s && s !== 'N/A'`. */
  predicate Named(s: Option<string>) {
    Present(s) && s.value != "N/A"
  }

  /** `if (selectedSquad) filtered = filtered.filter(p => p.squad === selectedSquad)`. */
  function OfSquad(ps: seq<ProjectData>, selectedSquad: Option<string>): seq<ProjectData> {
    if Present(selectedSquad) then Filter(ps, InSquad(selectedSquad.value)) else ps
  }

  function InSquad(squad: string): ProjectData -> bool {
    (p: ProjectData) => p.squad == Some(squad)
  }

  /** The projects of the selected squad, in order; all of them when no squad is selected. */
  lemma OfSquadMembers(ps: seq<ProjectData>, selectedSquad: Option<string>, p: ProjectData)
    ensures Subsequence(OfSquad(ps, selectedSquad), ps)
    ensures p in OfSquad(ps, selectedSquad) <==> p in ps && (Present(selectedSquad) ==> p.squad == selectedSquad)
  {
    if Present(selectedSquad) {
      FilterSubsequence(ps, InSquad(selectedSquad.value));
      FilterMembers(ps, InSquad(selectedSquad.value), p);
    } else {
      SubsequenceRefl(ps);
    }
  }

  function SquadOf(p: ProjectData): string { p.squad.GetOr("") }
  function FactoryOf(p: ProjectData): string { p.factory.GetOr("") }
  function TechnologyOf(p: ProjectData): string { p.technology.GetOr("") }

  function HasSquad(p: ProjectData): bool { Named(p.squad) }
  function HasFactory(p: ProjectData): bool { Named(p.factory) }
  function HasTechnology(p: ProjectData): bool { Named(p.technology) }

  /** `squads`. */
  function Squads(ps: seq<ProjectData>): seq<string> {
    SortedDistinct(Map(Filter(ps, HasSquad), SquadOf))
  }

  /** `factories`. */
  function Factories(ps: seq<ProjectData>, selectedSquad: Option<string>): seq<string> {
    SortedDistinct(Map(Filter(OfSquad(ps, selectedSquad), HasFactory), FactoryOf))
  }

  /** `technologies`. */
  function Technologies(ps: seq<ProjectData>, selectedSquad: Option<string>): seq<string> {
    SortedDistinct(Map(Filter(OfSquad(ps, selectedSquad), HasTechnology), TechnologyOf))
  }

  /** The squad list holds each set squad other than 'N/A' once, in ascending order. */
  lemma SquadsMembers(ps: seq<ProjectData>, s: string)
    ensures StrictlySorted(Squads(ps))
    ensures s in Squads(ps) <==> exists i :: 0 <= i < |ps| && ps[i].squad == Some(s) && s != "" && s != "N/A"
  {
    MapFilterMembers(ps, HasSquad, SquadOf, s);
  }

  /** A name is listed for the selected squad exactly when some project of that
      squad passes `has` and maps to it by `of`. */
  lemma SelectedNames(ps: seq<ProjectData>, selectedSquad: Option<string>, has: ProjectData -> bool, of: ProjectData -> string, s: string)
    ensures s in Map(Filter(OfSquad(ps, selectedSquad), has), of) <==>
      exists p :: p in ps && (Present(selectedSquad) ==> p.squad == selectedSquad) && has(p) && of(p) == s
  {
    var sq := OfSquad(ps, selectedSquad);
    MapFilterMembers(sq, has, of, s);
    if exists i :: 0 <= i < |sq| && has(sq[i]) && of(sq[i]) == s {
      var i :| 0 <= i < |sq| && has(sq[i]) && of(sq[i]) == s;
      OfSquadMembers(ps, selectedSquad, sq[i]);
    }
    if exists p :: p in ps && (Present(selectedSquad) ==> p.squad == selectedSquad) && has(p) && of(p) == s {
      var p :| p in ps && (Present(selectedSquad) ==> p.squad == selectedSquad) && has(p) && of(p) == s;
      OfSquadMembers(ps, selectedSquad, p);
      var i :| 0 <= i < |sq| && sq[i] == p;
    }
  }

  /** The factory list holds each set factory other than 'N/A' of the selected squad's projects once, in ascending order. */
  lemma FactoriesMembers(ps: seq<ProjectData>, selectedSquad: Option<string>, s: string)
    ensures StrictlySorted(Factories(ps, selectedSquad))
    ensures s in Factories(ps, selectedSquad) <==>
      exists p :: p in ps && (Present(selectedSquad) ==> p.squad == selectedSquad) && p.factory == Some(s) && s != "" && s != "N/A"
  {
    SelectedNames(ps, selectedSquad, HasFactory, FactoryOf, s);
  }

  /** The technology list holds each set technology other than 'N/A' of the selected squad's projects once, in ascending order. */
  lemma TechnologiesMembers(ps: seq<ProjectData>, selectedSquad: Option<string>, s: string)
    ensures StrictlySorted(Technologies(ps, selectedSquad))
    ensures s in Technologies(ps, selectedSquad) <==>
      exists p :: p in ps && (Present(selectedSquad) ==> p.squad == selectedSquad) && p.technology == Some(s) && s != "" && s != "N/A"
  {
    SelectedNames(ps, selectedSquad, HasTechnology, TechnologyOf, s);
  }

  /** The selections that `filteredProjects` reads. */
  datatype Selection = Selection(
    squad: Option<string>,
    project: Option<string>,
    factory: Option<string>,
    technology: seq<string>,
    searchTerm: string)

  predicate MatchesSearch(term: string, p: ProjectData) {
    Contains(Lower(p.name), Lower(term)) || (Present(p.squad) && Contains(Lower(p.squad.value), Lower(term)))
  }

  predicate MatchesTechnology(technology: seq<string>, p: ProjectData) {
    |technology| > 0 ==> Present(p.technology) && p.technology.value in technology
  }

  /** The test of `filteredProjects`: no burnup table, and every selection that is set agrees. */
  predicate Passes(sel: Selection, p: ProjectData) {
    p.burnupData.None?
    && (Present(sel.squad) ==> p.squad == sel.squad)
    && (Present(sel.project) ==> p.id == sel.project.value)
    && MatchesSearch(sel.searchTerm, p)
    && (Present(sel.factory) ==> p.factory == sel.factory)
    && MatchesTechnology(sel.technology, p)
  }

  function PassesFor(sel: Selection): ProjectData -> bool {
    (p: ProjectData) => Passes(sel, p)
  }

  /** `filteredProjects`. */
  function FilteredProjects(ps: seq<ProjectData>, sel: Selection): seq<ProjectData> {
    Filter(ps, PassesFor(sel))
  }

  /** The filtered list keeps the input order, holds exactly the projects that pass, and so
      never a project with a burnup table, nor one without a technology while technologies
      are selected. */
  lemma FilteredMembers(ps: seq<ProjectData>, sel: Selection, p: ProjectData)
    ensures Subsequence(FilteredProjects(ps, sel), ps)
    ensures p in FilteredProjects(ps, sel) <==> p in ps && Passes(sel, p)
    ensures p in FilteredProjects(ps, sel) ==> p.burnupData.None?
    ensures p in FilteredProjects(ps, sel) && |sel.technology| > 0 ==> Present(p.technology)
  {
    FilterSubsequence(ps, PassesFor(sel));
    FilterMembers(ps, PassesFor(sel), p);
  }

  /** An empty search matches every project. */
  lemma EmptySearch(p: ProjectData)
    ensures MatchesSearch("", p)
  {
    assert Lower("") == "";
    ContainsEmpty(Lower(p.name));
  }

  /** An entry of the project drop-down. */
  datatype Choice = Choice(id: string, name: string)

  function ChoiceOf(p: ProjectData): Choice { Choice(p.id, p.name) }

  /** `availableProjects`. */
  function AvailableProjects(ps: seq<ProjectData>, selectedSquad: Option<string>): seq<Choice> {
    Map(OfSquad(ps, selectedSquad), ChoiceOf)
  }

  /** The drop-down offers exactly the projects of the selected squad, one entry each. */
  lemma AvailableMembers(ps: seq<ProjectData>, selectedSquad: Option<string>, c: Choice)
    ensures |AvailableProjects(ps, selectedSquad)| == |OfSquad(ps, selectedSquad)|
    ensures !Present(selectedSquad) ==> |AvailableProjects(ps, selectedSquad)| == |ps|
    ensures c in AvailableProjects(ps, selectedSquad) <==>
      exists p :: p in ps && (Present(selectedSquad) ==> p.squad == selectedSquad) && c == ChoiceOf(p)
  {
    var sq := OfSquad(ps, selectedSquad);
    var cs := Map(sq, ChoiceOf);
    if c in cs {
      var j :| 0 <= j < |cs| && cs[j] == c;
      assert sq[j] in sq;
      OfSquadMembers(ps, selectedSquad, sq[j]);
    }
    if exists p :: p in ps && (Present(selectedSquad) ==> p.squad == selectedSquad) && c == ChoiceOf(p) {
      var p :| p in ps && (Present(selectedSquad) ==> p.squad == selectedSquad) && c == ChoiceOf(p);
      OfSquadMembers(ps, selectedSquad, p);
      var j :| 0 <= j < |sq| && sq[j] == p;
      assert cs[j] == c;
    }
  }

  /** `isSingleProject`: exactly one project passes the filters. */
  predicate SingleProject(ps: seq<ProjectData>, sel: Selection) {
    |FilteredProjects(ps, sel)| == 1
  }

  /** Selecting a project whose id is set and unique among the loaded projects, and that
      passes the other filters, puts the dashboard in single-project mode. */
  lemma SelectedProjectIsSingle(ps: seq<ProjectData>, sel: Selection, i: int)
    requires 0 <= i < |ps| && Passes(sel, ps[i]) && sel.project == Some(ps[i].id) && ps[i].id != ""
    requires forall j :: 0 <= j < |ps| && j != i ==> ps[j].id != ps[i].id
    ensures SingleProject(ps, sel)
  {
    FilteredMembers(ps, sel, ps[i]);
    FilterAtMostOne(ps, PassesFor(sel), i);
  }

  /** The root component's state. */
  class App {
    var projects: seq<ProjectData>
    var selectedSquad: Option<string>
    var selectedProject: Option<string>
    var selectedFactory: Option<string>
    var selectedTechnology: seq<string>
    var searchTerm: string
    var isLoading: bool
    var theme: Theme

    constructor()
      ensures projects == [] && selectedSquad == None && selectedProject == None && selectedFactory == None
      ensures selectedTechnology == [] && searchTerm == "" && !isLoading && theme == Vivo
    {
      projects := [];
      selectedSquad := None;
      selectedProject := None;
      selectedFactory := None;
      selectedTechnology := [];
      searchTerm := "";
      isLoading := false;
      theme := Vivo;
    }

    function CurrentSelection(): Selection
      reads this
    {
      Selection(selectedSquad, selectedProject, selectedFactory, selectedTechnology, searchTerm)
    }

    method ToggleTheme()
      modifies this
      ensures theme == NextTheme(old(theme))
      ensures projects == old(projects) && CurrentSelection() == old(CurrentSelection()) && isLoading == old(isLoading)
    {
      theme := Themes[(IndexOf(Themes, theme) + 1) % |Themes|];
    }

    /** `handleFiles`: each file's parse is `Some(projects)`, or `None` where it throws.
        The files are parsed in order; the first throw leaves the projects as they were. */
    method HandleFiles(parsed: seq<Option<seq<ProjectData>>>)
      modifies this
      ensures (forall i :: 0 <= i < |parsed| ==> parsed[i].Some?) ==> projects == Merge(old(projects), Flatten(parsed))
      ensures (exists i :: 0 <= i < |parsed| && parsed[i].None?) ==> projects == old(projects)
      ensures !isLoading && theme == old(theme) && CurrentSelection() == old(CurrentSelection())
    {
      isLoading := true;
      var newProjects: seq<ProjectData> := [];
      var i := 0;
      while i < |parsed|
        invariant 0 <= i <= |parsed|
        invariant forall j :: 0 <= j < i ==> parsed[j].Some?
        invariant newProjects == Flatten(parsed[..i])
        invariant projects == old(projects) && theme == old(theme) && CurrentSelection() == old(CurrentSelection())
      {
        if parsed[i].None? {
          isLoading := false;
          return;
        }
        assert parsed[..i + 1][..i] == parsed[..i];
        newProjects := newProjects + parsed[i].value;
        i := i + 1;
      }
      assert parsed[..|parsed|] == parsed;
      projects := Merge(projects, newProjects);
      isLoading := false;
    }

    method SelectSquad(s: Option<string>)
      modifies this
      ensures selectedSquad == s && CurrentSelection() == old(CurrentSelection()).(squad := s)
      ensures projects == old(projects) && theme == old(theme) && isLoading == old(isLoading)
    {
      selectedSquad := s;
    }

    method SelectProject(id: Option<string>)
      modifies this
      ensures CurrentSelection() == old(CurrentSelection()).(project := id)
      ensures projects == old(projects) && theme == old(theme) && isLoading == old(isLoading)
    {
      selectedProject := id;
    }

    method SelectFactory(f: Option<string>)
      modifies this
      ensures CurrentSelection() == old(CurrentSelection()).(factory := f)
      ensures projects == old(projects) && theme == old(theme) && isLoading == old(isLoading)
    {
      selectedFactory := f;
    }

    method SelectTechnology(ts: seq<string>)
      modifies this
      ensures CurrentSelection() == old(CurrentSelection()).(technology := ts)
      ensures projects == old(projects) && theme == old(theme) && isLoading == old(isLoading)
    {
      selectedTechnology := ts;
    }

    method Search(term: string)
      modifies this
      ensures CurrentSelection() == old(CurrentSelection()).(searchTerm := term)
      ensures projects == old(projects) && theme == old(theme) && isLoading == old(isLoading)
    {
      searchTerm := term;
    }
  }

  /** `newProjects.push(...parsed)` over the files, in order. */
  function Flatten(parsed: seq<Option<seq<ProjectData>>>): seq<ProjectData> {
    if |parsed| == 0 then [] else Flatten(parsed[..|parsed| - 1]) + parsed[|parsed| - 1].GetOr([])
  }
}

/** The root component of the first front end (dash_old/App.tsx): the
    loaded data, `null` until a first upload, and the theme. */
module LegacyApp {
  import opened Options
  import opened Seqs
  import opened Domain
  import opened ProjectMerge
  import ReactApp

  /** `cycleTheme`. */
  function Cycle(t: Theme): Theme {
    if t == Light then Dark else if t == Dark then Vivo else Light
  }

  /** The two front ends cycle the themes the same way. */
  lemma SameCycle(t: Theme)
    ensures Cycle(t) == ReactApp.NextTheme(t)
    ensures Cycle(Cycle(Cycle(t))) == t
  {
    ReactApp.NextThemes();
  }

  /** `handleAppendData`: the first batch is stored as it is, later ones are merged by id. */
  function Append(data: Option<seq<ProjectData>>, batch: seq<ProjectData>): (r: Option<seq<ProjectData>>)
    ensures r.Some?
    ensures data.None? ==> r.value == batch
    ensures data.Some? ==> |r.value| >= |data.value| && r.value[..|data.value|] == data.value
  {
    if data.None? then Some(batch) else Some(Merge(data.value, batch))
  }

  /** Appending the same batch twice is appending it once, also for the first batch. */
  lemma AppendIdempotent(data: Option<seq<ProjectData>>, batch: seq<ProjectData>)
    ensures Append(Append(data, batch), batch) == Append(data, batch)
  {
    if data.None? {
      assert Merge([], batch) == Filter(batch, IsNew([]));
      MergeIdempotent([], batch);
      assert Merge([], batch) == batch by {
        assert forall k :: 0 <= k < |batch| ==> IsNew([])(batch[k]);
        FilterAll(batch, IsNew([]));
      }
    } else {
      MergeIdempotent(data.value, batch);
    }
  }

  class App {
    var data: Option<seq<ProjectData>>
    var theme: Theme

    constructor()
      ensures data == None && theme == Light
    {
      data := None;
      theme := Light;
    }

    method CycleTheme()
      modifies this
      ensures theme == Cycle(old(theme)) && data == old(data)
    {
      if theme == Light {
        theme := Dark;
      } else if theme == Dark {
        theme := Vivo;
      } else {
        theme := Light;
      }
    }

    /** The upload screen's `onDataLoaded`. */
    method Load(batch: seq<ProjectData>)
      modifies this
      ensures data == Some(batch) && theme == old(theme)
    {
      data := Some(batch);
    }

    method AppendData(batch: seq<ProjectData>)
      modifies this
      ensures data == Append(old(data), batch) && theme == old(theme)
    {
      if data.None? {
        data := Some(batch);
      } else {
        data := Some(Merge(data.value, batch));
      }
    }

    /** The dashboard's `onReset`. */
    method Reset()
      modifies this
      ensures data == None && theme == old(theme)
    {
      data := None;
    }
  }
}
