/** The key figures over a list of projects (react-app/src/utils/AnalyticsEngine.ts,
    and the same `metrics` block of dash_old/components/Dashboard.tsx): the
    total saving, the number of projects, the per-status counts and the
    completion rate. */
module Analytics {
  import opened Seqs
  import opened Domain

  /** `statusDistribution`: an object keyed by status, in first-occurrence order. */
  type Distribution = seq<(Status, nat)>

  /** `d[s] || 0`. */
  function CountOf(d: Distribution, s: Status): nat {
    if |d| == 0 then 0 else if d[0].0 == s then d[0].1 else CountOf(d[1..], s)
  }

  /** The sum of the counts. */
  function Total(d: Distribution): nat {
    if |d| == 0 then 0 else d[0].1 + Total(d[1..])
  }

  predicate DistinctStatuses(d: Distribution) {
    forall i, j :: 0 <= i < j < |d| ==> d[i].0 != d[j].0
  }

  /** `d[s] = (d[s] || 0) + 1`. */
  function Bump(d: Distribution, s: Status): (r: Distribution)
    requires DistinctStatuses(d)
    ensures DistinctStatuses(r)
    ensures FirstKeys(r) == FirstKeys(d) + (if s in FirstKeys(d) then [] else [s])
    ensures Total(r) == Total(d) + 1
    ensures forall x :: CountOf(r, x) == CountOf(d, x) + (if x == s then 1 else 0)
  {
    if |d| == 0 then [(s, 1)]
    else if d[0].0 == s then
      assert FirstKeys(d)[0] == s;
      [(s, d[0].1 + 1)] + d[1..]
    else
      var t := Bump(d[1..], s);
      assert FirstKeys(d) == [d[0].0] + FirstKeys(d[1..]);
      assert s in FirstKeys(d) <==> s in FirstKeys(d[1..]);
      assert d[0].0 !in FirstKeys(t);
      ConsDistinct(d[0], t);
      assert ([d[0]] + t)[1..] == t;
      [d[0]] + t
  }

  lemma ConsDistinct(x: (Status, nat), t: Distribution)
    requires x.0 !in FirstKeys(t) && DistinctStatuses(t)
    ensures DistinctStatuses([x] + t)
    ensures FirstKeys([x] + t) == [x.0] + FirstKeys(t)
  {
    var r := [x] + t;
    assert r[1..] == t;
    forall i, j | 0 <= i < j < |r| ensures r[i].0 != r[j].0 {
      assert r[j].0 == FirstKeys(t)[j - 1];
    }
  }

  function HasStatus(s: Status): ProjectData -> bool {
    (p: ProjectData) => p.status == s
  }

  /** The distribution of a list of projects, built by the `forEach` loop. */
  function Distribute(ps: seq<ProjectData>): (d: Distribution)
    ensures DistinctStatuses(d)
  {
    if |ps| == 0 then [] else Bump(Distribute(ps[..|ps| - 1]), ps[|ps| - 1].status)
  }

  /** The counts add up to the number of projects. */
  lemma {:induction false} DistributeTotal(ps: seq<ProjectData>)
    ensures Total(Distribute(ps)) == |ps|
  {
    if |ps| > 0 {
      DistributeTotal(ps[..|ps| - 1]);
    }
  }

  /** Each count is the number of projects with that status. */
  lemma {:induction false} DistributeCounts(ps: seq<ProjectData>, s: Status)
    ensures CountOf(Distribute(ps), s) == Count(ps, HasStatus(s))
  {
    if |ps| > 0 {
      DistributeCounts(ps[..|ps| - 1], s);
    }
  }

  /** A status has a key exactly when some project has it. */
  lemma {:induction false} DistributeKeys(ps: seq<ProjectData>, s: Status)
    ensures s in FirstKeys(Distribute(ps)) <==> exists k :: 0 <= k < |ps| && ps[k].status == s
  {
    if |ps| > 0 {
      var init := ps[..|ps| - 1];
      DistributeKeys(init, s);
      assert Distribute(ps) == Bump(Distribute(init), ps[|ps| - 1].status);
      SomeStatusSnoc(ps, init, s);
    }
  }

  lemma SomeStatusSnoc(ps: seq<ProjectData>, init: seq<ProjectData>, s: Status)
    requires |ps| > 0 && init == ps[..|ps| - 1]
    ensures (exists k :: 0 <= k < |ps| && ps[k].status == s) <==>
      (exists k :: 0 <= k < |init| && init[k].status == s) || ps[|ps| - 1].status == s
  {
    if exists k :: 0 <= k < |ps| && ps[k].status == s {
      var k :| 0 <= k < |ps| && ps[k].status == s;
      if k < |init| {
        assert init[k] == ps[k];
      }
    }
    if exists k :: 0 <= k < |init| && init[k].status == s {
      var k :| 0 <= k < |init| && init[k].status == s;
      assert ps[k] == init[k];
    }
  }

  /** `completed / totalProjects * 100`, or 0 for no projects. */
  function CompletionRate(completed: nat, total: nat): (r: real)
    requires completed <= total
    ensures 0.0 <= r <= 100.0
    ensures total == 0 ==> r == 0.0
    ensures total > 0 && completed == total ==> r == 100.0
  {
    if total > 0 then (completed as real / total as real) * 100.0 else 0.0
  }

  lemma CountAtMost(ps: seq<ProjectData>, s: Status)
    ensures CountOf(Distribute(ps), s) <= |ps|
  {
    DistributeCounts(ps, s);
  }

  /** calculateKPIs. */
  function Kpis(ps: seq<ProjectData>): (m: DashboardMetrics)
    ensures m.totalSaving == Sum(ps, Saving) && m.totalProjects == |ps|
    ensures m.statusDistribution == Distribute(ps)
    ensures m.avgDelayDays == 0.0
    ensures 0.0 <= m.completionRate <= 100.0
    ensures |ps| == 0 ==> m.completionRate == 0.0
    ensures |ps| > 0 ==> m.completionRate == Count(ps, HasStatus(Concluido)) as real / |ps| as real * 100.0
  {
    var d := Distribute(ps);
    CountAtMost(ps, Concluido);
    DistributeCounts(ps, Concluido);
    DashboardMetrics(Sum(ps, Saving), |ps|, d, CompletionRate(CountOf(d, Concluido), |ps|), 0.0)
  }

  function Saving(p: ProjectData): real { p.saving }

  /** calculateKPIs, with the `forEach` that fills the distribution. */
  method CalculateKpis(ps: seq<ProjectData>) returns (m: DashboardMetrics)
    ensures m == Kpis(ps)
  {
    var totalSaving := Sum(ps, Saving);
    var d: Distribution := [];
    var i := 0;
    while i < |ps|
      invariant 0 <= i <= |ps|
      invariant d == Distribute(ps[..i])
    {
      assert ps[..i + 1][..i] == ps[..i];
      d := Bump(d, ps[i].status);
      i := i + 1;
    }
    assert ps[..|ps|] == ps;
    CountAtMost(ps, Concluido);
    m := DashboardMetrics(totalSaving, |ps|, d, CompletionRate(CountOf(d, Concluido), |ps|), 0.0);
  }
}
