/** The "average duration per stage" bar chart of both front ends
    (react-app/src/components/AverageDurationChart.tsx and
    dash_old/components/AverageDurationChart.tsx, whose `chartData` blocks
    are the same code): every positive stage duration of every project is
    summed and counted per stage, each stage's average is rounded, and the
    stages are put in the standard workflow order. */
module StageAverage {
  import opened Seqs
  import opened JsNumbers
  import opened Domain

  /** One `[stage, days]` pair of some project's stageDurations. */
  type Entry = (string, real)

  /** `durationSums` and `durationCounts`. Both objects are written
      together, so one key order (`Object.keys(durationSums)`) serves both. */
  datatype Totals = Totals(order: seq<string>, sums: map<string, real>, counts: map<string, nat>)

  /** A bar of the chart. */
  datatype StageAvg = StageAvg(stage: string, avgDays: int)

  const NoTotals := Totals([], map[], map[])

  const StandardStages: seq<string> := ["Discovery", "Desenvolvimento", "Homologação", "Implantação", "Delivery"]

  /** The key order lists each key of both objects once, and every key has been counted. */
  ghost predicate Valid(t: Totals) {
    (forall i, j :: 0 <= i < j < |t.order| ==> t.order[i] != t.order[j])
    && (forall s :: s in t.sums <==> s in t.order)
    && (forall s :: s in t.counts <==> s in t.order)
    && (forall s :: s in t.counts ==> t.counts[s] >= 1)
  }

  /** `obj[s] || 0`. */
  function SumAt(t: Totals, s: string): real {
    if s in t.sums then t.sums[s] else 0.0
  }

  function CountAt(t: Totals, s: string): nat {
    if s in t.counts then t.counts[s] else 0
  }

  /** The two assignments of the `days > 0` branch. */
  function Add(t: Totals, stage: string, days: real): (r: Totals)
    requires Valid(t)
    ensures Valid(r)
    ensures r.order == t.order + (if stage in t.sums then [] else [stage])
    ensures forall s :: SumAt(r, s) == SumAt(t, s) + (if s == stage then days else 0.0)
    ensures forall s :: CountAt(r, s) == CountAt(t, s) + (if s == stage then 1 else 0)
  {
    var order := if stage in t.sums then t.order else t.order + [stage];
    var r := Totals(order, t.sums[stage := SumAt(t, stage) + days], t.counts[stage := CountAt(t, stage) + 1]);
    AddValid(t, r, stage);
    r
  }

  lemma AddValid(t: Totals, r: Totals, stage: string)
    requires Valid(t)
    requires r.order == if stage in t.sums then t.order else t.order + [stage]
    requires r.sums.Keys == t.sums.Keys + {stage} && r.counts.Keys == t.counts.Keys + {stage}
    requires forall s :: s in t.counts && s != stage ==> r.counts[s] == t.counts[s]
    requires r.counts[stage] >= 1
    ensures Valid(r)
  {
    if stage !in t.sums {
      forall i, j | 0 <= i < j < |r.order| ensures r.order[i] != r.order[j] {
        if j == |t.order| {
          assert r.order[i] == t.order[i];
        } else {
          assert r.order[i] == t.order[i] && r.order[j] == t.order[j];
        }
      }
    }
    forall s ensures s in r.sums <==> s in r.order {
    }
  }

  /** The inner `forEach` body: a pair contributes only when its value is positive. */
  function Visit(t: Totals, e: Entry): (r: Totals)
    requires Valid(t)
    ensures Valid(r)
  {
    if e.1 > 0.0 then Add(t, e.0, e.1) else t
  }

  /** Both objects after visiting `es` in order. */
  function TallyOf(es: seq<Entry>): (t: Totals)
    ensures Valid(t)
  {
    if |es| == 0 then NoTotals else Visit(TallyOf(es[..|es| - 1]), es[|es| - 1])
  }

  /** Every pair of every project, in the order the two `forEach` loops visit them. */
  function Entries(ps: seq<ProjectData>): seq<Entry> {
    if |ps| == 0 then [] else Entries(ps[..|ps| - 1]) + ps[|ps| - 1].stageDurations
  }

  /** The stages of the positive pairs, in order, repeats included. */
  function PositiveStages(es: seq<Entry>): seq<string> {
    if |es| == 0 then []
    else PositiveStages(es[..|es| - 1]) + (if es[|es| - 1].1 > 0.0 then [es[|es| - 1].0] else [])
  }

  function IsPositiveFor(s: string): Entry -> bool {
    (e: Entry) => e.0 == s && e.1 > 0.0
  }

  function PositiveDaysFor(s: string): Entry -> real {
    (e: Entry) => if e.0 == s && e.1 > 0.0 then e.1 else 0.0
  }

  /** The keys are the stages of positive pairs at their first occurrence. */
  lemma {:induction false} TallyOrder(es: seq<Entry>)
    ensures TallyOf(es).order == Distinct(PositiveStages(es))
  {
    if |es| > 0 {
      var init, e := es[..|es| - 1], es[|es| - 1];
      TallyOrder(init);
      var t, p, q := TallyOf(init), PositiveStages(init), PositiveStages(es);
      if e.1 > 0.0 {
        assert q[..|q| - 1] == p && q[|q| - 1] == e.0;
        assert e.0 in t.sums <==> e.0 in Distinct(p);
      } else {
        assert q == p;
      }
    }
  }

  /** A stage is a key exactly when some pair for it is positive. */
  lemma TallyKeys(es: seq<Entry>, s: string)
    ensures s in TallyOf(es).sums <==> exists d :: (s, d) in es && d > 0.0
  {
    TallyOrder(es);
    PositiveStagesMembers(es, s);
  }

  lemma {:induction false} PositiveStagesMembers(es: seq<Entry>, s: string)
    ensures s in PositiveStages(es) <==> exists d :: (s, d) in es && d > 0.0
  {
    if |es| > 0 {
      var init, e := es[..|es| - 1], es[|es| - 1];
      PositiveStagesMembers(init, s);
      assert es == init + [e];
      if exists d :: (s, d) in es && d > 0.0 {
        var d :| (s, d) in es && d > 0.0;
        if (s, d) != e {
          assert (s, d) in init;
        }
      }
    }
  }

  /** `durationSums[s]` is the sum of the positive values for `s`. */
  lemma {:induction false} TallySum(es: seq<Entry>, s: string)
    ensures SumAt(TallyOf(es), s) == Sum(es, PositiveDaysFor(s))
  {
    if |es| > 0 {
      TallySum(es[..|es| - 1], s);
    }
  }

  /** `durationCounts[s]` is the number of positive values for `s`. */
  lemma {:induction false} TallyCount(es: seq<Entry>, s: string)
    ensures CountAt(TallyOf(es), s) == Count(es, IsPositiveFor(s))
  {
    if |es| > 0 {
      TallyCount(es[..|es| - 1], s);
    }
  }

  /** A pair is visited exactly when some project holds it. */
  lemma {:induction false} EntriesMembers(ps: seq<ProjectData>, e: Entry)
    ensures e in Entries(ps) <==> exists i :: 0 <= i < |ps| && e in ps[i].stageDurations
  {
    if |ps| > 0 {
      var init := ps[..|ps| - 1];
      EntriesMembers(init, e);
      if exists i :: 0 <= i < |ps| && e in ps[i].stageDurations {
        var i :| 0 <= i < |ps| && e in ps[i].stageDurations;
        if i < |init| {
          assert init[i] == ps[i];
        }
      }
      if exists i :: 0 <= i < |init| && e in init[i].stageDurations {
        var i :| 0 <= i < |init| && e in init[i].stageDurations;
        assert ps[i] == init[i];
      }
    }
  }

  /** `Math.round(durationSums[s] / durationCounts[s])`. */
  function Mean(t: Totals, s: string): int
    requires Valid(t) && s in t.order
  {
    Round(t.sums[s] / t.counts[s] as real)
  }

  /** `Object.keys(durationSums).map(...)` over the keys `keys`. */
  function Averages(t: Totals, keys: seq<string>): (r: seq<StageAvg>)
    requires Valid(t) && forall k :: 0 <= k < |keys| ==> keys[k] in t.order
  {
    if |keys| == 0 then []
    else Averages(t, keys[..|keys| - 1]) + [StageAvg(keys[|keys| - 1], Mean(t, keys[|keys| - 1]))]
  }

  /** One bar per key, in key order, carrying that key's rounded mean. */
  lemma {:induction false} AveragesAt(t: Totals, keys: seq<string>)
    requires Valid(t) && forall k :: 0 <= k < |keys| ==> keys[k] in t.order
    ensures |Averages(t, keys)| == |keys|
    ensures forall i :: 0 <= i < |keys| ==> Averages(t, keys)[i] == StageAvg(keys[i], Mean(t, keys[i]))
  {
    if |keys| > 0 {
      AveragesAt(t, keys[..|keys| - 1]);
    }
  }

  /** `standardStages.indexOf(stage)`, with -1 replaced by 99. */
  function Rank(stage: string): int {
    var i := FindIndex(StandardStages, (x: string) => x == stage);
    if i == -1 then 99 else i
  }

  function BarRank(a: StageAvg): int {
    Rank(a.stage)
  }

  /** A standard stage ranks at its place in the table, any other stage after all of them. */
  lemma RankValues(stage: string)
    ensures stage in StandardStages ==> 0 <= Rank(stage) < 5 && StandardStages[Rank(stage)] == stage
    ensures stage !in StandardStages ==> Rank(stage) == 99
  {
  }

  /** The five standard stages rank 0 to 4. */
  lemma StandardRanks()
    ensures Rank("Discovery") == 0 && Rank("Desenvolvimento") == 1 && Rank("Homologação") == 2
    ensures Rank("Implantação") == 3 && Rank("Delivery") == 4
  {
    RankValues("Discovery");
    RankValues("Desenvolvimento");
    RankValues("Homologação");
    RankValues("Implantação");
    RankValues("Delivery");
  }

  /** `chartData`. */
  function ChartData(ps: seq<ProjectData>): seq<StageAvg> {
    if |ps| == 0 then []
    else
      var t := TallyOf(Entries(ps));
      SortBy(Averages(t, t.order), BarRank)
  }

  /** The bars before sorting: one per stage with a positive value, in first-seen order. */
  function Unsorted(ps: seq<ProjectData>): seq<StageAvg> {
    var t := TallyOf(Entries(ps));
    Averages(t, t.order)
  }

  /** What the chart shows: nothing for no projects; otherwise the unsorted
      bars put in stable standard order. */
  lemma ChartOrder(ps: seq<ProjectData>, k: int)
    ensures |ps| == 0 ==> ChartData(ps) == []
    ensures SortedBy(ChartData(ps), BarRank)
    ensures |ps| > 0 ==> multiset(ChartData(ps)) == multiset(Unsorted(ps))
    ensures |ps| > 0 ==> Filter(ChartData(ps), HasKey(BarRank, k)) == Filter(Unsorted(ps), HasKey(BarRank, k))
  {
    if |ps| > 0 {
      SortByStable(Unsorted(ps), BarRank, k);
    }
  }

  /** The unsorted bars are the keys in order, with their rounded means. */
  lemma UnsortedAt(ps: seq<ProjectData>)
    ensures var t := TallyOf(Entries(ps));
      |Unsorted(ps)| == |t.order|
      && forall i :: 0 <= i < |t.order| ==> Unsorted(ps)[i] == StageAvg(t.order[i], Mean(t, t.order[i]))
  {
    var t := TallyOf(Entries(ps));
    AveragesAt(t, t.order);
  }

  /** No stage has two bars. */
  lemma UnsortedDistinct(ps: seq<ProjectData>)
    ensures forall i, j :: 0 <= i < j < |Unsorted(ps)| ==> Unsorted(ps)[i].stage != Unsorted(ps)[j].stage
  {
    UnsortedAt(ps);
  }

  /** A stage has a bar exactly when some project gives it a positive value. */
  lemma UnsortedStages(ps: seq<ProjectData>, s: string)
    ensures (exists i :: 0 <= i < |Unsorted(ps)| && Unsorted(ps)[i].stage == s) <==>
      exists p, d :: 0 <= p < |ps| && (s, d) in ps[p].stageDurations && d > 0.0
  {
    var es := Entries(ps);
    var t := TallyOf(es);
    UnsortedAt(ps);
    TallyKeys(es, s);
    var u := Unsorted(ps);
    if exists i :: 0 <= i < |u| && u[i].stage == s {
      var i :| 0 <= i < |u| && u[i].stage == s;
      assert t.order[i] == s;
      var d :| (s, d) in es && d > 0.0;
      EntriesMembers(ps, (s, d));
    }
    if exists p, d :: 0 <= p < |ps| && (s, d) in ps[p].stageDurations && d > 0.0 {
      var p, d :| 0 <= p < |ps| && (s, d) in ps[p].stageDurations && d > 0.0;
      EntriesMembers(ps, (s, d));
      var i :| 0 <= i < |t.order| && t.order[i] == s;
      assert u[i].stage == s;
    }
  }

  /** A stage's bar carries the rounded mean of its positive values. */
  lemma UnsortedMeans(ps: seq<ProjectData>, i: int)
    requires 0 <= i < |Unsorted(ps)|
    ensures var s := Unsorted(ps)[i].stage;
      Count(Entries(ps), IsPositiveFor(s)) >= 1 &&
      Unsorted(ps)[i].avgDays == Round(Sum(Entries(ps), PositiveDaysFor(s)) / Count(Entries(ps), IsPositiveFor(s)) as real)
  {
    var es := Entries(ps);
    var t := TallyOf(es);
    UnsortedAt(ps);
    var s := t.order[i];
    TallySum(es, s);
    TallyCount(es, s);
  }

  /** Each bar of the chart is one of the unsorted bars, and back. */
  lemma ChartMember(ps: seq<ProjectData>, x: StageAvg)
    ensures x in ChartData(ps) <==> x in Unsorted(ps)
  {
    if |ps| > 0 {
      ChartOrder(ps, 0);
      assert x in ChartData(ps) <==> x in multiset(ChartData(ps));
      assert x in Unsorted(ps) <==> x in multiset(Unsorted(ps));
    } else {
      AveragesAt(NoTotals, []);
    }
  }

  /** The chart has a bar for a stage exactly when some project gives that stage a positive value. */
  lemma ChartStages(ps: seq<ProjectData>, s: string)
    ensures (exists i :: 0 <= i < |ChartData(ps)| && ChartData(ps)[i].stage == s) <==>
      exists p, d :: 0 <= p < |ps| && (s, d) in ps[p].stageDurations && d > 0.0
  {
    UnsortedStages(ps, s);
    ChartHasStage(ps, s);
  }

  lemma ChartHasStage(ps: seq<ProjectData>, s: string)
    ensures (exists i :: 0 <= i < |ChartData(ps)| && ChartData(ps)[i].stage == s) <==>
      (exists a :: 0 <= a < |Unsorted(ps)| && Unsorted(ps)[a].stage == s)
  {
    var c, u := ChartData(ps), Unsorted(ps);
    if exists i :: 0 <= i < |c| && c[i].stage == s {
      var i :| 0 <= i < |c| && c[i].stage == s;
      ChartMember(ps, c[i]);
      var a :| 0 <= a < |u| && u[a] == c[i];
    }
    if exists a :: 0 <= a < |u| && u[a].stage == s {
      var a :| 0 <= a < |u| && u[a].stage == s;
      ChartMember(ps, u[a]);
      var i :| 0 <= i < |c| && c[i] == u[a];
    }
  }

  /** Every bar of the chart carries the rounded mean of its stage's positive values. */
  lemma ChartMeans(ps: seq<ProjectData>, i: int)
    requires 0 <= i < |ChartData(ps)|
    ensures var s := ChartData(ps)[i].stage;
      Count(Entries(ps), IsPositiveFor(s)) >= 1 &&
      ChartData(ps)[i].avgDays == Round(Sum(Entries(ps), PositiveDaysFor(s)) / Count(Entries(ps), IsPositiveFor(s)) as real)
  {
    var c, u := ChartData(ps), Unsorted(ps);
    ChartMember(ps, c[i]);
    var a :| 0 <= a < |u| && u[a] == c[i];
    UnsortedMeans(ps, a);
  }

  /** No stage has two bars on the chart. */
  lemma ChartDistinct(ps: seq<ProjectData>)
    ensures forall i, j :: 0 <= i < j < |ChartData(ps)| ==> ChartData(ps)[i].stage != ChartData(ps)[j].stage
  {
    var c := ChartData(ps);
    ChartNoRepeats(ps);
    forall i, j | 0 <= i < j < |c| ensures c[i].stage != c[j].stage {
      SameStageBar(ps, c[i], c[j]);
    }
  }

  /** No bar appears twice on the chart. */
  lemma ChartNoRepeats(ps: seq<ProjectData>)
    ensures forall i, j :: 0 <= i < j < |ChartData(ps)| ==> ChartData(ps)[i] != ChartData(ps)[j]
  {
    if |ps| > 0 {
      UnsortedDistinct(ps);
      ChartOrder(ps, 0);
      NoRepeatsPermutation(Unsorted(ps), ChartData(ps));
    }
  }

  /** Two bars of the chart for one stage are the same bar. */
  lemma SameStageBar(ps: seq<ProjectData>, x: StageAvg, y: StageAvg)
    requires x in ChartData(ps) && y in ChartData(ps)
    ensures x.stage == y.stage ==> x == y
  {
    var u := Unsorted(ps);
    UnsortedDistinct(ps);
    ChartMember(ps, x);
    ChartMember(ps, y);
    var a :| 0 <= a < |u| && u[a] == x;
    var b :| 0 <= b < |u| && u[b] == y;
  }

  /** A rounded mean lies within any integer bounds of the values it averages. */
  lemma MeanBounds(es: seq<Entry>, s: string, lo: int, hi: int)
    requires forall k :: 0 <= k < |es| && es[k].0 == s && es[k].1 > 0.0 ==> lo as real <= es[k].1 <= hi as real
    requires Count(es, IsPositiveFor(s)) >= 1
    ensures lo <= Round(Sum(es, PositiveDaysFor(s)) / Count(es, IsPositiveFor(s)) as real) <= hi
  {
    MeanWithin(es, s, lo as real, hi as real);
    RoundBetween(Sum(es, PositiveDaysFor(s)) / Count(es, IsPositiveFor(s)) as real, lo, hi);
  }

  /** The mean itself lies within any bounds of the values it averages. */
  lemma MeanWithin(es: seq<Entry>, s: string, lo: real, hi: real)
    requires forall k :: 0 <= k < |es| && es[k].0 == s && es[k].1 > 0.0 ==> lo <= es[k].1 <= hi
    requires Count(es, IsPositiveFor(s)) >= 1
    ensures lo <= Sum(es, PositiveDaysFor(s)) / Count(es, IsPositiveFor(s)) as real <= hi
  {
    var n := Count(es, IsPositiveFor(s)) as real;
    SumBounds(es, s, lo, hi, n);
    QuotientBounds(Sum(es, PositiveDaysFor(s)), n, lo, hi);
  }

  lemma QuotientBounds(sum: real, n: real, lo: real, hi: real)
    requires n > 0.0 && n * lo <= sum <= n * hi
    ensures lo <= sum / n <= hi
  {
    var m := sum / n;
    assert m * n == sum;
    assert (m - lo) * n == sum - n * lo;
    assert (hi - m) * n == n * hi - sum;
  }

  /** Rounding stays within integer bounds. */
  lemma RoundBetween(x: real, lo: int, hi: int)
    requires lo as real <= x <= hi as real
    ensures lo <= Round(x) <= hi
  {
  }

  /** The positive values for `s` add up to between `n * lo` and `n * hi`. */
  lemma SumBounds(es: seq<Entry>, s: string, lo: real, hi: real, n: real)
    requires forall k :: 0 <= k < |es| && es[k].0 == s && es[k].1 > 0.0 ==> lo <= es[k].1 <= hi
    requires n == Count(es, IsPositiveFor(s)) as real
    ensures n * lo <= Sum(es, PositiveDaysFor(s)) <= n * hi
  {
    SumMonotone(es, ConstFor(s, lo), PositiveDaysFor(s));
    SumMonotone(es, PositiveDaysFor(s), ConstFor(s, hi));
    CountTimes(es, s, lo, n);
    CountTimes(es, s, hi, n);
  }

  /** `x` for each positive value of `s`, 0 elsewhere. */
  function ConstFor(s: string, x: real): Entry -> real {
    (e: Entry) => if e.0 == s && e.1 > 0.0 then x else 0.0
  }

  lemma {:induction false} CountTimes(es: seq<Entry>, s: string, x: real, n: real)
    requires n == Count(es, IsPositiveFor(s)) as real
    ensures Sum(es, ConstFor(s, x)) == n * x
  {
    if |es| > 0 {
      var init, e := es[..|es| - 1], es[|es| - 1];
      var c := Count(init, IsPositiveFor(s)) as real;
      CountTimes(init, s, x, c);
      if e.0 == s && e.1 > 0.0 {
        assert n == c + 1.0;
        assert (c + 1.0) * x == c * x + x;
      } else {
        assert n == c;
      }
    }
  }

  /** The `useMemo` body: the nested `forEach` loops, the `map` and the sort. */
  method AverageDurationChart(ps: seq<ProjectData>) returns (r: seq<StageAvg>)
    ensures r == ChartData(ps)
  {
    if |ps| == 0 {
      return [];
    }
    var t := NoTotals;
    var i := 0;
    while i < |ps|
      invariant 0 <= i <= |ps|
      invariant t == TallyOf(Entries(ps[..i]))
    {
      t := VisitProject(ps, i, t);
      i := i + 1;
    }
    assert ps[..|ps|] == ps;
    var result := MeanBars(t);
    r := SortBy(result, BarRank);
  }

  /** `Object.keys(durationSums).map(...)`. */
  method MeanBars(t: Totals) returns (result: seq<StageAvg>)
    requires Valid(t)
    ensures result == Averages(t, t.order)
  {
    result := [];
    var k := 0;
    while k < |t.order|
      invariant 0 <= k <= |t.order|
      invariant result == Averages(t, t.order[..k])
    {
      var stage := t.order[k];
      assert t.order[..k + 1][..k] == t.order[..k];
      result := result + [StageAvg(stage, Round(t.sums[stage] / t.counts[stage] as real))];
      k := k + 1;
    }
    assert t.order[..|t.order|] == t.order;
  }

  /** The inner `forEach` over one project's stageDurations. */
  method VisitProject(ps: seq<ProjectData>, i: nat, t: Totals) returns (next: Totals)
    requires i < |ps| && t == TallyOf(Entries(ps[..i]))
    ensures next == TallyOf(Entries(ps[..i + 1]))
  {
    next := VisitPairs(Entries(ps[..i]), ps[i].stageDurations, t);
    EntriesStep(ps, i);
  }

  method VisitPairs(before: seq<Entry>, es: seq<Entry>, t: Totals) returns (next: Totals)
    requires t == TallyOf(before)
    ensures next == TallyOf(before + es)
  {
    next := t;
    assert before + es[..0] == before;
    var j := 0;
    while j < |es|
      invariant 0 <= j <= |es|
      invariant next == TallyOf(before + es[..j])
    {
      next := VisitPair(before, es, j, next);
      j := j + 1;
    }
    assert es[..|es|] == es;
  }

  /** The body of the inner `forEach`. */
  method VisitPair(before: seq<Entry>, es: seq<Entry>, j: nat, t: Totals) returns (next: Totals)
    requires j < |es| && t == TallyOf(before + es[..j])
    ensures next == TallyOf(before + es[..j + 1])
  {
    var (stage, days) := es[j];
    next := t;
    if days > 0.0 {
      next := Add(next, stage, days);
    }
    TallySnoc(before + es[..j], es[j]);
    assert before + es[..j + 1] == before + es[..j] + [es[j]];
  }

  lemma TallySnoc(es: seq<Entry>, e: Entry)
    ensures TallyOf(es + [e]) == Visit(TallyOf(es), e)
  {
    assert (es + [e])[..|es|] == es;
  }

  lemma EntriesStep(ps: seq<ProjectData>, i: nat)
    requires i < |ps|
    ensures Entries(ps[..i + 1]) == Entries(ps[..i]) + ps[i].stageDurations
  {
    assert ps[..i + 1][..i] == ps[..i];
  }
}
