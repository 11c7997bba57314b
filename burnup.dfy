/** The burnup chart's series (`chartData` of dash_old/components/BurnupChart.tsx
    and react-app/src/components/BurnupChart.tsx): one point per month from
    the month of the earliest task end to three months after the latest,
    with the planned and the completed task counts up to each month's end,
    and a least-squares forecast for the months without a realized count.
    The second front end first passes through a workbook's own burnup table. */
module Burnup {
  import opened Options
  import opened Seqs
  import opened JsNumbers
  import opened Calendar
  import opened Domain

  /** `data.flatMap(p => p.tasks || [])`. */
  function AllTasks(ps: seq<ProjectData>): (r: seq<TaskData>)
    ensures |ps| == 0 ==> r == []
  {
    if |ps| == 0 then [] else AllTasks(ps[..|ps| - 1]) + ps[|ps| - 1].tasks
  }

  /** A task is in the flattened list exactly when some project holds it. */
  lemma {:induction false} AllTasksMembers(ps: seq<ProjectData>, t: TaskData)
    ensures t in AllTasks(ps) <==> exists k :: 0 <= k < |ps| && t in ps[k].tasks
  {
    if |ps| > 0 {
      var init := ps[..|ps| - 1];
      AllTasksMembers(init, t);
      if exists k :: 0 <= k < |ps| && t in ps[k].tasks {
        var k :| 0 <= k < |ps| && t in ps[k].tasks;
        if k < |init| {
          assert init[k] == ps[k];
        }
      }
      if exists k :: 0 <= k < |init| && t in init[k].tasks {
        var k :| 0 <= k < |init| && t in init[k].tasks;
        assert ps[k] == init[k];
      }
    }
  }

  /** `[t]` when `t !== null && t > 0`, else `[]`. */
  function PositiveStamp(t: Option<int>): seq<int> {
    if t.Some? && t.value > 0 then [t.value] else []
  }

  /** `allTasks.flatMap(t => [t.plannedEnd, t.actualEnd]).filter(t => t !== null && t > 0)`. */
  function Stamps(ts: seq<TaskData>): (r: seq<int>)
    ensures forall k :: 0 <= k < |r| ==> r[k] > 0
  {
    if |ts| == 0 then []
    else Stamps(ts[..|ts| - 1]) + PositiveStamp(ts[|ts| - 1].plannedEnd) + PositiveStamp(ts[|ts| - 1].actualEnd)
  }

  predicate EndsAt(t: TaskData, x: int) {
    t.plannedEnd == Some(x) || t.actualEnd == Some(x)
  }

  /** The timestamps are exactly the positive planned and actual ends. */
  lemma {:induction false} StampsMembers(ts: seq<TaskData>, x: int)
    ensures x in Stamps(ts) <==> x > 0 && exists k :: 0 <= k < |ts| && EndsAt(ts[k], x)
  {
    if |ts| > 0 {
      var init := ts[..|ts| - 1];
      StampsMembers(init, x);
      if exists k :: 0 <= k < |ts| && EndsAt(ts[k], x) {
        var k :| 0 <= k < |ts| && EndsAt(ts[k], x);
        if k < |init| {
          assert init[k] == ts[k];
        }
      }
      if exists k :: 0 <= k < |init| && EndsAt(init[k], x) {
        var k :| 0 <= k < |init| && EndsAt(init[k], x);
        assert ts[k] == init[k];
      }
    }
  }

  /** The calendar the chart reads: the first instant and the last second
      of month `m`, and the month that holds timestamp `t`. Months are
      numbered `year * 12 + month`. */
  datatype Months = Months(start: int -> int, end: int -> int, of: int -> int)

  /** The proleptic Gregorian calendar, local time taken as UTC. */
  function Gregorian(): Months {
    Months((m: int) => MonthStartMs(m), (m: int) => MonthEndMs(m), (t: int) => MonthIndex(t))
  }

  /** Each month's last second lies inside it, before the next month. */
  ghost predicate EndsInside(c: Months) {
    forall m {:trigger c.end(m)} :: c.start(m) < c.end(m) < c.start(m + 1)
  }

  /** Every timestamp lies in its month. */
  ghost predicate OfHolds(c: Months) {
    forall t {:trigger c.of(t)} :: c.start(c.of(t)) <= t < c.start(c.of(t) + 1)
  }

  ghost predicate IsCalendar(c: Months) {
    EndsInside(c) && OfHolds(c)
  }

  /** The calendars the chart may be drawn on. */
  type CalendarMonths = c: Months | IsCalendar(c)
    witness Months((m: int) => 2 * m, (m: int) => 2 * m + 1, (t: int) => t / 2)

  lemma GregorianIsCalendar()
    ensures IsCalendar(Gregorian())
  {
    GregorianEnds();
    GregorianOf();
  }

  lemma GregorianEnds()
    ensures EndsInside(Gregorian())
  {
    forall m ensures Gregorian().start(m) < Gregorian().end(m) < Gregorian().start(m + 1) {
      assert MonthStartMs(m) < MonthEndMs(m) < MonthStartMs(m + 1);
    }
  }

  lemma GregorianOf()
    ensures OfHolds(Gregorian())
  {
    forall t ensures Gregorian().start(Gregorian().of(t)) <= t < Gregorian().start(Gregorian().of(t) + 1) {
      GregorianOfAt(t);
    }
  }

  lemma GregorianOfAt(t: int)
    ensures Gregorian().start(Gregorian().of(t)) <= t < Gregorian().start(Gregorian().of(t) + 1)
  {
    var m := MonthIndex(t);
    assert InMonth(t, m);
    assert Gregorian().of(t) == m;
    assert Gregorian().start(m) == MonthStartMs(m);
    assert Gregorian().start(m + 1) == MonthStartMs(m + 1);
  }

  /** Later months start later. */
  lemma {:induction false} StartMonotone(c: Months, a: int, b: int)
    requires EndsInside(c)
    ensures a <= b ==> c.start(a) <= c.start(b)
    decreases b - a
  {
    if a < b {
      assert c.start(a) < c.end(a) < c.start(a + 1);
      StartMonotone(c, a + 1, b);
    }
  }

  /** Later timestamps lie in later (or the same) months. */
  lemma OfMonotone(c: CalendarMonths, t: int, u: int)
    requires t <= u
    ensures c.of(t) <= c.of(u)
  {
    StartMonotone(c, c.of(u) + 1, c.of(t));
  }

  /** Later months end later. */
  lemma EndMonotone(c: CalendarMonths, a: int, b: int)
    requires a <= b
    ensures c.end(a) <= c.end(b)
  {
    if a < b {
      StartMonotone(c, a + 1, b);
      assert c.end(a) < c.start(a + 1) <= c.start(b) < c.end(b);
    }
  }

  /** The months of the axis: `first` is the month of the earliest
      timestamp, and `count` months run to three after the latest one's. */
  datatype Axis = Axis(first: int, count: nat)

  /** `eachMonthOfInterval` from `start.setDate(1)` to `addMonths(maxTime, 3)`. */
  function MonthAxis(c: CalendarMonths, stamps: seq<int>): (a: Axis)
    requires |stamps| > 0
    ensures a.count >= 4
    ensures forall k :: 0 <= k < |stamps| ==> a.first <= c.of(stamps[k]) <= a.first + a.count - 4
    ensures exists k :: 0 <= k < |stamps| && c.of(stamps[k]) == a.first
    ensures exists k :: 0 <= k < |stamps| && c.of(stamps[k]) == a.first + a.count - 4
  {
    var lo, hi := MinOf(stamps), MaxOf(stamps);
    OfMonotone(c, lo, hi);
    assert forall k :: 0 <= k < |stamps| ==> c.of(lo) <= c.of(stamps[k]) <= c.of(hi) by {
      forall k | 0 <= k < |stamps| ensures c.of(lo) <= c.of(stamps[k]) <= c.of(hi) {
        OfMonotone(c, lo, stamps[k]);
        OfMonotone(c, stamps[k], hi);
      }
    }
    Axis(c.of(lo), c.of(hi) + 4 - c.of(lo))
  }

  /** `isBefore(month, now) || month.getMonth() === now.getMonth()`, for the
      first instant of month `m`. */
  predicate PastOrCurrent(c: Months, m: int, now: int) {
    c.start(m) < now || MonthOfYear(m) == MonthOfYear(c.of(now))
  }

  /** A month counts as past or current exactly when it is before the month
      of `now`, or has the same month of the year as `now` in any year. */
  lemma PastOrCurrentMonths(c: CalendarMonths, m: int, now: int)
    ensures PastOrCurrent(c, m, now) <==> m < c.of(now) || MonthOfYear(m) == MonthOfYear(c.of(now))
  {
    var n := c.of(now);
    if m < n {
      StartMonotone(c, m + 1, n);
      assert c.start(m) < c.end(m) < c.start(m + 1) <= c.start(n) <= now;
    } else if m > n {
      StartMonotone(c, n + 1, m);
      assert now < c.start(n + 1) <= c.start(m);
    }
  }

  /** The same month of a later year is counted as current, though it has not begun. */
  lemma NextYearIsCurrent(c: CalendarMonths, now: int)
    ensures PastOrCurrent(c, c.of(now) + 12, now)
    ensures now < c.start(c.of(now) + 12)
  {
    var n := c.of(now);
    assert MonthOfYear(n + 12) == MonthOfYear(n);
    StartMonotone(c, n + 1, n + 12);
  }

  /** `t.plannedEnd && t.plannedEnd <= monthEnd` (null and 0 are falsy). */
  function PlannedBy(end: int): TaskData -> bool {
    (t: TaskData) => t.plannedEnd.Some? && t.plannedEnd.value != 0 && t.plannedEnd.value <= end
  }

  /** `t.actualEnd && t.actualEnd <= monthEnd && t.progress >= 99`. */
  function DoneBy(end: int): TaskData -> bool {
    (t: TaskData) => t.actualEnd.Some? && t.actualEnd.value != 0 && t.actualEnd.value <= end && t.progress >= 99.0
  }

  /** A point of `months.map` before the forecast is added. */
  datatype MonthPoint = MonthPoint(index: nat, month: int, baseline: nat, realized: Option<nat>, total: nat)

  /** The point of month `first + i`, counting up to its last second. */
  function MonthAt(ts: seq<TaskData>, c: Months, now: int, first: int, i: nat): (p: MonthPoint)
    ensures p.index == i && p.month == first + i && p.total == |ts|
    ensures p.baseline == Count(ts, PlannedBy(c.end(first + i)))
    ensures p.realized.Some? <==> PastOrCurrent(c, first + i, now)
    ensures p.realized.Some? ==> p.realized.value == Count(ts, DoneBy(c.end(first + i)))
    ensures p.baseline <= |ts| && (p.realized.Some? ==> p.realized.value <= |ts|)
  {
    var end := c.end(first + i);
    MonthPoint(i, first + i, Count(ts, PlannedBy(end)),
      if PastOrCurrent(c, first + i, now) then Some(Count(ts, DoneBy(end))) else None, |ts|)
  }

  /** The first `count` points of the axis. */
  function Points(ts: seq<TaskData>, c: Months, now: int, first: int, count: nat): (r: seq<MonthPoint>)
    ensures |r| == count
    ensures forall k :: 0 <= k < count ==> r[k] == MonthAt(ts, c, now, first, k)
    ensures forall k :: 0 <= k < count ==> r[k].index == k
  {
    if count == 0 then [] else Points(ts, c, now, first, count - 1) + [MonthAt(ts, c, now, first, count - 1)]
  }

  /** The planned count never decreases along the axis. */
  lemma BaselineMonotone(ts: seq<TaskData>, c: CalendarMonths, now: int, first: int, count: nat, i: nat, j: nat)
    requires i <= j < count
    ensures Points(ts, c, now, first, count)[i].baseline <= Points(ts, c, now, first, count)[j].baseline
  {
    var p := Points(ts, c, now, first, count);
    assert p[i] == MonthAt(ts, c, now, first, i) && p[j] == MonthAt(ts, c, now, first, j);
    EndMonotone(c, first + i, first + j);
    PlannedMonotone(ts, c.end(first + i), c.end(first + j));
  }

  /** Where both are present, the realized count never decreases along the axis. */
  lemma RealizedMonotone(ts: seq<TaskData>, c: CalendarMonths, now: int, first: int, count: nat, i: nat, j: nat)
    requires i <= j < count
    requires Points(ts, c, now, first, count)[i].realized.Some? && Points(ts, c, now, first, count)[j].realized.Some?
    ensures Points(ts, c, now, first, count)[i].realized.value <= Points(ts, c, now, first, count)[j].realized.value
  {
    var p := Points(ts, c, now, first, count);
    assert p[i] == MonthAt(ts, c, now, first, i) && p[j] == MonthAt(ts, c, now, first, j);
    DoneAtMonotone(ts, c, now, first, i, j);
  }

  lemma DoneAtMonotone(ts: seq<TaskData>, c: CalendarMonths, now: int, first: int, i: nat, j: nat)
    requires i <= j
    ensures Count(ts, DoneBy(c.end(first + i))) <= Count(ts, DoneBy(c.end(first + j)))
  {
    EndMonotone(c, first + i, first + j);
    DoneMonotone(ts, c.end(first + i), c.end(first + j));
  }

  lemma PlannedMonotone(ts: seq<TaskData>, e: int, f: int)
    requires e <= f
    ensures Count(ts, PlannedBy(e)) <= Count(ts, PlannedBy(f))
  {
    CountMonotone(ts, PlannedBy(e), PlannedBy(f));
  }

  lemma DoneMonotone(ts: seq<TaskData>, e: int, f: int)
    requires e <= f
    ensures Count(ts, DoneBy(e)) <= Count(ts, DoneBy(f))
  {
    CountMonotone(ts, DoneBy(e), DoneBy(f));
  }

  /** The regression accumulators `n`, `sumX`, `sumY`, `sumXY` and `sumXX`. */
  datatype Fit = Fit(n: nat, sumX: int, sumY: int, sumXY: int, sumXX: int)

  /** The accumulators after the realized points of `ps`, each taken as (index, realized). */
  function Accumulate(ps: seq<MonthPoint>): (f: Fit)
    ensures f.n <= |ps|
  {
    if |ps| == 0 then Fit(0, 0, 0, 0, 0) else Add(Accumulate(ps[..|ps| - 1]), ps[|ps| - 1])
  }

  /** One step of the accumulation: a realized point adds (index, realized). */
  function Add(f: Fit, p: MonthPoint): Fit {
    if p.realized.Some? then
      Fit(f.n + 1, f.sumX + p.index, f.sumY + p.realized.value,
        f.sumXY + p.index * p.realized.value, f.sumXX + p.index * p.index)
    else f
  }

  lemma AccumulateSnoc(ps: seq<MonthPoint>, p: MonthPoint)
    ensures Accumulate(ps + [p]) == Add(Accumulate(ps), p)
  {
    assert (ps + [p])[..|ps|] == ps;
  }

  /** The number of accumulated points is the number of realized months. */
  lemma {:induction false} AccumulateCounts(ps: seq<MonthPoint>)
    ensures Accumulate(ps).n == Count(ps, (p: MonthPoint) => p.realized.Some?)
  {
    if |ps| > 0 {
      AccumulateCounts(ps[..|ps| - 1]);
    }
  }

  /** The slope's denominator `n * sumXX - sumX * sumX`. */
  function Spread(f: Fit): int {
    f.n * f.sumXX - f.sumX * f.sumX
  }

  function Square(d: int): (r: nat)
    ensures d != 0 ==> r >= 1
  {
    if d >= 0 then d * d else (-d) * (-d)
  }

  /** The sum of `(index - x)²` over the realized points. */
  function Deviation(ps: seq<MonthPoint>, x: int): nat {
    if |ps| == 0 then 0
    else
      var p := ps[|ps| - 1];
      Deviation(ps[..|ps| - 1], x) + (if p.realized.Some? then Square(p.index - x) else 0)
  }

  lemma SquareExpand(i: int, x: int)
    ensures Square(i - x) == i * i - 2 * x * i + x * x
  {
  }

  lemma {:induction false} DeviationFormula(ps: seq<MonthPoint>, x: int)
    ensures Deviation(ps, x) == Accumulate(ps).sumXX - 2 * x * Accumulate(ps).sumX + Accumulate(ps).n * x * x
  {
    if |ps| > 0 {
      var init, p := ps[..|ps| - 1], ps[|ps| - 1];
      DeviationFormula(init, x);
      if p.realized.Some? {
        var f := Accumulate(init);
        SquareExpand(p.index, x);
        DeviationStep(f.sumXX, f.sumX, f.n, p.index, x);
      }
    }
  }

  lemma DeviationStep(q: int, s: int, n: int, i: int, x: int)
    ensures (q - 2 * x * s + n * x * x) + (i * i - 2 * x * i + x * x) == (q + i * i) - 2 * x * (s + i) + (n + 1) * x * x
  {
  }

  /** Every realized point lies at least one position away from a later `x`. */
  lemma {:induction false} DeviationAtLeast(ps: seq<MonthPoint>, x: int)
    requires forall k :: 0 <= k < |ps| ==> ps[k].index < x
    ensures Deviation(ps, x) >= Accumulate(ps).n
  {
    if |ps| > 0 {
      var init := ps[..|ps| - 1];
      assert forall k :: 0 <= k < |init| ==> init[k].index < x by {
        forall k | 0 <= k < |init| ensures init[k].index < x {
          assert init[k] == ps[k];
        }
      }
      DeviationAtLeast(init, x);
    }
  }

  lemma SpreadStep(n: int, s: int, q: int, x: int)
    ensures (n + 1) * (q + x * x) - (s + x) * (s + x) == (n * q - s * s) + (q - 2 * x * s + n * x * x)
  {
  }

  /** For the points of an axis, the denominator is never negative and is
      positive once two months are realized, because their indices differ. */
  lemma {:induction false} SpreadPositive(ps: seq<MonthPoint>)
    requires forall k :: 0 <= k < |ps| ==> ps[k].index == k
    ensures Spread(Accumulate(ps)) >= 0
    ensures Accumulate(ps).n > 1 ==> Spread(Accumulate(ps)) > 0
  {
    if |ps| > 0 {
      var init, p := ps[..|ps| - 1], ps[|ps| - 1];
      assert forall k :: 0 <= k < |init| ==> init[k].index == k by {
        forall k | 0 <= k < |init| ensures init[k].index == k {
          assert init[k] == ps[k];
        }
      }
      SpreadPositive(init);
      if p.realized.Some? {
        var f := Accumulate(init);
        var x := p.index;
        DeviationFormula(init, x);
        DeviationAtLeast(init, x);
        SpreadStep(f.n, f.sumX, f.sumXX, x);
        assert Spread(Accumulate(ps)) == Spread(f) + Deviation(init, x);
      }
    }
  }

  /** The least-squares line `forecast = slope * index + intercept`. */
  datatype Line = Line(slope: real, intercept: real)

  /** The slope and intercept of the source, zero unless two months are
      realized. The line then solves the least-squares normal equations. */
  function Regression(f: Fit): (l: Line)
    requires f.n > 1 ==> Spread(f) > 0
    ensures f.n <= 1 ==> l == Line(0.0, 0.0)
    ensures f.n > 1 ==> l.slope * f.sumXX as real + l.intercept * f.sumX as real == f.sumXY as real
    ensures f.n > 1 ==> l.slope * f.sumX as real + l.intercept * f.n as real == f.sumY as real
  {
    if f.n > 1 then
      var n, sx, sy, sxy, sxx := f.n as real, f.sumX as real, f.sumY as real, f.sumXY as real, f.sumXX as real;
      var d := n * sxx - sx * sx;
      assert d == Spread(f) as real;
      var m := (n * sxy - sx * sy) / d;
      var b := (sy - m * sx) / n;
      assert m * d == n * sxy - sx * sy;
      assert b * n == sy - m * sx;
      assert n * (m * sxx + b * sx) == n * sxy by {
        assert n * (m * sxx + b * sx) == m * (n * sxx) + (b * n) * sx;
        assert m * (n * sxx) + (sy - m * sx) * sx == m * d + sx * sy;
      }
      Line(m, b)
    else Line(0.0, 0.0)
  }

  /** The forecast `map`: none on realized months and for a slope that is
      not positive; otherwise the rounded line value clamped to [0, total]. */
  function Forecast(p: MonthPoint, l: Line): (r: Option<int>)
    ensures r.Some? <==> p.realized.None? && l.slope > 0.0
    ensures r.Some? ==> 0 <= r.value <= p.total
  {
    if p.realized.None? && l.slope > 0.0 then
      var v := Min(Round(l.slope * p.index as real + l.intercept), p.total);
      Some(if v < 0 then 0 else v)
    else None
  }

  /** A forecast is the line's value at the month, rounded half up and
      clamped to [0, total]. */
  lemma ForecastValue(p: MonthPoint, l: Line)
    requires Forecast(p, l).Some?
    ensures var v, r := Round(l.slope * p.index as real + l.intercept), Forecast(p, l).value;
      (0 <= v <= p.total ==> r == v) && (v > p.total ==> r == p.total) && (v < 0 ==> r == 0)
  {
  }

  /** A point of the chart. `date` is the month's first instant as a
      timestamp, standing for its ISO string; the display label is left out. */
  datatype ChartPoint = ChartPoint(
    index: nat,
    date: int,
    baseline: real,
    realized: Option<real>,
    forecast: Option<real>,
    total: real)

  function Real(v: Option<nat>): (r: Option<real>)
    ensures r.Some? <==> v.Some?
    ensures r.Some? ==> r.value == v.value as real
  {
    if v.Some? then Some(v.value as real) else None
  }

  function WithForecast(ps: seq<MonthPoint>, c: Months, l: Line): (r: seq<ChartPoint>)
    ensures |r| == |ps|
    ensures forall k :: 0 <= k < |ps| ==> r[k] == ChartPoint(ps[k].index, c.start(ps[k].month), ps[k].baseline as real,
      Real(ps[k].realized), Real(Forecast(ps[k], l)), ps[k].total as real)
  {
    seq(|ps|, k requires 0 <= k < |ps| =>
      ChartPoint(ps[k].index, c.start(ps[k].month), ps[k].baseline as real,
        Real(ps[k].realized), Real(Forecast(ps[k], l)), ps[k].total as real))
  }

  /** The points of an axis with the forecast of their regression line added. */
  function Finish(c: Months, pts: seq<MonthPoint>): (r: seq<ChartPoint>)
    requires forall k :: 0 <= k < |pts| ==> pts[k].index == k
    ensures |r| == |pts|
    ensures forall k :: 0 <= k < |pts| ==>
      r[k].index == k && r[k].date == c.start(pts[k].month) && r[k].baseline == pts[k].baseline as real &&
      r[k].realized == Real(pts[k].realized) && r[k].total == pts[k].total as real &&
      (r[k].forecast.Some? ==> pts[k].realized.None? && 0.0 <= r[k].forecast.value <= pts[k].total as real)
  {
    SpreadPositive(pts);
    WithForecast(pts, c, Regression(Accumulate(pts)))
  }

  /** The axis of a chart that has timestamps. */
  function ChartAxis(c: CalendarMonths, ps: seq<ProjectData>): Axis
    requires Stamps(AllTasks(ps)) != []
  {
    MonthAxis(c, Stamps(AllTasks(ps)))
  }

  /** The series computed from the tasks (the whole of the legacy chart):
      empty exactly when no task has a positive end, and otherwise one point
      per month of the axis. */
  function ChartData(c: CalendarMonths, ps: seq<ProjectData>, now: int): (r: seq<ChartPoint>)
    ensures r == [] <==> Stamps(AllTasks(ps)) == []
    ensures r != [] ==> |r| == ChartAxis(c, ps).count
  {
    if |ps| == 0 || |AllTasks(ps)| == 0 || |Stamps(AllTasks(ps))| == 0 then []
    else Finish(c, Points(AllTasks(ps), c, now, ChartAxis(c, ps).first, ChartAxis(c, ps).count))
  }

  /** A non-empty chart is the series of the axis of its tasks' timestamps,
      one point per month of the axis (so `SeriesPoint` describes its points). */
  lemma ChartIs(c: CalendarMonths, ps: seq<ProjectData>, now: int, a: Axis)
    requires |ChartData(c, ps, now)| > 0
    requires a == ChartAxis(c, ps)
    ensures ChartData(c, ps, now) == Finish(c, Points(AllTasks(ps), c, now, a.first, a.count))
    ensures |ChartData(c, ps, now)| == a.count
  {
  }

  /** Every count of the chart lies between 0 and the number of tasks, and
      a forecast appears only on months without a realized count. */
  lemma ChartBounds(c: CalendarMonths, ps: seq<ProjectData>, now: int, k: nat)
    requires k < |ChartData(c, ps, now)|
    ensures ChartData(c, ps, now)[k].total == |AllTasks(ps)| as real
    ensures 0.0 <= ChartData(c, ps, now)[k].baseline <= |AllTasks(ps)| as real
    ensures ChartData(c, ps, now)[k].realized.Some? ==> 0.0 <= ChartData(c, ps, now)[k].realized.value <= |AllTasks(ps)| as real
    ensures ChartData(c, ps, now)[k].forecast.Some? ==>
      ChartData(c, ps, now)[k].realized.None? && 0.0 <= ChartData(c, ps, now)[k].forecast.value <= |AllTasks(ps)| as real
  {
    SeriesPoint(AllTasks(ps), c, now, ChartAxis(c, ps).first, ChartAxis(c, ps).count, k);
  }

  /** The `k`-th point of the series of an axis is month `first + k`, dated
      at its first instant; it has a realized count exactly when that month
      is past or current; every count lies between 0 and the number of tasks;
      and a forecast appears only on a month without a realized count. */
  lemma SeriesPoint(ts: seq<TaskData>, c: Months, now: int, first: int, count: nat, k: nat)
    requires k < count
    ensures var r := Finish(c, Points(ts, c, now, first, count));
      r[k].index == k && r[k].date == c.start(first + k) && r[k].total == |ts| as real &&
      0.0 <= r[k].baseline <= |ts| as real &&
      (r[k].realized.Some? <==> PastOrCurrent(c, first + k, now)) &&
      (r[k].realized.Some? ==> 0.0 <= r[k].realized.value <= |ts| as real) &&
      (r[k].forecast.Some? ==> r[k].realized.None? && 0.0 <= r[k].forecast.value <= |ts| as real)
  {
    var pts := Points(ts, c, now, first, count);
    assert pts[k] == MonthAt(ts, c, now, first, k);
    var m := pts[k].month;
    assert m == first + k;
    assert c.start(m) == c.start(first + k);
    assert PastOrCurrent(c, m, now) == PastOrCurrent(c, first + k, now);
  }

  /** Along the series of an axis the planned count never decreases. */
  lemma SeriesMonotone(ts: seq<TaskData>, c: CalendarMonths, now: int, first: int, count: nat, i: nat, j: nat)
    requires i <= j < count
    ensures Finish(c, Points(ts, c, now, first, count))[i].baseline <= Finish(c, Points(ts, c, now, first, count))[j].baseline
  {
    BaselineMonotone(ts, c, now, first, count, i, j);
  }

  /** `months.map` with the accumulators updated in place on realized months. */
  method MonthPoints(ts: seq<TaskData>, c: Months, now: int, first: int, count: nat) returns (pts: seq<MonthPoint>, fit: Fit)
    ensures pts == Points(ts, c, now, first, count)
    ensures fit == Accumulate(pts)
  {
    var n: nat, sumX, sumY, sumXY, sumXX := 0, 0, 0, 0, 0;
    pts := [];
    var i := 0;
    while i < count
      invariant 0 <= i <= count
      invariant pts == Points(ts, c, now, first, i)
      invariant Fit(n, sumX, sumY, sumXY, sumXX) == Accumulate(pts)
    {
      var p := MonthAt(ts, c, now, first, i);
      AccumulateSnoc(pts, p);
      if p.realized.Some? {
        n := n + 1;
        sumX := sumX + i;
        sumY := sumY + p.realized.value;
        sumXY := sumXY + i * p.realized.value;
        sumXX := sumXX + i * i;
      }
      pts := pts + [p];
      i := i + 1;
    }
    fit := Fit(n, sumX, sumY, sumXY, sumXX);
  }

  /** The slope and intercept as the source computes them. */
  method FitLine(fit: Fit) returns (l: Line)
    requires fit.n > 1 ==> Spread(fit) > 0
    ensures l == Regression(fit)
  {
    var slope, intercept := 0.0, 0.0;
    if fit.n > 1 {
      slope := (fit.n as real * fit.sumXY as real - fit.sumX as real * fit.sumY as real) / Spread(fit) as real;
      intercept := (fit.sumY as real - slope * fit.sumX as real) / fit.n as real;
    }
    l := Line(slope, intercept);
  }

  /** The legacy `chartData`, on calendar `c` (the source's is `Gregorian()`). */
  method BuildChart(c: CalendarMonths, ps: seq<ProjectData>, now: int) returns (r: seq<ChartPoint>)
    ensures r == ChartData(c, ps, now)
  {
    if |ps| == 0 {
      return [];
    }
    var ts := AllTasks(ps);
    if |ts| == 0 {
      return [];
    }
    var st := Stamps(ts);
    if |st| == 0 {
      return [];
    }
    var a := ChartAxis(c, ps);
    ChartIs(c, ps, now, a);
    var pts, fit := MonthPoints(ts, c, now, a.first, a.count);
    SpreadPositive(pts);
    var l := FitLine(fit);
    r := WithForecast(pts, c, l);
  }

  /** `p.burnupData && p.burnupData.length > 0`. */
  function HasBurnup(): ProjectData -> bool {
    (p: ProjectData) => p.burnupData.Some? && |p.burnupData.value| > 0
  }

  /** `row.totalScope || row.baseline * 1.2`. */
  function RowTotal(row: BurnupRow): real {
    if row.totalScope.Some? && row.totalScope.value != 0.0 then row.totalScope.value else row.baseline * 1.2
  }

  /** The workbook's own rows, in order. */
  function Passthrough(rows: seq<BurnupRow>): (r: seq<ChartPoint>)
    ensures |r| == |rows|
    ensures forall k :: 0 <= k < |rows| ==>
      r[k].index == k && r[k].date == rows[k].date && r[k].baseline == rows[k].baseline &&
      r[k].realized == rows[k].realized && r[k].forecast == rows[k].forecast
    ensures forall k :: 0 <= k < |rows| && rows[k].totalScope.Some? && rows[k].totalScope.value != 0.0 ==>
      r[k].total == rows[k].totalScope.value
    ensures forall k :: 0 <= k < |rows| && (rows[k].totalScope.None? || rows[k].totalScope.value == 0.0) ==>
      r[k].total == rows[k].baseline * 1.2
  {
    seq(|rows|, k requires 0 <= k < |rows| =>
      ChartPoint(k, rows[k].date, rows[k].baseline, rows[k].realized, rows[k].forecast, RowTotal(rows[k])))
  }

  /** The second front end's `chartData`: the rows of the first project that
      has a burnup table, else the series computed from the tasks. */
  function ReactChartData(c: CalendarMonths, ps: seq<ProjectData>, now: int): (r: seq<ChartPoint>)
    ensures |ps| == 0 ==> r == []
    ensures forall k :: 0 <= k < |ps| && HasBurnup()(ps[k]) && (forall j :: 0 <= j < k ==> !HasBurnup()(ps[j])) ==>
      r == Passthrough(ps[k].burnupData.value)
    ensures (forall k :: 0 <= k < |ps| ==> !HasBurnup()(ps[k])) ==> r == ChartData(c, ps, now)
  {
    if |ps| == 0 then []
    else
      var k := FindIndex(ps, HasBurnup());
      if k >= 0 then Passthrough(ps[k].burnupData.value) else ChartData(c, ps, now)
  }

  method BuildReactChart(c: CalendarMonths, ps: seq<ProjectData>, now: int) returns (r: seq<ChartPoint>)
    ensures r == ReactChartData(c, ps, now)
  {
    if |ps| == 0 {
      return [];
    }
    var k := FindIndex(ps, HasBurnup());
    if k >= 0 {
      return Passthrough(ps[k].burnupData.value);
    }
    r := BuildChart(c, ps, now);
  }
}
