/** Hourly and daily rollups of raw samples and the retention passes that delete them. Times are whole
    microseconds in UTC, so that hours nest in days. */
module Rollup {
  import opened Reals

  const HOUR := 3_600_000_000
  const HOURS_PER_DAY := 24
  const DAY := 86_400_000_000
  const WINDOW_HOURS := 3

  datatype Instance = Unset | Named(name: string)
  datatype Sample = Sample(nodeID: string, context: string, dimension: string, instance: Instance, at: int, value: real)

  /** What samples are grouped by besides time; a missing instance counts as an empty one. */
  datatype Series = Series(nodeID: string, context: string, dimension: string, instance: string)

  function SeriesOf(x: Sample): Series {
    Series(x.nodeID, x.context, x.dimension, if x.instance == Unset then "" else x.instance.name)
  }

  /** `date_trunc('hour', at)`, counted in hours. */
  function HourOf(at: int): int { at / HOUR }

  function DayOf(hour: int): int { hour / HOURS_PER_DAY }

  datatype HourKey = HourKey(series: Series, hour: int)
  datatype DayKey = DayKey(series: Series, day: int)
  datatype Rollup = Rollup(avg: real, min: real, max: real, count: nat)

  function KeyOf(x: Sample): HourKey {
    HourKey(SeriesOf(x), HourOf(x.at))
  }

  // ---------------------------------------------------------------- aggregates that merge

  datatype Total = Nothing | Total(count: nat, sum: real, min: real, max: real)

  function Min(p: real, q: real): real { if p <= q then p else q }

  function Max(p: real, q: real): real { if p >= q then p else q }

  function Merge(a: Total, b: Total): Total {
    if a == Nothing then b
    else if b == Nothing then a
    else Total(a.count + b.count, a.sum + b.sum, Min(a.min, b.min), Max(a.max, b.max))
  }

  type Group = Sample -> bool

  /** Count, sum, minimum and maximum of the samples of a group. */
  function TotalOf(g: Group, xs: seq<Sample>): Total {
    if xs == [] then Nothing
    else
      var x := xs[|xs| - 1];
      var t := TotalOf(g, xs[..|xs| - 1]);
      if g(x) then Merge(t, Total(1, x.value, x.value, x.value)) else t
  }

  /** The stored row; groups are never empty, and the guard is that of the statement's NULLIF. */
  function RowOf(t: Total): Rollup {
    if t == Nothing || t.count == 0 then Rollup(0.0, 0.0, 0.0, 0)
    else Rollup(t.sum / t.count as real, t.min, t.max, t.count)
  }

  /** What the daily statement makes of an hourly row: the mean weighted with its count. */
  function Weighted(r: Rollup): Total {
    Total(r.count, Times(r.avg, r.count as real), r.min, r.max)
  }

  lemma {:induction false} TotalCount(g: Group, xs: seq<Sample>)
    ensures TotalOf(g, xs).Total? ==> TotalOf(g, xs).count > 0
    ensures TotalOf(g, xs) == Nothing <==> forall x :: x in xs ==> !g(x)
  {
    if xs != [] {
      TotalCount(g, xs[..|xs| - 1]);
      assert forall x :: x in xs <==> x in xs[..|xs| - 1] || x == xs[|xs| - 1];
    }
  }

  /** A group that falls into two parts has the merged aggregate of the parts. */
  lemma {:induction false} TotalOfUnion(g: Group, a: Group, b: Group, xs: seq<Sample>)
    requires forall x :: x in xs ==> (g(x) <==> a(x) || b(x)) && !(a(x) && b(x))
    ensures TotalOf(g, xs) == Merge(TotalOf(a, xs), TotalOf(b, xs))
  {
    if xs != [] {
      TotalOfUnion(g, a, b, xs[..|xs| - 1]);
    }
  }

  lemma {:induction false} TotalOfSame(g: Group, h: Group, xs: seq<Sample>)
    requires forall x :: x in xs ==> (g(x) <==> h(x))
    ensures TotalOf(g, xs) == TotalOf(h, xs)
  {
    if xs != [] {
      TotalOfSame(g, h, xs[..|xs| - 1]);
    }
  }

  lemma {:induction false} WeightedRow(t: Total)
    requires t.Total? && t.count > 0
    ensures Weighted(RowOf(t)) == t
  {
    Quotient(t.sum, t.count as real);
  }

  // ---------------------------------------------------------------- the hourly statement

  predicate InWindow(x: Sample, lo: int, hi: int) {
    lo <= x.at < hi
  }

  function HourGroup(k: HourKey): Group {
    (x: Sample) => KeyOf(x) == k
  }

  function WindowGroup(k: HourKey, lo: int, hi: int): Group {
    (x: Sample) => KeyOf(x) == k && InWindow(x, lo, hi)
  }

  function WindowKeys(xs: seq<Sample>, lo: int, hi: int): set<HourKey> {
    set x | x in xs && InWindow(x, lo, hi) :: KeyOf(x)
  }

  lemma {:induction false} WindowTotal(xs: seq<Sample>, lo: int, hi: int, k: HourKey)
    ensures k in WindowKeys(xs, lo, hi) <==> TotalOf(WindowGroup(k, lo, hi), xs).Total?
    ensures k in WindowKeys(xs, lo, hi) ==> TotalOf(WindowGroup(k, lo, hi), xs).count > 0
  {
    TotalCount(WindowGroup(k, lo, hi), xs);
  }

  /** The rows the SELECT ... GROUP BY of the hourly statement returns. */
  function HourlyRows(xs: seq<Sample>, lo: int, hi: int): map<HourKey, Rollup> {
    map k | k in WindowKeys(xs, lo, hi) :: RowOf(TotalOf(WindowGroup(k, lo, hi), xs))
  }

  function Lower(before: int): int { before - WINDOW_HOURS * HOUR }

  // ---------------------------------------------------------------- the daily statement

  /** The aggregate of the hourly rows of a series before the cutoff, over the first n hours of a day. */
  function DayTotal(hourly: map<HourKey, Rollup>, k: DayKey, before: int, n: nat): Total {
    if n == 0 then Nothing
    else
      var hour := k.day * HOURS_PER_DAY + n - 1;
      var t := DayTotal(hourly, k, before, n - 1);
      if HourKey(k.series, hour) in hourly && hour * HOUR < before
      then Merge(t, Weighted(hourly[HourKey(k.series, hour)]))
      else t
  }

  function DayKeys(hourly: map<HourKey, Rollup>, before: int): set<DayKey> {
    set k | k in hourly && k.hour * HOUR < before :: DayKey(k.series, DayOf(k.hour))
  }

  function DailyRows(hourly: map<HourKey, Rollup>, before: int): map<DayKey, Rollup> {
    map k | k in DayKeys(hourly, before) :: RowOf(DayTotal(hourly, k, before, HOURS_PER_DAY))
  }

  // ---------------------------------------------------------------- the store

  datatype Tables = Tables(samples: seq<Sample>, hourly: map<HourKey, Rollup>, daily: map<DayKey, Rollup>)

  function WithHourly(t: Tables, before: int): Tables {
    t.(hourly := t.hourly + HourlyRows(t.samples, Lower(before), before))
  }

  function WithDaily(t: Tables, before: int): Tables {
    t.(daily := t.daily + DailyRows(t.hourly, before))
  }

  function From(xs: seq<Sample>, cutoff: int): seq<Sample> {
    if xs == [] then []
    else From(xs[..|xs| - 1], cutoff) + if xs[|xs| - 1].at < cutoff then [] else [xs[|xs| - 1]]
  }

  function Dropped(xs: seq<Sample>, cutoff: int): nat {
    if xs == [] then 0
    else Dropped(xs[..|xs| - 1], cutoff) + if xs[|xs| - 1].at < cutoff then 1 else 0
  }

  function Without(t: Tables, cutoff: int): Tables {
    t.(samples := From(t.samples, cutoff))
  }

  /** What changes the tables: arriving samples and the three statements of a retention pass. */
  datatype Event = Insert(xs: seq<Sample>) | Hourly(before: int) | Daily(before: int) | Delete(cutoff: int)

  function Apply(t: Tables, e: Event): Tables {
    match e
    case Insert(xs) => t.(samples := t.samples + xs)
    case Hourly(before) => WithHourly(t, before)
    case Daily(before) => WithDaily(t, before)
    case Delete(cutoff) => Without(t, cutoff)
  }

  function Run(t: Tables, es: seq<Event>): Tables {
    if es == [] then t else Apply(Run(t, es[..|es| - 1]), es[|es| - 1])
  }

  lemma {:induction false} RunConcat(t: Tables, es: seq<Event>, fs: seq<Event>)
    ensures Run(t, es + fs) == Run(Run(t, es), fs)
  {
    if fs == [] {
      assert es + fs == es;
    } else {
      assert (es + fs)[..|es + fs| - 1] == es + fs[..|fs| - 1];
      RunConcat(t, es, fs[..|fs| - 1]);
    }
  }

  lemma {:induction false} InTurn(
      t0: Tables, t1: Tables, t2: Tables, t3: Tables, a: seq<Event>, b: seq<Event>, c: seq<Event>)
    requires t1 == Run(t0, a) && t2 == Run(t1, b) && t3 == Run(t2, c)
    ensures t3 == Run(t0, a + b + c)
  {
    RunConcat(t0, a, b);
    RunConcat(t0, a + b, c);
  }

  /** A statement takes effect unless it fails, as a run of at most one event. */
  function Unless(fails: bool, e: Event): seq<Event> {
    if fails then [] else [e]
  }

  /** The clock readings of a pass, and the statements of it that fail. */
  datatype Clock = Clock(hourly: int, daily: int, delete: int)
  datatype Faults = Faults(hourly: bool, daily: bool, delete: bool)

  /** The statements that take effect in one retention pass: aggregate first, delete later. */
  function Pass(now: Clock, f: Faults, retention: int): seq<Event> {
    Unless(f.hourly, Hourly(now.hourly - HOUR))
    + Unless(f.daily, Daily(now.daily - DAY))
    + Unless(f.delete, Delete(now.delete - retention))
  }

  datatype Answer = Rows(count: nat) | Failed

  class Store {
    var samples: seq<Sample>
    var hourly: map<HourKey, Rollup>
    var daily: map<DayKey, Rollup>

    ghost function Now(): Tables
      reads this
    {
      Tables(samples, hourly, daily)
    }

    method AggregateHourly(before: int, fails: bool) returns (answer: Answer)
      modifies this
      ensures Now() == Run(old(Now()), Unless(fails, Hourly(before)))
      ensures answer == if fails then Failed else Rows(|WindowKeys(samples, Lower(before), before)|)
    {
      if fails {
        return Failed;
      }
      var lowerBound := before - 3 * HOUR;
      var rows := HourlyRows(samples, lowerBound, before);
      assert rows.Keys == WindowKeys(samples, lowerBound, before);
      hourly := hourly + rows;
      return Rows(|rows|);
    }

    method AggregateDaily(before: int, fails: bool) returns (answer: Answer)
      modifies this
      ensures Now() == Run(old(Now()), Unless(fails, Daily(before)))
      ensures answer == if fails then Failed else Rows(|DayKeys(hourly, before)|)
    {
      if fails {
        return Failed;
      }
      var rows := DailyRows(hourly, before);
      assert rows.Keys == DayKeys(hourly, before);
      daily := daily + rows;
      return Rows(|rows|);
    }

    method DeleteOldSamples(now: int, olderThan: int, fails: bool) returns (answer: Answer)
      modifies this
      ensures Now() == Run(old(Now()), Unless(fails, Delete(now - olderThan)))
      ensures answer == if fails then Failed else Rows(Dropped(old(samples), now - olderThan))
    {
      if fails {
        return Failed;
      }
      var cutoff := now - olderThan;
      answer := Rows(Dropped(samples, cutoff));
      samples := From(samples, cutoff);
    }

    /** A failed statement is logged and the pass goes on. */
    method RunRetention(now: Clock, f: Faults, retention: int)
      modifies this
      ensures Now() == Run(old(Now()), Pass(now, f, retention))
    {
      ghost var t0 := Now();
      var rolledHourly := AggregateHourly(now.hourly - HOUR, f.hourly);
      ghost var t1 := Now();
      var rolledDaily := AggregateDaily(now.daily - DAY, f.daily);
      ghost var t2 := Now();
      var deleted := DeleteOldSamples(now.delete, retention, f.delete);
      InTurn(t0, t1, t2, Now(),
        Unless(f.hourly, Hourly(now.hourly - HOUR)),
        Unless(f.daily, Daily(now.daily - DAY)),
        Unless(f.delete, Delete(now.delete - retention)));
    }
  }
}
