/** The rollups in plain time: hours, days, windows and cutoffs as microseconds since the epoch, in UTC. */
module RollupCalendar {
  import opened Rollup
  import opened RollupLaws

  // ---------------------------------------------------------------- hours, days and series

  lemma {:induction false} HourByTime(x: Sample, h: int)
    ensures KeyOf(x).hour == h <==> h * 3_600_000_000 <= x.at < (h + 1) * 3_600_000_000
  {
  }

  lemma {:induction false} DayByTime(x: Sample, d: int)
    ensures DayOf(KeyOf(x).hour) == d <==> d * 86_400_000_000 <= x.at < (d + 1) * 86_400_000_000
  {
  }

  lemma {:induction false} HoursOfDay(h: int, d: int)
    ensures DayOf(h) == d <==> d * 24 <= h < d * 24 + 24
    ensures DayOf(h) == d <==> d * 86_400_000_000 <= h * 3_600_000_000 < (d + 1) * 86_400_000_000
  {
  }

  predicate NoInstance(i: Instance) {
    i == Unset || i == Named("")
  }

  /** Samples belong to one series when node, context, dimension and instance agree, where none and the empty
      instance are the same. */
  lemma {:induction false} SameSeries(x: Sample, y: Sample)
    ensures SeriesOf(x) == SeriesOf(y)
       <==> && x.nodeID == y.nodeID && x.context == y.context && x.dimension == y.dimension
            && (x.instance == y.instance || (NoInstance(x.instance) && NoInstance(y.instance)))
  {
  }

  // ---------------------------------------------------------------- the hourly statement

  function Between(s: Series, from: int, to: int): Group {
    (x: Sample) => SeriesOf(x) == s && from <= x.at < to
  }

  function Latest(a: int, b: int): int { if a < b then b else a }

  function Earliest(a: int, b: int): int { if a < b then a else b }

  /** The hourly statement gives an hour of a series the aggregate of its samples in the hour and in the three hours
      before the cutoff, and no row if there are none. */
  lemma {:induction false} HourlyByTime(t: Tables, before: int, k: HourKey)
    ensures var from := Latest(k.hour * 3_600_000_000, before - 10_800_000_000);
            var to := Earliest((k.hour + 1) * 3_600_000_000, before);
            var total := TotalOf(Between(k.series, from, to), t.samples);
            var rows := WithHourly(t, before).hourly;
            && (total.Total? ==> k in rows && rows[k] == RowOf(total))
            && (total == Nothing ==> (k in rows <==> k in t.hourly) && (k in t.hourly ==> rows[k] == t.hourly[k]))
  {
    var from := Latest(k.hour * 3_600_000_000, before - 10_800_000_000);
    var to := Earliest((k.hour + 1) * 3_600_000_000, before);
    WindowTotal(t.samples, Lower(before), before, k);
    forall x | x in t.samples ensures WindowGroup(k, Lower(before), before)(x) <==> Between(k.series, from, to)(x) {
      HourByTime(x, k.hour);
    }
    TotalOfSame(WindowGroup(k, Lower(before), before), Between(k.series, from, to), t.samples);
  }

  // ---------------------------------------------------------------- the daily statement

  /** A day of a series gets a row exactly when one of its 24 hours has one and begins before the cutoff. */
  lemma {:induction false} DaysWithRows(hourly: map<HourKey, Rollup>, before: int, k: DayKey)
    ensures k in DailyRows(hourly, before)
       <==> exists h :: k.day * 24 <= h < k.day * 24 + 24 && h * 3_600_000_000 < before
                        && HourKey(k.series, h) in hourly
  {
    if k in DailyRows(hourly, before) {
      var h :| h in hourly && h.hour * HOUR < before && DayKey(h.series, DayOf(h.hour)) == k;
      HoursOfDay(h.hour, k.day);
      assert HourKey(k.series, h.hour) == h;
    }
    if h :| k.day * 24 <= h < k.day * 24 + 24 && h * 3_600_000_000 < before && HourKey(k.series, h) in hourly {
      HoursOfDay(h, k.day);
      assert DayKey(k.series, DayOf(h)) == k;
    }
  }

  /** The rows of the 24 hours of a day, as far as they begin before the cutoff, are exact. */
  ghost predicate DayIsExact(xs: seq<Sample>, hourly: map<HourKey, Rollup>, k: DayKey, before: int) {
    forall h :: k.day * 24 <= h < k.day * 24 + 24 && h * 3_600_000_000 < before
      ==> ExactHour(xs, hourly, HourKey(k.series, h))
  }

  /** The samples of a series on a day, of hours that begin before the cutoff. */
  function OnDay(k: DayKey, before: int): Group {
    (x: Sample) =>
      && SeriesOf(x) == k.series && k.day * 86_400_000_000 <= x.at < (k.day + 1) * 86_400_000_000
      && x.at / 3_600_000_000 * 3_600_000_000 < before
  }

  /** When the 24 hourly rows are exact the daily row is the aggregate of the samples between one midnight and the
      next, up to the cutoff's hour. */
  lemma {:induction false} DailyByTime(xs: seq<Sample>, hourly: map<HourKey, Rollup>, k: DayKey, before: int)
    requires DayIsExact(xs, hourly, k, before)
    ensures var total := TotalOf(OnDay(k, before), xs);
            && (k in DailyRows(hourly, before) <==> total.Total?)
            && (total.Total? ==> DailyRows(hourly, before)[k] == RowOf(total))
  {
    forall h: HourKey | h.series == k.series && DayOf(h.hour) == k.day && h.hour * HOUR < before
      ensures ExactHour(xs, hourly, h)
    {
      HoursOfDay(h.hour, k.day);
      assert HourKey(k.series, h.hour) == h;
    }
    DayExact(xs, hourly, k, before);
    forall x | x in xs ensures DayGroup(k, before)(x) <==> OnDay(k, before)(x) {
      DayByTime(x, k.day);
    }
    TotalOfSame(DayGroup(k, before), OnDay(k, before), xs);
  }

  /** Once a day lies before the cutoff as a whole, its row is that of all samples from one midnight to the next. */
  lemma {:induction false} CompleteDay(xs: seq<Sample>, hourly: map<HourKey, Rollup>, k: DayKey, before: int)
    requires (k.day + 1) * 86_400_000_000 <= before && DayIsExact(xs, hourly, k, before)
    ensures var total := TotalOf(Between(k.series, k.day * 86_400_000_000, (k.day + 1) * 86_400_000_000), xs);
            total.Total? ==> k in DailyRows(hourly, before) && DailyRows(hourly, before)[k] == RowOf(total)
  {
    DailyByTime(xs, hourly, k, before);
    TotalOfSame(OnDay(k, before), Between(k.series, k.day * 86_400_000_000, (k.day + 1) * 86_400_000_000), xs);
  }

  // ---------------------------------------------------------------- a whole pass

  const NO_FAULTS := Faults(false, false, false)

  lemma {:induction false} ThreeStatements(t: Tables, a: int, b: int, c: int, es: seq<Event>)
      returns (u: Tables, v: Tables)
    requires es == [Hourly(a)] + [Daily(b)] + [Delete(c)]
    ensures u == WithHourly(t, a) && v == WithDaily(u, b)
    ensures Run(t, es) == Without(v, c)
  {
    u := WithHourly(t, a);
    v := WithDaily(u, b);
    RunOne(t, Hourly(a));
    RunOne(u, Daily(b));
    RunOne(v, Delete(c));
    InTurn(t, u, v, Without(v, c), [Hourly(a)], [Daily(b)], [Delete(c)]);
  }

  lemma {:induction false} StatementsOfPass(now: Clock, retention: int, a: int, b: int, c: int)
    requires a == now.hourly - 3_600_000_000 && b == now.daily - 86_400_000_000 && c == now.delete - retention
    ensures Pass(now, NO_FAULTS, retention) == [Hourly(a)] + [Daily(b)] + [Delete(c)]
  {
  }

  /** The statements of a pass fail independently, and run in the order hourly, daily, deletion. */
  lemma {:induction false} StatementsByTime(now: Clock, f: Faults, retention: int, es: seq<Event>)
    requires es == Pass(now, f, retention)
    ensures forall e :: e in es
              <==> || (!f.hourly && e == Hourly(now.hourly - 3_600_000_000))
                   || (!f.daily && e == Daily(now.daily - 86_400_000_000))
                   || (!f.delete && e == Delete(now.delete - retention))
    ensures forall i, j :: 0 <= i < j < |es| ==> (es[i].Hourly? && !es[j].Hourly?) || (es[i].Daily? && es[j].Delete?)
  {
  }

  /** A pass without faults aggregates up to an hour ago and a day ago, then keeps the samples that are not older than
      the retention. */
  lemma {:induction false} PassByTime(t: Tables, now: Clock, retention: int, es: seq<Event>, a: int, b: int)
      returns (u: Tables, v: Tables)
    requires es == Pass(now, NO_FAULTS, retention)
    requires a == now.hourly - 3_600_000_000 && b == now.daily - 86_400_000_000
    ensures u == WithHourly(t, a) && v == WithDaily(u, b)
    ensures Run(t, es).hourly == u.hourly && Run(t, es).daily == v.daily
    ensures forall x :: x in Run(t, es).samples <==> x in t.samples && now.delete - x.at <= retention
  {
    var c := now.delete - retention;
    StatementsOfPass(now, retention, a, b, c);
    u, v := ThreeStatements(t, a, b, c, es);
    FromMembers(t.samples, c);
    assert v.samples == t.samples;
  }

  /** A day that ended a day before a pass gets from it the aggregate of all its samples, if the hourly statement of
      the pass leaves exact rows for its hours. */
  lemma {:induction false} DayAfterPass(
      t: Tables, now: Clock, retention: int, es: seq<Event>, k: DayKey, before: int, total: Total)
    requires es == Pass(now, NO_FAULTS, retention)
    requires before == now.daily - 86_400_000_000 && (k.day + 1) * 86_400_000_000 <= before
    requires DayIsExact(t.samples, Run(t, es).hourly, k, before)
    requires total == TotalOf(Between(k.series, k.day * 86_400_000_000, (k.day + 1) * 86_400_000_000), t.samples)
    requires total.Total?
    ensures k in Run(t, es).daily && Run(t, es).daily[k] == RowOf(total)
  {
    var u, v := PassByTime(t, now, retention, es, now.hourly - 3_600_000_000, before);
    CompleteDay(t.samples, u.hourly, k, before);
  }
}
