/** What the rollup tables mean: rows agree with direct aggregation of the raw samples, and deletion of old
    samples cannot be told from the tables. */
module RollupLaws {
  import opened Reals
  import opened Rollup
  import Regression

  // ---------------------------------------------------------------- what an aggregate says

  /** The minimum is a lower bound that some sample of the group attains, and so for the maximum. */
  lemma {:induction false} TotalBounds(g: Group, xs: seq<Sample>, x: Sample)
    requires x in xs && g(x)
    ensures TotalOf(g, xs).Total? && TotalOf(g, xs).min <= x.value <= TotalOf(g, xs).max
  {
    var front, last := xs[..|xs| - 1], xs[|xs| - 1];
    if x in front {
      TotalBounds(g, front, x);
    }
  }

  lemma {:induction false} TotalAttained(g: Group, xs: seq<Sample>) returns (lowest: Sample, highest: Sample)
    requires TotalOf(g, xs).Total?
    ensures lowest in xs && g(lowest) && lowest.value == TotalOf(g, xs).min
    ensures highest in xs && g(highest) && highest.value == TotalOf(g, xs).max
  {
    var front, last := xs[..|xs| - 1], xs[|xs| - 1];
    if TotalOf(g, front).Total? {
      lowest, highest := TotalAttained(g, front);
      if g(last) {
        lowest := if last.value < lowest.value then last else lowest;
        highest := if last.value > highest.value then last else highest;
      }
    } else {
      lowest, highest := last, last;
    }
  }

  /** The values of the samples of a group. */
  function Picked(g: Group, xs: seq<Sample>): Regression.Vector {
    if xs == [] then []
    else Picked(g, xs[..|xs| - 1]) + if g(xs[|xs| - 1]) then [xs[|xs| - 1].value] else []
  }

  lemma {:induction false} TotalListed(g: Group, xs: seq<Sample>)
    ensures TotalOf(g, xs) == Nothing <==> Picked(g, xs) == []
    ensures TotalOf(g, xs).Total? ==>
              TotalOf(g, xs).count == |Picked(g, xs)| && TotalOf(g, xs).sum == Regression.Total(Picked(g, xs))
  {
    if xs != [] {
      var front, x := Picked(g, xs[..|xs| - 1]), xs[|xs| - 1];
      TotalListed(g, xs[..|xs| - 1]);
      if g(x) {
        var all := front + [x.value];
        Regression.DotGrows(all, all, |front|);
        assert all[..|front|] == front && all[..|front| + 1] == all;
        if front == [] {
          assert Regression.Total(front) == 0.0;
        }
      } else {
        assert Picked(g, xs) == front;
      }
    }
  }

  /** A row holds the number and the mean of its group's values. */
  lemma {:induction false} RowIsMean(g: Group, xs: seq<Sample>)
    requires Picked(g, xs) != []
    ensures RowOf(TotalOf(g, xs)).count == |Picked(g, xs)|
    ensures RowOf(TotalOf(g, xs)).avg == Regression.Mean(Picked(g, xs))
  {
    TotalListed(g, xs);
  }

  // ---------------------------------------------------------------- hourly rows

  /** The row of the key, and its absence, are those of direct aggregation of every sample of the hour. */
  ghost predicate ExactHour(xs: seq<Sample>, hourly: map<HourKey, Rollup>, k: HourKey) {
    var t := TotalOf(HourGroup(k), xs);
    (k in hourly <==> t.Total?) && (k in hourly ==> hourly[k] == RowOf(t))
  }

  /** The samples of the hour that the window does not reach. */
  function MissedGroup(k: HourKey, lo: int, hi: int): Group {
    (x: Sample) => KeyOf(x) == k && !InWindow(x, lo, hi)
  }

  lemma {:induction false} HourSplits(xs: seq<Sample>, lo: int, hi: int, k: HourKey)
    ensures TotalOf(HourGroup(k), xs) == Merge(TotalOf(WindowGroup(k, lo, hi), xs), TotalOf(MissedGroup(k, lo, hi), xs))
  {
    TotalOfUnion(HourGroup(k), WindowGroup(k, lo, hi), MissedGroup(k, lo, hi), xs);
  }

  /** A row of the statement equals the aggregate of the whole hour just when the window holds the whole hour's
      samples; otherwise it counts too few. */
  lemma {:induction false} WindowRowExact(xs: seq<Sample>, lo: int, hi: int, k: HourKey)
    requires k in WindowKeys(xs, lo, hi)
    ensures HourlyRows(xs, lo, hi)[k] == RowOf(TotalOf(HourGroup(k), xs))
            <==> forall x :: x in xs && KeyOf(x) == k ==> InWindow(x, lo, hi)
  {
    HourSplits(xs, lo, hi, k);
    WindowTotal(xs, lo, hi, k);
    TotalCount(MissedGroup(k, lo, hi), xs);
    assert forall x :: x in xs ==> (MissedGroup(k, lo, hi)(x) <==> KeyOf(x) == k && !InWindow(x, lo, hi));
  }

  lemma {:induction false} HourContains(x: Sample, k: HourKey)
    requires KeyOf(x) == k
    ensures k.hour * HOUR <= x.at < (k.hour + 1) * HOUR
  {
  }

  /** After the hourly statement every hour wholly inside the window is exact, whatever the table held for a
      key with samples, and an hour without samples keeps what it had. */
  lemma {:induction false} CoveredHourExact(t: Tables, before: int, k: HourKey)
    requires Lower(before) <= k.hour * HOUR && (k.hour + 1) * HOUR <= before
    ensures TotalOf(HourGroup(k), t.samples).Total? ==> ExactHour(t.samples, WithHourly(t, before).hourly, k)
    ensures TotalOf(HourGroup(k), t.samples) == Nothing
            ==> (k in WithHourly(t, before).hourly <==> k in t.hourly)
                && (k in t.hourly ==> WithHourly(t, before).hourly[k] == t.hourly[k])
  {
    var lo := Lower(before);
    WindowTotal(t.samples, lo, before, k);
    forall x | x in t.samples && KeyOf(x) == k ensures InWindow(x, lo, before) {
      HourContains(x, k);
    }
    TotalOfSame(HourGroup(k), WindowGroup(k, lo, before), t.samples);
  }

  /** An exact row stays exact under another pass just when that pass sees all samples of the hour or none:
      re-running on an overlapping range replaces an exact row by one of the covered part only. */
  lemma {:induction false} RerunKeepsExact(t: Tables, before: int, k: HourKey)
    requires ExactHour(t.samples, t.hourly, k)
    ensures ExactHour(t.samples, WithHourly(t, before).hourly, k)
            <==> k !in WindowKeys(t.samples, Lower(before), before)
                 || forall x :: x in t.samples && KeyOf(x) == k ==> InWindow(x, Lower(before), before)
  {
    var lo := Lower(before);
    TotalCount(HourGroup(k), t.samples);
    if k in WindowKeys(t.samples, lo, before) {
      WindowRowExact(t.samples, lo, before, k);
      HourSplits(t.samples, lo, before, k);
      WindowTotal(t.samples, lo, before, k);
    }
  }

  /** Repeating a statement with the same cutoff and samples changes nothing. */
  lemma {:induction false} RepeatIsIdle(t: Tables, before: int)
    ensures WithHourly(WithHourly(t, before), before) == WithHourly(t, before)
    ensures WithDaily(WithDaily(t, before), before) == WithDaily(t, before)
  {
    var rows := HourlyRows(t.samples, Lower(before), before);
    assert t.hourly + rows + rows == t.hourly + rows;
    var days := DailyRows(t.hourly, before);
    assert t.daily + days + days == t.daily + days;
  }

  // ---------------------------------------------------------------- daily rows

  /** The samples of the first n hours of a day, of hours that begin before the cutoff. */
  function HoursGroup(k: DayKey, before: int, n: nat): Group {
    (x: Sample) =>
      SeriesOf(x) == k.series
      && k.day * HOURS_PER_DAY <= HourOf(x.at) < k.day * HOURS_PER_DAY + n
      && HourOf(x.at) * HOUR < before
  }

  function DayGroup(k: DayKey, before: int): Group {
    (x: Sample) => SeriesOf(x) == k.series && DayOf(HourOf(x.at)) == k.day && HourOf(x.at) * HOUR < before
  }

  ghost predicate ExactHours(xs: seq<Sample>, hourly: map<HourKey, Rollup>, k: DayKey, before: int) {
    forall h: HourKey :: h.series == k.series && DayOf(h.hour) == k.day && h.hour * HOUR < before
      ==> ExactHour(xs, hourly, h)
  }

  lemma {:induction false} DayTotalExact(xs: seq<Sample>, hourly: map<HourKey, Rollup>, k: DayKey, before: int, n: nat)
    requires n <= HOURS_PER_DAY && ExactHours(xs, hourly, k, before)
    ensures DayTotal(hourly, k, before, n) == TotalOf(HoursGroup(k, before, n), xs)
  {
    if n == 0 {
      TotalCount(HoursGroup(k, before, 0), xs);
    } else {
      DayTotalExact(xs, hourly, k, before, n - 1);
      var h := HourKey(k.series, k.day * HOURS_PER_DAY + n - 1);
      if h.hour * HOUR < before {
        assert ExactHour(xs, hourly, h);
        TotalOfUnion(HoursGroup(k, before, n), HoursGroup(k, before, n - 1), HourGroup(h), xs);
        TotalCount(HourGroup(h), xs);
        if h in hourly {
          WeightedRow(TotalOf(HourGroup(h), xs));
        }
      } else {
        TotalOfSame(HoursGroup(k, before, n), HoursGroup(k, before, n - 1), xs);
      }
    }
  }

  /** When the hourly rows of a day are exact, its daily row is the direct aggregate of the raw samples of those
      hours: the weighted mean of the hourly means is the mean of the samples. */
  lemma {:induction false} DayExact(xs: seq<Sample>, hourly: map<HourKey, Rollup>, k: DayKey, before: int)
    requires ExactHours(xs, hourly, k, before)
    ensures k in DailyRows(hourly, before) <==> TotalOf(DayGroup(k, before), xs).Total?
    ensures k in DailyRows(hourly, before) ==> DailyRows(hourly, before)[k] == RowOf(TotalOf(DayGroup(k, before), xs))
  {
    DayTotalExact(xs, hourly, k, before, HOURS_PER_DAY);
    TotalOfSame(HoursGroup(k, before, HOURS_PER_DAY), DayGroup(k, before), xs);
    TotalCount(DayGroup(k, before), xs);
    if k in DayKeys(hourly, before) {
      var h :| h in hourly && h.hour * HOUR < before && DayKey(h.series, DayOf(h.hour)) == k;
      assert ExactHour(xs, hourly, h);
      TotalCount(HourGroup(h), xs);
      var x :| x in xs && HourGroup(h)(x);
      assert DayGroup(k, before)(x);
    }
    if TotalOf(DayGroup(k, before), xs).Total? {
      var x :| x in xs && DayGroup(k, before)(x);
      var h := KeyOf(x);
      assert ExactHour(xs, hourly, h);
      TotalCount(HourGroup(h), xs);
      assert HourGroup(h)(x);
    }
  }

  // ---------------------------------------------------------------- deletion

  lemma {:induction false} FromMembers(xs: seq<Sample>, c: int)
    ensures forall x :: x in From(xs, c) <==> x in xs && c <= x.at
  {
    if xs != [] {
      FromMembers(xs[..|xs| - 1], c);
      assert forall x :: x in xs <==> x in xs[..|xs| - 1] || x == xs[|xs| - 1];
    }
  }

  lemma {:induction false} FromAppend(xs: seq<Sample>, ys: seq<Sample>, c: int)
    ensures From(xs + ys, c) == From(xs, c) + From(ys, c)
  {
    if ys == [] {
      assert xs + ys == xs;
    } else {
      assert (xs + ys)[..|xs + ys| - 1] == xs + ys[..|ys| - 1];
      FromAppend(xs, ys[..|ys| - 1], c);
    }
  }

  lemma {:induction false} FromFrom(xs: seq<Sample>, c: int, d: int)
    requires c <= d
    ensures From(From(xs, c), d) == From(xs, d)
  {
    if xs != [] {
      var front, last := xs[..|xs| - 1], xs[|xs| - 1];
      FromFrom(front, c, d);
      FromAppend(From(front, c), if last.at < c then [] else [last], d);
    }
  }

  lemma {:induction false} DroppedCount(xs: seq<Sample>, c: int)
    ensures Dropped(xs, c) + |From(xs, c)| == |xs|
  {
    if xs != [] {
      DroppedCount(xs[..|xs| - 1], c);
    }
  }

  lemma {:induction false} TotalOfFrom(g: Group, xs: seq<Sample>, c: int)
    requires forall x :: x in xs && g(x) ==> c <= x.at
    ensures TotalOf(g, From(xs, c)) == TotalOf(g, xs)
  {
    if xs != [] {
      var front, last := xs[..|xs| - 1], xs[|xs| - 1];
      TotalOfFrom(g, front, c);
      if last.at >= c {
        assert From(xs, c)[..|From(xs, c)| - 1] == From(front, c);
      } else {
        assert From(xs, c) == From(front, c);
      }
    }
  }

  /** The statement reads the same rows after a deletion as before it just when no deleted sample lies in its
      window. */
  lemma {:induction false} DeletionUnread(xs: seq<Sample>, c: int, lo: int, hi: int)
    ensures HourlyRows(From(xs, c), lo, hi) == HourlyRows(xs, lo, hi)
            <==> forall x :: x in xs && InWindow(x, lo, hi) ==> c <= x.at
  {
    FromMembers(xs, c);
    if x :| x in xs && InWindow(x, lo, hi) && x.at < c {
      DeletedCounts(xs, c, lo, hi, x);
    } else {
      assert WindowKeys(From(xs, c), lo, hi) == WindowKeys(xs, lo, hi);
      forall k | k in WindowKeys(xs, lo, hi)
        ensures TotalOf(WindowGroup(k, lo, hi), From(xs, c)) == TotalOf(WindowGroup(k, lo, hi), xs)
      {
        TotalOfFrom(WindowGroup(k, lo, hi), xs, c);
      }
    }
  }

  lemma {:induction false} DeletedCounts(xs: seq<Sample>, c: int, lo: int, hi: int, x: Sample)
    requires x in xs && InWindow(x, lo, hi) && x.at < c
    ensures HourlyRows(From(xs, c), lo, hi) != HourlyRows(xs, lo, hi)
  {
    var k := KeyOf(x);
    var g := WindowGroup(k, lo, hi);
    assert k in WindowKeys(xs, lo, hi);
    WindowTotal(xs, lo, hi, k);
    WindowTotal(From(xs, c), lo, hi, k);
    assert g(x);
    FromCountsLess(g, xs, c, x);
    if k in WindowKeys(From(xs, c), lo, hi) {
      assert HourlyRows(From(xs, c), lo, hi)[k].count < HourlyRows(xs, lo, hi)[k].count;
    }
  }

  function CountOf(t: Total): nat {
    if t == Nothing then 0 else t.count
  }

  /** One more sample, kept or not, adds to the count from the cutoff what it adds to a group. */
  lemma {:induction false} CountGrows(g: Group, xs: seq<Sample>, c: int)
    requires xs != []
    ensures var front, last := xs[..|xs| - 1], xs[|xs| - 1];
            && CountOf(TotalOf(g, xs)) == CountOf(TotalOf(g, front)) + (if g(last) then 1 else 0)
            && CountOf(TotalOf(g, From(xs, c)))
               == CountOf(TotalOf(g, From(front, c))) + (if last.at >= c && g(last) then 1 else 0)
  {
    var front, last := xs[..|xs| - 1], xs[|xs| - 1];
    if last.at >= c {
      assert From(xs, c)[..|From(xs, c)| - 1] == From(front, c);
    } else {
      assert From(xs, c) == From(front, c);
    }
  }

  lemma {:induction false} FromCountsNoMore(g: Group, xs: seq<Sample>, c: int)
    ensures CountOf(TotalOf(g, From(xs, c))) <= CountOf(TotalOf(g, xs))
  {
    if xs != [] {
      FromCountsNoMore(g, xs[..|xs| - 1], c);
      CountGrows(g, xs, c);
    }
  }

  lemma {:induction false} FromCountsLess(g: Group, xs: seq<Sample>, c: int, x: Sample)
    requires x in xs && g(x) && x.at < c
    ensures CountOf(TotalOf(g, From(xs, c))) < CountOf(TotalOf(g, xs))
  {
    CountGrows(g, xs, c);
    if x in xs[..|xs| - 1] {
      FromCountsLess(g, xs[..|xs| - 1], c, x);
    } else {
      FromCountsNoMore(g, xs[..|xs| - 1], c);
    }
  }

  // ---------------------------------------------------------------- whole runs

  /** The rollup tables agree, and so do the samples from the cutoff on. */
  predicate Agree(a: Tables, b: Tables, c: int) {
    a.hourly == b.hourly && a.daily == b.daily && From(a.samples, c) == From(b.samples, c)
  }

  /** What a later pass can rely on: its window starts at or after every cutoff of an earlier deletion. */
  function Horizon(es: seq<Event>, c: int): int {
    if es == [] then c
    else
      var h := Horizon(es[..|es| - 1], c);
      var e := es[|es| - 1];
      if e.Delete? && e.cutoff > h then e.cutoff else h
  }

  predicate ReadsAhead(es: seq<Event>, c: int) {
    es == []
    || (ReadsAhead(es[..|es| - 1], c)
        && (es[|es| - 1].Hourly? ==> Horizon(es[..|es| - 1], c) <= Lower(es[|es| - 1].before)))
  }

  function Keeping(es: seq<Event>): seq<Event> {
    if es == [] then []
    else Keeping(es[..|es| - 1]) + if es[|es| - 1].Delete? then [] else [es[|es| - 1]]
  }

  lemma {:induction false} AgreeStep(a: Tables, b: Tables, c: int, e: Event)
    requires Agree(a, b, c) && !e.Delete? && (e.Hourly? ==> c <= Lower(e.before))
    ensures Agree(Apply(a, e), Apply(b, e), c)
  {
    match e
    case Insert(xs) =>
      FromAppend(a.samples, xs, c);
      FromAppend(b.samples, xs, c);
    case Hourly(before) =>
      DeletionUnread(a.samples, c, Lower(before), before);
      DeletionUnread(b.samples, c, Lower(before), before);
    case Daily(before) =>
  }

  lemma {:induction false} AgreeDelete(a: Tables, b: Tables, c: int, cutoff: int)
    requires Agree(a, b, c)
    ensures Agree(Without(a, cutoff), b, if cutoff > c then cutoff else c)
  {
    if cutoff > c {
      FromFrom(a.samples, cutoff, cutoff);
      FromFrom(a.samples, c, cutoff);
      FromFrom(b.samples, c, cutoff);
    } else {
      FromFrom(a.samples, cutoff, c);
    }
  }

  /** A run whose windows start after all earlier cutoffs fills the rollup tables as the run without deletions. */
  lemma {:induction false} DeletesUnobservable(a: Tables, b: Tables, c: int, es: seq<Event>)
    requires Agree(a, b, c) && ReadsAhead(es, c)
    ensures Agree(Run(a, es), Run(b, Keeping(es)), Horizon(es, c))
  {
    if es != [] {
      var front, e := es[..|es| - 1], es[|es| - 1];
      DeletesUnobservable(a, b, c, front);
      if e.Delete? {
        AgreeDelete(Run(a, front), Run(b, Keeping(front)), Horizon(front, c), e.cutoff);
        assert Keeping(es) == Keeping(front);
      } else {
        AgreeStep(Run(a, front), Run(b, Keeping(front)), Horizon(front, c), e);
        RunConcat(b, Keeping(front), [e]);
        RunOne(Run(b, Keeping(front)), e);
      }
    }
  }

  lemma {:induction false} RunOne(t: Tables, e: Event)
    ensures Run(t, [e]) == Apply(t, e)
  {
    assert [e][..0] == [];
  }
}
