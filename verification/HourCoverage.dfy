/** Which hours the hourly rollup gets right over a whole run, as a condition on the schedule of its passes. */
module HourCoverage {
  import opened Rollup
  import opened RollupLaws
  import opened RetentionHistory

  // ---------------------------------------------------------------- which hours get and keep a row

  /** The window of a pass reaches into the hour. */
  predicate Touches(before: int, hour: int) {
    hour * HOUR < before && Lower(before) < (hour + 1) * HOUR
  }

  /** The hour lies wholly inside the window of a pass. */
  predicate Covers(before: int, hour: int) {
    Lower(before) <= hour * HOUR && (hour + 1) * HOUR <= before
  }

  predicate Misses(e: Event, hour: int) {
    e.Hourly? ==> !Touches(e.before, hour)
  }

  predicate AllMiss(es: seq<Event>, hour: int) {
    es == [] || (AllMiss(es[..|es| - 1], hour) && Misses(es[|es| - 1], hour))
  }

  predicate SameRow(a: Tables, b: Tables, k: HourKey) {
    (k in a.hourly <==> k in b.hourly) && (k in a.hourly ==> a.hourly[k] == b.hourly[k])
  }

  /** Arrivals, deletions, daily statements and passes whose windows miss an hour leave its rows alone. */
  lemma {:induction false} MissKeepsRow(u: Tables, e: Event, k: HourKey)
    requires Misses(e, k.hour)
    ensures SameRow(Apply(u, e), u, k)
  {
    if e.Hourly? {
      forall x | x in u.samples && KeyOf(x) == k ensures !InWindow(x, Lower(e.before), e.before) {
        HourContains(x, k);
      }
      assert k !in WindowKeys(u.samples, Lower(e.before), e.before);
    }
  }

  lemma {:induction false} MissedHourKeepsRow(t: Tables, es: seq<Event>, k: HourKey)
    requires AllMiss(es, k.hour)
    ensures SameRow(Run(t, es), t, k)
  {
    if es != [] {
      MissedHourKeepsRow(t, es[..|es| - 1], k);
      MissKeepsRow(Run(t, es[..|es| - 1]), es[|es| - 1], k);
    }
  }

  /** An hour wholly inside the window of a pass keeps the aggregate of the samples it had then, if every later
      window starts at least three hours after that one, as windows a day apart do. */
  lemma {:induction false} CoveredHourStaysExact(t: Tables, before: int, es: seq<Event>, k: HourKey)
    requires Lower(before) <= k.hour * HOUR && (k.hour + 1) * HOUR <= before
    requires forall e :: e in es && e.Hourly? ==> before + WINDOW_HOURS * HOUR <= e.before
    ensures TotalOf(HourGroup(k), t.samples).Total?
            ==> ExactHour(t.samples, Run(WithHourly(t, before), es).hourly, k)
  {
    CoveredHourExact(t, before, k);
    LaterMiss(es, k.hour);
    MissedHourKeepsRow(WithHourly(t, before), es, k);
  }

  lemma {:induction false} LaterMiss(es: seq<Event>, hour: int)
    requires forall e :: e in es ==> Misses(e, hour)
    ensures AllMiss(es, hour)
  {
    if es != [] {
      LaterMiss(es[..|es| - 1], hour);
    }
  }

  // ---------------------------------------------------------------- exactly which hours a run gets right

  /** The last hourly statement whose window reaches into the hour covers it whole. */
  predicate LastCovers(es: seq<Event>, hour: int) {
    es != []
    && if Misses(es[|es| - 1], hour) then LastCovers(es[..|es| - 1], hour)
       else Covers(es[|es| - 1].before, hour)
  }

  /** No sample of the hour arrives during the run. */
  predicate Complete(es: seq<Event>, k: HourKey) {
    forall e :: e in es && e.Insert? ==> forall x :: x in e.xs ==> KeyOf(x) != k
  }

  /** Every store that starts with samples of the hour and no row for it ends with the exact row. */
  ghost predicate RollsUp(es: seq<Event>, k: HourKey) {
    forall t: Tables :: TotalOf(HourGroup(k), t.samples).Total? && k !in t.hourly
      ==> ExactHour(t.samples, Run(t, es).hourly, k)
  }

  lemma {:induction false} TotalOfAppend(g: Group, xs: seq<Sample>, ys: seq<Sample>)
    requires forall y :: y in ys ==> !g(y)
    ensures TotalOf(g, xs + ys) == TotalOf(g, xs)
  {
    if ys == [] {
      assert xs + ys == xs;
    } else {
      assert (xs + ys)[..|xs + ys| - 1] == xs + ys[..|ys| - 1];
      TotalOfAppend(g, xs, ys[..|ys| - 1]);
    }
  }

  lemma {:induction false} EventKeepsHour(u: Tables, e: Event, k: HourKey)
    requires !e.Delete? && (e.Insert? ==> forall x :: x in e.xs ==> KeyOf(x) != k)
    ensures TotalOf(HourGroup(k), Apply(u, e).samples) == TotalOf(HourGroup(k), u.samples)
  {
    if e.Insert? {
      TotalOfAppend(HourGroup(k), u.samples, e.xs);
    } else {
      assert Apply(u, e).samples == u.samples;
    }
  }

  /** Without deletions the samples of the hour stay what they were. */
  lemma {:induction false} HourStays(t: Tables, es: seq<Event>, k: HourKey)
    requires Complete(es, k) && forall e :: e in es ==> !e.Delete?
    ensures TotalOf(HourGroup(k), Run(t, es).samples) == TotalOf(HourGroup(k), t.samples)
  {
    if es != [] {
      HourStays(t, es[..|es| - 1], k);
      EventKeepsHour(Run(t, es[..|es| - 1]), es[|es| - 1], k);
    }
  }

  lemma {:induction false} LastCoversExact(t: Tables, es: seq<Event>, k: HourKey)
    requires Complete(es, k) && forall e :: e in es ==> !e.Delete?
    requires TotalOf(HourGroup(k), t.samples).Total? && LastCovers(es, k.hour)
    ensures ExactHour(t.samples, Run(t, es).hourly, k)
  {
    var front, e := es[..|es| - 1], es[|es| - 1];
    if Misses(e, k.hour) {
      LastCoversExact(t, front, k);
      MissKeepsRow(Run(t, front), e, k);
    } else {
      HourStays(t, front, k);
      CoveredHourExact(Run(t, front), e.before, k);
    }
  }

  /** A sample in the first microsecond of the hour and one in its last. */
  function Ends(k: HourKey): seq<Sample> {
    [SampleAt(k, k.hour * HOUR), SampleAt(k, (k.hour + 1) * HOUR - 1)]
  }

  function SampleAt(k: HourKey, at: int): Sample {
    Sample(k.series.nodeID, k.series.context, k.series.dimension, Named(k.series.instance), at, 1.0)
  }

  lemma {:induction false} EndsAreInHour(k: HourKey)
    ensures KeyOf(Ends(k)[0]) == k && KeyOf(Ends(k)[1]) == k
    ensures TotalOf(HourGroup(k), Ends(k)).Total?
  {
    TotalCount(HourGroup(k), Ends(k));
    assert Ends(k)[0] in Ends(k) && HourGroup(k)(Ends(k)[0]);
  }

  lemma {:induction false} SamplesStay(t: Tables, es: seq<Event>, x: Sample)
    requires x in t.samples && forall e :: e in es ==> !e.Delete?
    ensures x in Run(t, es).samples
  {
    if es != [] {
      SamplesStay(t, es[..|es| - 1], x);
    }
  }

  /** A window that reaches into the hour and does not cover it sees exactly one of the two ends. */
  lemma {:induction false} OneEndSeen(u: Tables, before: int, k: HourKey)
    requires Touches(before, k.hour) && !Covers(before, k.hour)
    requires Ends(k)[0] in u.samples && Ends(k)[1] in u.samples
    ensures !ExactHour(u.samples, WithHourly(u, before).hourly, k)
  {
    var first, last, lo := Ends(k)[0], Ends(k)[1], Lower(before);
    EndsAreInHour(k);
    assert InWindow(first, lo, before) <==> !InWindow(last, lo, before);
    var seen := if InWindow(first, lo, before) then first else last;
    assert seen in u.samples && InWindow(seen, lo, before) && KeyOf(seen) == k;
    assert k in WindowKeys(u.samples, lo, before);
    WindowRowExact(u.samples, lo, before, k);
  }

  lemma {:induction false} UncoveredInexact(es: seq<Event>, k: HourKey)
    requires Complete(es, k) && forall e :: e in es ==> !e.Delete?
    requires !LastCovers(es, k.hour)
    ensures !ExactHour(Ends(k), Run(Tables(Ends(k), map[], map[]), es).hourly, k)
  {
    var t := Tables(Ends(k), map[], map[]);
    EndsAreInHour(k);
    if es != [] {
      var front, e := es[..|es| - 1], es[|es| - 1];
      if Misses(e, k.hour) {
        UncoveredInexact(front, k);
        MissKeepsRow(Run(t, front), e, k);
      } else {
        HourStays(t, front, k);
        SamplesStay(t, front, Ends(k)[0]);
        SamplesStay(t, front, Ends(k)[1]);
        OneEndSeen(Run(t, front), e.before, k);
      }
    }
  }

  lemma {:induction false} KeepingMembers(es: seq<Event>)
    ensures forall e :: e in Keeping(es) <==> e in es && !e.Delete?
  {
    if es != [] {
      KeepingMembers(es[..|es| - 1]);
      assert forall e :: e in es <==> e in es[..|es| - 1] || e == es[|es| - 1];
    }
  }

  lemma {:induction false} OneMoreCovers(es: seq<Event>, e: Event, hour: int)
    ensures LastCovers(es + [e], hour) <==> if Misses(e, hour) then LastCovers(es, hour) else Covers(e.before, hour)
  {
    assert (es + [e])[..|es|] == es;
  }

  lemma {:induction false} KeepingCovers(es: seq<Event>, hour: int)
    ensures LastCovers(Keeping(es), hour) <==> LastCovers(es, hour)
  {
    if es != [] {
      var front, e := es[..|es| - 1], es[|es| - 1];
      KeepingCovers(front, hour);
      OneMoreCovers(front, e, hour);
      assert front + [e] == es;
      KeepingOneMore(es);
      if !e.Delete? {
        OneMoreCovers(Keeping(front), e, hour);
      }
    }
  }

  lemma {:induction false} KeepingOneMore(es: seq<Event>)
    requires es != []
    ensures var front, e := es[..|es| - 1], es[|es| - 1];
            Keeping(es) == if e.Delete? then Keeping(front) else Keeping(front) + [e]
  {
  }

  /** Once the samples of an hour have arrived, a run gets the hour right for every store exactly when the last
      window that reaches into the hour covers it whole. Deletions that no later window reads change nothing. */
  lemma {:induction false} HourRollsUp(es: seq<Event>, k: HourKey, c: int)
    requires Complete(es, k) && ReadsAhead(es, c)
    ensures RollsUp(es, k) <==> LastCovers(es, k.hour)
  {
    var kept := Keeping(es);
    KeepingMembers(es);
    KeepingCovers(es, k.hour);
    if LastCovers(es, k.hour) {
      forall t: Tables | TotalOf(HourGroup(k), t.samples).Total? && k !in t.hourly
        ensures ExactHour(t.samples, Run(t, es).hourly, k)
      {
        LastCoversExact(t, kept, k);
        DeletesUnobservable(t, t, c, es);
      }
    } else {
      var t := Tables(Ends(k), map[], map[]);
      EndsAreInHour(k);
      UncoveredInexact(kept, k);
      DeletesUnobservable(t, t, c, es);
      assert !ExactHour(t.samples, Run(t, es).hourly, k);
    }
  }

  /** The same for the passes of a history, with samples kept for at least four hours. */
  lemma {:induction false} HistoryRollsUp(acts: seq<Action>, start: int, retention: int, k: HourKey)
    requires Timely(acts, start) && retention >= (WINDOW_HOURS + 1) * HOUR && Complete(EventsOf(acts, retention), k)
    ensures RollsUp(EventsOf(acts, retention), k) <==> LastCovers(EventsOf(acts, retention), k.hour)
  {
    PassesReadAhead(acts, start, retention);
    HourRollsUp(EventsOf(acts, retention), k, start - retention);
  }

  // ---------------------------------------------------------------- windows that do not overlap

  /** Every window ends at least three hours after the one before, as windows a day apart do. */
  predicate Spaced(es: seq<Event>) {
    forall i, j :: 0 <= i < j < |es| && es[i].Hourly? && es[j].Hourly?
      ==> es[i].before + WINDOW_HOURS * HOUR <= es[j].before
  }

  predicate CoveredBySome(es: seq<Event>, hour: int) {
    exists e :: e in es && e.Hourly? && Covers(e.before, hour)
  }

  /** Then an hour is rolled up right exactly when one window covers it: the hours in the gaps between windows, 21 a
      day, and the hours that a window cuts, are not. */
  lemma {:induction false} SpacedRollsUp(es: seq<Event>, k: HourKey, c: int)
    requires Complete(es, k) && ReadsAhead(es, c) && Spaced(es)
    ensures RollsUp(es, k) <==> CoveredBySome(es, k.hour)
  {
    SpacedCovers(es, k.hour);
    HourRollsUp(es, k, c);
  }

  lemma {:induction false} SpacedCovers(es: seq<Event>, hour: int)
    requires Spaced(es)
    ensures LastCovers(es, hour) <==> CoveredBySome(es, hour)
  {
    if es != [] {
      var front, e := es[..|es| - 1], es[|es| - 1];
      assert forall f :: f in es <==> f in front || f == e;
      SpacedCovers(front, hour);
      if e.Hourly? && Touches(e.before, hour) {
        forall f | f in front && f.Hourly? ensures !Covers(f.before, hour) {
          var i :| 0 <= i < |front| && front[i] == f;
          assert es[i] == f && es[|es| - 1] == e;
        }
      }
    }
  }

  /** Between two passes a day apart lie 21 hours that neither window reaches. An hour inside them never gets a
      row, and once its samples age past the retention nothing of them is left. */
  lemma {:induction false} GapHoursAreLost(t: Tables, es: seq<Event>, pass: int, k: HourKey, cutoff: int)
    requires k !in t.hourly
    requires forall e :: e in es && e.Hourly? ==> e.before <= pass - HOUR || pass + DAY - HOUR <= e.before
    requires pass - HOUR <= k.hour * HOUR && (k.hour + 1) * HOUR <= pass + 20 * HOUR
    requires (k.hour + 1) * HOUR <= cutoff
    ensures k !in Run(t, es + [Delete(cutoff)]).hourly
    ensures forall x :: x in Run(t, es + [Delete(cutoff)]).samples ==> KeyOf(x) != k
  {
    LaterMiss(es, k.hour);
    MissedHourKeepsRow(t, es, k);
    var u := Run(t, es);
    RunConcat(t, es, [Delete(cutoff)]);
    RunOne(u, Delete(cutoff));
    FromMembers(u.samples, cutoff);
    forall x | x in From(u.samples, cutoff) ensures KeyOf(x) != k {
      if KeyOf(x) == k {
        HourContains(x, k);
        assert false;
      }
    }
  }

  const HALF_PAST: Sample := EARLY.(at := HOUR / 2)

  /** Re-running on an overlapping range is not idempotent: the second window starts inside the hour, and its
      exact row is replaced by that of the later half. */
  lemma {:induction false} OverlapLosesSamples(t: Tables)
    requires t.samples == [EARLY, HALF_PAST]
    ensures ExactHour(t.samples, WithHourly(t, 3 * HOUR).hourly, KeyOf(EARLY))
    ensures !ExactHour(t.samples, WithHourly(WithHourly(t, 3 * HOUR), 3 * HOUR + HOUR / 4).hourly, KeyOf(EARLY))
  {
    var k, late := KeyOf(EARLY), 3 * HOUR + HOUR / 4;
    assert EARLY in t.samples && HourGroup(k)(EARLY);
    TotalCount(HourGroup(k), t.samples);
    CoveredHourExact(t, 3 * HOUR, k);
    assert HALF_PAST in t.samples && InWindow(HALF_PAST, Lower(late), late) && KeyOf(HALF_PAST) == k;
    assert k in WindowKeys(t.samples, Lower(late), late);
    assert !InWindow(EARLY, Lower(late), late);
    RerunKeepsExact(WithHourly(t, 3 * HOUR), late, k);
  }
}
