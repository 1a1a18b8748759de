/** Histories of a store: samples arrive, and retention passes run at non-decreasing times. */
module RetentionHistory {
  import opened Rollup
  import opened RollupLaws

  datatype Action = Arrive(xs: seq<Sample>) | Retain(now: Clock, f: Faults)

  function Events(a: Action, retention: int): seq<Event> {
    match a
    case Arrive(xs) => [Insert(xs)]
    case Retain(now, f) => Pass(now, f, retention)
  }

  function Expand(step: Action -> seq<Event>, acts: seq<Action>): seq<Event> {
    if acts == [] then [] else Expand(step, acts[..|acts| - 1]) + step(acts[|acts| - 1])
  }

  function EventsOf(acts: seq<Action>, retention: int): seq<Event> {
    Expand(a => Events(a, retention), acts)
  }

  function TimeAfter(a: Action, time: int): int {
    if a.Retain? then a.now.delete else time
  }

  predicate InTime(a: Action, time: int) {
    a.Retain? ==> time <= a.now.hourly <= a.now.daily <= a.now.delete
  }

  function LastTime(acts: seq<Action>, start: int): int {
    if acts == [] then start
    else TimeAfter(acts[|acts| - 1], LastTime(acts[..|acts| - 1], start))
  }

  predicate Timely(acts: seq<Action>, start: int) {
    acts == []
    || (Timely(acts[..|acts| - 1], start) && InTime(acts[|acts| - 1], LastTime(acts[..|acts| - 1], start)))
  }

  function Later(c: int, d: int): int { if d > c then d else c }

  // ---------------------------------------------------------------- deletions in order

  lemma {:induction false} HorizonConcat(es: seq<Event>, fs: seq<Event>, c: int)
    ensures Horizon(es + fs, c) == Horizon(fs, Horizon(es, c))
    ensures ReadsAhead(es + fs, c) <==> ReadsAhead(es, c) && ReadsAhead(fs, Horizon(es, c))
  {
    if fs == [] {
      assert es + fs == es;
    } else {
      assert (es + fs)[..|es + fs| - 1] == es + fs[..|fs| - 1];
      HorizonConcat(es, fs[..|fs| - 1], c);
    }
  }

  lemma {:induction false} HorizonUnless(fails: bool, e: Event, c: int)
    ensures Horizon(Unless(fails, e), c) == if !fails && e.Delete? then Later(c, e.cutoff) else c
    ensures ReadsAhead(Unless(fails, e), c) <==> !fails && e.Hourly? ==> c <= Lower(e.before)
  {
    if !fails {
      assert [e][..0] == [];
    }
  }

  lemma {:induction false} HorizonPass(now: Clock, f: Faults, retention: int, c: int)
    ensures Horizon(Pass(now, f, retention), c) == if f.delete then c else Later(c, now.delete - retention)
    ensures ReadsAhead(Pass(now, f, retention), c) <==> f.hourly || c <= Lower(now.hourly - HOUR)
  {
    var h, d, r :=
      Unless(f.hourly, Hourly(now.hourly - HOUR)),
      Unless(f.daily, Daily(now.daily - DAY)),
      Unless(f.delete, Delete(now.delete - retention));
    HorizonUnless(f.hourly, Hourly(now.hourly - HOUR), c);
    HorizonConcat(h, d, c);
    HorizonUnless(f.daily, Daily(now.daily - DAY), c);
    HorizonConcat(h + d, r, c);
    HorizonUnless(f.delete, Delete(now.delete - retention), c);
  }

  lemma {:induction false} ActionReadsAhead(a: Action, time: int, retention: int, c: int)
    requires InTime(a, time) && c <= time - retention && retention >= (WINDOW_HOURS + 1) * HOUR
    ensures ReadsAhead(Events(a, retention), c)
    ensures Horizon(Events(a, retention), c) <= TimeAfter(a, time) - retention
  {
    match a
    case Arrive(xs) => HorizonUnless(false, Insert(xs), c);
    case Retain(now, f) => HorizonPass(now, f, retention, c);
  }

  /** Every action leaves the horizon behind the clock by the retention and reads ahead of it. */
  ghost predicate StaysBehind(step: Action -> seq<Event>, retention: int) {
    forall a: Action, time: int, c: int :: InTime(a, time) && c <= time - retention ==>
      ReadsAhead(step(a), c) && Horizon(step(a), c) <= TimeAfter(a, time) - retention
  }

  lemma {:induction false} ExpandReadsAhead(step: Action -> seq<Event>, acts: seq<Action>, start: int, retention: int)
    requires Timely(acts, start) && StaysBehind(step, retention)
    ensures ReadsAhead(Expand(step, acts), start - retention)
    ensures Horizon(Expand(step, acts), start - retention) <= LastTime(acts, start) - retention
  {
    if acts != [] {
      var front, a := acts[..|acts| - 1], acts[|acts| - 1];
      ExpandReadsAhead(step, front, start, retention);
      HorizonConcat(Expand(step, front), step(a), start - retention);
    }
  }

  /** Passes at non-decreasing times read ahead of every earlier deletion when samples are kept for the four hours
      between the start of a window and the time of its pass. */
  lemma {:induction false} PassesReadAhead(acts: seq<Action>, start: int, retention: int)
    requires Timely(acts, start) && retention >= (WINDOW_HOURS + 1) * HOUR
    ensures ReadsAhead(EventsOf(acts, retention), start - retention)
    ensures Horizon(EventsOf(acts, retention), start - retention) <= LastTime(acts, start) - retention
  {
    var step := a => Events(a, retention);
    forall a: Action, time: int, c: int | InTime(a, time) && c <= time - retention
      ensures ReadsAhead(step(a), c) && Horizon(step(a), c) <= TimeAfter(a, time) - retention
    {
      ActionReadsAhead(a, time, retention, c);
    }
    ExpandReadsAhead(step, acts, start, retention);
  }

  predicate SameRollups(a: Tables, b: Tables) {
    a.hourly == b.hourly && a.daily == b.daily
  }

  /** No history shows in its rollup tables that old samples are deleted. */
  ghost predicate DeletionInvisible(retention: int) {
    forall t: Tables, acts: seq<Action>, start: int :: Timely(acts, start) ==>
      SameRollups(Run(t, EventsOf(acts, retention)), Run(t, Keeping(EventsOf(acts, retention))))
  }

  /** Deletion is invisible in the rollups exactly for retentions of at least four hours; as wired a retention is
      a whole number of days. */
  lemma {:induction false} RetentionNeedsFourHours(retention: int)
    ensures DeletionInvisible(retention) <==> retention >= (WINDOW_HOURS + 1) * HOUR
  {
    if retention >= (WINDOW_HOURS + 1) * HOUR {
      forall t: Tables, acts: seq<Action>, start: int | Timely(acts, start)
        ensures SameRollups(Run(t, EventsOf(acts, retention)), Run(t, Keeping(EventsOf(acts, retention))))
      {
        PassesReadAhead(acts, start, retention);
        DeletesUnobservable(t, t, start - retention, EventsOf(acts, retention));
      }
    } else {
      ShortRetentionShows(retention);
    }
  }

  const EARLY: Sample := Sample("node", "system.cpu", "user", Unset, 0, 1.0)

  /** The hourly statement of the first pass fails, its deletion does not. */
  function RetriedPass(): seq<Action> {
    var now := Clock(4 * HOUR, 4 * HOUR, 4 * HOUR);
    [Retain(now, Faults(true, true, false)), Retain(now, Faults(false, true, true))]
  }

  lemma {:induction false} RetriedPassEvents(retention: int)
    ensures Timely(RetriedPass(), 0)
    ensures EventsOf(RetriedPass(), retention) == [Delete(4 * HOUR - retention), Hourly(3 * HOUR)]
  {
    var acts := RetriedPass();
    assert acts[..1][..0] == [] && acts[..1][0] == acts[0];
    assert Timely(acts[..1], 0);
    var step := a => Events(a, retention);
    assert Expand(step, acts[..1]) == step(acts[0]);
    assert Expand(step, acts) == step(acts[0]) + step(acts[1]);
  }

  lemma {:induction false} DeletedBeforeRead(t: Tables, es: seq<Event>, c: int)
    requires 0 < c && es == [Delete(c), Hourly(3 * HOUR)] && t == Tables([EARLY], map[], map[])
    ensures !SameRollups(Run(t, es), Run(t, Keeping(es)))
  {
    assert es[..1] == [Delete(c)];
    RunOne(t, Delete(c));
    assert Keeping([Delete(c)]) == [];
    assert Keeping(es) == [Hourly(3 * HOUR)];
    RunOne(t, Hourly(3 * HOUR));
    FromMembers([EARLY], c);
    assert InWindow(EARLY, 0, 3 * HOUR);
    assert KeyOf(EARLY) in WindowKeys([EARLY], 0, 3 * HOUR);
    assert KeyOf(EARLY) !in WindowKeys(From([EARLY], c), 0, 3 * HOUR);
    assert KeyOf(EARLY) !in Run(t, es).hourly && KeyOf(EARLY) in Run(t, Keeping(es)).hourly;
  }

  lemma {:induction false} OneHistoryShows(t: Tables, acts: seq<Action>, start: int, retention: int)
    requires Timely(acts, start)
    requires !SameRollups(Run(t, EventsOf(acts, retention)), Run(t, Keeping(EventsOf(acts, retention))))
    ensures !DeletionInvisible(retention)
  {
  }

  lemma {:induction false} ShortRetentionShows(retention: int)
    requires retention < (WINDOW_HOURS + 1) * HOUR
    ensures !DeletionInvisible(retention)
  {
    var t := Tables([EARLY], map[], map[]);
    RetriedPassEvents(retention);
    DeletedBeforeRead(t, EventsOf(RetriedPass(), retention), 4 * HOUR - retention);
    OneHistoryShows(t, RetriedPass(), 0, retention);
  }

  /** The hourly statement reads the same rows whether samples it does not reach were deleted or not. */
  lemma {:induction false} HourlyAfterDelete(t: Tables, before: int, cutoff: int)
    requires cutoff <= Lower(before)
    ensures WithHourly(Without(t, cutoff), before) == Without(WithHourly(t, before), cutoff)
  {
    DeletionUnread(t.samples, cutoff, Lower(before), before);
    ghost var rows := HourlyRows(t.samples, Lower(before), before);
    assert WithHourly(t, before).hourly == t.hourly + rows;
    assert WithHourly(Without(t, cutoff), before).hourly == t.hourly + rows;
  }

  lemma {:induction false} DailyAfterDelete(t: Tables, before: int, cutoff: int)
    ensures WithDaily(Without(t, cutoff), before) == Without(WithDaily(t, before), cutoff)
  {
  }

  /** Within one pass the order of the two aggregations and the deletion does not matter either, as long as the
      deletion is reached before the window has aged past the retention. */
  lemma {:induction false} PassOrder(t: Tables, hourly: int, daily: int, cutoff: int)
    requires cutoff <= Lower(hourly)
    ensures Without(WithDaily(WithHourly(t, hourly), daily), cutoff)
         == WithDaily(WithHourly(Without(t, cutoff), hourly), daily)
  {
    HourlyAfterDelete(t, hourly, cutoff);
    var u := WithHourly(t, hourly);
    DailyAfterDelete(u, daily, cutoff);
  }
}
