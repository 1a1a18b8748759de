/** What clients of the rate limiter can count on over whole runs. */
module RateLimitLaws {
  import opened RateLimit

  // ---------------------------------------------------------------- pieces of runs

  lemma {:induction false} StateValid(cfg: Config, evicts: bool, visitors: Visitors, now: real, es: seq<Event>)
    requires Sane(cfg) && Valid(cfg, visitors, now) && Ordered(now, es)
    ensures Valid(cfg, StateAfter(cfg, evicts, visitors, es), if es == [] then now else es[|es| - 1].at)
    decreases |es|
  {
    if es != [] {
      OrderedTail(now, es);
      NextValid(cfg, evicts, visitors, now, es[0]);
      StateValid(cfg, evicts, Next(cfg, evicts, visitors, es[0]).1, es[0].at, es[1..]);
    }
  }

  lemma {:induction false} MiddleOf<T>(a: seq<T>, w: seq<T>, b: seq<T>)
    ensures (a + (w + b))[|a|..|a| + |w|] == w
  {
  }

  lemma {:induction false} OutcomesSlice(cfg: Config, evicts: bool, es: seq<Event>, i: nat, j: nat)
    requires i <= j <= |es|
    ensures Outcomes(cfg, evicts, map[], es)[i..j]
         == Outcomes(cfg, evicts, StateAfter(cfg, evicts, map[], es[..i]), es[i..j])
  {
    var a, w, b := es[..i], es[i..j], es[j..];
    assert a + (w + b) == es;
    OutcomesAppend(cfg, evicts, map[], a, w + b);
    var from := StateAfter(cfg, evicts, map[], a);
    OutcomesAppend(cfg, evicts, from, w, b);
    MiddleOf(Outcomes(cfg, evicts, map[], a), Outcomes(cfg, evicts, from, w),
             Outcomes(cfg, evicts, StateAfter(cfg, evicts, from, w), b));
  }

  lemma {:induction false} OrderedSlice(es: seq<Event>, i: nat, j: nat)
    requires Ordered(0.0, es) && i < j <= |es|
    ensures Ordered(es[i].at, es[i..j]) && Ordered(0.0, es[..i])
  {
    forall k | 0 <= k < j - i
      ensures es[i].at <= es[i..j][k].at && forall m :: k <= m < j - i ==> es[i..j][k].at <= es[i..j][m].at
    {
      assert es[i..j][k] == es[i + k];
      assert forall m :: k <= m < j - i ==> es[i..j][m] == es[i + m];
    }
  }

  predicate IsRequestOf(e: Event, ip: string) {
    e.Request? && e.ip == ip
  }

  // ---------------------------------------------------------------- the rate over any window

  function CountAllowed(os: seq<Outcome>, es: seq<Event>, ip: string): nat
    requires |os| == |es|
  {
    if es == [] then 0
    else (if IsRequestOf(es[0], ip) && os[0] == Allowed then 1 else 0) + CountAllowed(os[1..], es[1..], ip)
  }

  /** Tokens a client has now plus tokens still to come until `end`. */
  function Budget(cfg: Config, slot: Slot, now: real, end: real): real {
    Available(cfg, slot, now) + Gain(cfg, end - now)
  }

  ghost predicate SlotValid(cfg: Config, slot: Slot, now: real) {
    slot.Present? ==> 0.0 <= slot.bucket.tokens <= cfg.burst as real && slot.bucket.lastSeen <= now
  }

  lemma {:induction false} AvailableNonnegative(cfg: Config, slot: Slot, now: real)
    requires Sane(cfg) && SlotValid(cfg, slot, now)
    ensures Available(cfg, slot, now) >= 0.0
  {
    if slot.Present? {
      GainNonnegative(cfg, now - slot.bucket.lastSeen);
    }
  }

  lemma {:induction false} BudgetNonnegative(cfg: Config, slot: Slot, now: real, end: real)
    requires Sane(cfg) && SlotValid(cfg, slot, now) && now <= end
    ensures Budget(cfg, slot, now, end) >= 0.0
  {
    AvailableNonnegative(cfg, slot, now);
    GainNonnegative(cfg, end - now);
  }

  lemma {:induction false} BudgetShrinks(cfg: Config, slot: Slot, now: real, mid: real, end: real)
    requires Sane(cfg) && now <= mid <= end
    ensures Budget(cfg, slot, mid, end) <= Budget(cfg, slot, now, end)
  {
    GainNonnegative(cfg, mid - now);
    GainAdds(cfg, end - mid, mid - now);
    assert end - mid + (mid - now) == end - now;
    if slot.Present? {
      var last := slot.bucket.lastSeen;
      GainAdds(cfg, mid - now, now - last);
      assert mid - now + (now - last) == mid - last;
    }
  }

  lemma {:induction false} BudgetPays(cfg: Config, slot: Slot, now: real, at: real, end: real)
    requires Sane(cfg) && now <= at <= end
    ensures Budget(cfg, Present(Decide(cfg, slot, at).1), at, end) + (if Decide(cfg, slot, at).0 then 1.0 else 0.0)
         <= Budget(cfg, slot, now, end)
  {
    RefillAtOnce(cfg, Decide(cfg, slot, at).1);
    BudgetShrinks(cfg, slot, now, at, end);
  }

  /** A potential that every step keeps or lowers, and lowers by one for every request it allows. */
  ghost predicate Pays(cfg: Config, potential: (Visitors, real) -> real, ip: string, end: real) {
    forall visitors: Visitors, now: real, e: Event ::
      Valid(cfg, visitors, now) && now <= e.at <= end ==>
        && potential(visitors, now) >= 0.0
        && potential(Next(cfg, false, visitors, e).1, e.at)
         + (if IsRequestOf(e, ip) && Next(cfg, false, visitors, e).0 == Allowed then 1.0 else 0.0)
        <= potential(visitors, now)
  }

  lemma {:induction false} BudgetIsPotential(cfg: Config, ip: string, end: real)
    requires Sane(cfg)
    ensures Pays(cfg, (visitors: Visitors, now: real) => Budget(cfg, SlotOf(visitors, ip), now, end), ip, end)
  {
    forall visitors: Visitors, now: real, e: Event | Valid(cfg, visitors, now) && now <= e.at <= end
      ensures Budget(cfg, SlotOf(visitors, ip), now, end) >= 0.0
      ensures Budget(cfg, SlotOf(Next(cfg, false, visitors, e).1, ip), e.at, end)
            + (if IsRequestOf(e, ip) && Next(cfg, false, visitors, e).0 == Allowed then 1.0 else 0.0)
           <= Budget(cfg, SlotOf(visitors, ip), now, end)
    {
      var slot := SlotOf(visitors, ip);
      BudgetNonnegative(cfg, slot, now, end);
      if IsRequestOf(e, ip) {
        BudgetPays(cfg, slot, now, e.at, end);
      } else {
        BudgetShrinks(cfg, slot, now, e.at, end);
        assert SlotOf(Next(cfg, false, visitors, e).1, ip) == slot;
      }
    }
  }

  lemma {:induction false} CountFrom(
      cfg: Config, potential: (Visitors, real) -> real, visitors: Visitors,
      now: real, es: seq<Event>, ip: string, end: real)
    requires Sane(cfg) && Pays(cfg, potential, ip, end) && Valid(cfg, visitors, now) && Ordered(now, es)
    requires es != [] && es[|es| - 1].at <= end
    ensures CountAllowed(Outcomes(cfg, false, visitors, es), es, ip) as real <= potential(visitors, now)
    decreases |es|
  {
    var e, tail := es[0], es[1..];
    var (o, next) := Next(cfg, false, visitors, e);
    OrderedTail(now, es);
    NextValid(cfg, false, visitors, now, e);
    var os := Outcomes(cfg, false, visitors, es);
    assert os[0] == o && os[1..] == Outcomes(cfg, false, next, tail);
    if tail == [] {
      assert potential(next, e.at) >= 0.0 by {
        assert Valid(cfg, next, e.at) && e.at <= e.at <= end;
        var again := Next(cfg, false, next, Sweep(e.at));
      }
      assert CountAllowed(os[1..], tail, ip) == 0;
    } else {
      CountFrom(cfg, potential, next, e.at, tail, ip, end);
    }
  }

  /** In every window of length T one client is allowed at most burst + rate * T requests, and eviction
      does not change that when an evicted bucket is a full one. */
  lemma {:induction false} WindowBound(cfg: Config, evicts: bool, es: seq<Event>, ip: string, i: nat, j: nat, T: real)
    requires Sane(cfg) && (evicts ==> RefillsWhileIdle(cfg))
    requires Ordered(0.0, es) && i < j <= |es| && es[j - 1].at - es[i].at <= T
    ensures CountAllowed(Outcomes(cfg, evicts, map[], es)[i..j], es[i..j], ip) as real
         <= cfg.burst as real + Gain(cfg, T)
  {
    if evicts {
      EvictionUnobservableFrom(cfg, map[], map[], 0.0, es);
    }
    var visitors := StateAfter(cfg, false, map[], es[..i]);
    var start, end := es[i].at, es[j - 1].at;
    WindowState(cfg, es, i, j);
    OutcomesSlice(cfg, false, es, i, j);
    BudgetIsPotential(cfg, ip, end);
    CountFrom(cfg, (visitors: Visitors, now: real) => Budget(cfg, SlotOf(visitors, ip), now, end),
              visitors, start, es[i..j], ip, end);
    LongestWindow(cfg, SlotOf(visitors, ip), start, end, T);
  }

  lemma {:induction false} WindowState(cfg: Config, es: seq<Event>, i: nat, j: nat)
    requires Sane(cfg) && Ordered(0.0, es) && i < j <= |es|
    ensures Valid(cfg, StateAfter(cfg, false, map[], es[..i]), es[i].at)
    ensures Ordered(es[i].at, es[i..j]) && es[i..j][j - i - 1] == es[j - 1]
  {
    OrderedSlice(es, i, j);
    StateValid(cfg, false, map[], 0.0, es[..i]);
    ValidLater(cfg, StateAfter(cfg, false, map[], es[..i]), if i == 0 then 0.0 else es[i - 1].at, es[i].at);
  }

  lemma {:induction false} LongestWindow(cfg: Config, slot: Slot, start: real, end: real, T: real)
    requires Sane(cfg) && end - start <= T
    ensures Budget(cfg, slot, start, end) <= cfg.burst as real + Gain(cfg, T)
  {
    GainNonnegative(cfg, T - (end - start));
    GainAdds(cfg, T - (end - start), end - start);
  }

  // ---------------------------------------------------------------- steady clients

  /** Any two requests of the client are at least `period` apart. */
  ghost predicate Spaced(period: real, es: seq<Event>, ip: string) {
    forall i, j :: 0 <= i < j < |es| && IsRequestOf(es[i], ip) && IsRequestOf(es[j], ip)
      ==> es[j].at - es[i].at >= period
  }

  ghost predicate SpacedAfter(period: real, slot: Slot, es: seq<Event>, ip: string) {
    slot.Present? ==> forall k :: 0 <= k < |es| && IsRequestOf(es[k], ip) ==> es[k].at - slot.bucket.lastSeen >= period
  }

  /** One token comes in every `period`. */
  lemma {:induction false} PeriodPays(cfg: Config, period: real, slot: Slot, at: real)
    requires Sane(cfg) && Gain(cfg, period) >= 1.0
    requires slot.Present? ==> slot.bucket.tokens >= 0.0 && at - slot.bucket.lastSeen >= period
    ensures Decide(cfg, slot, at).0
  {
    if slot.Present? {
      var last := slot.bucket.lastSeen;
      GainNonnegative(cfg, at - last - period);
      GainAdds(cfg, at - last - period, period);
      assert at - last - period + period == at - last;
    }
  }

  lemma {:induction false} SteadyFrom(
      cfg: Config, period: real, evicts: bool, visitors: Visitors, now: real, es: seq<Event>, ip: string)
    requires Sane(cfg) && Gain(cfg, period) >= 1.0 && Valid(cfg, visitors, now) && Ordered(now, es)
    requires Spaced(period, es, ip) && SpacedAfter(period, SlotOf(visitors, ip), es, ip)
    ensures forall k :: 0 <= k < |es| && IsRequestOf(es[k], ip) ==> Outcomes(cfg, evicts, visitors, es)[k] == Allowed
    decreases |es|
  {
    if es != [] {
      var e, tail := es[0], es[1..];
      var (o, next) := Next(cfg, evicts, visitors, e);
      OrderedTail(now, es);
      NextValid(cfg, evicts, visitors, now, e);
      assert forall k :: 0 <= k < |tail| ==> tail[k] == es[k + 1];
      if IsRequestOf(e, ip) {
        PeriodPays(cfg, period, SlotOf(visitors, ip), e.at);
        assert SlotOf(next, ip).bucket.lastSeen == e.at;
      } else {
        assert SlotOf(next, ip).Present? ==> SlotOf(next, ip) == SlotOf(visitors, ip);
      }
      SteadyFrom(cfg, period, evicts, next, e.at, tail, ip);
      var os := Outcomes(cfg, evicts, visitors, es);
      assert os[0] == o && os[1..] == Outcomes(cfg, evicts, next, tail);
      assert forall k :: 1 <= k < |es| ==> os[k] == os[1..][k - 1] && es[k] == tail[k - 1];
    }
  }

  /** A client whose requests are always at least 1/rate apart is never rejected, with or without eviction. */
  lemma {:induction false} SteadyClientNeverRejected(cfg: Config, evicts: bool, es: seq<Event>, ip: string)
    requires Sane(cfg) && cfg.rate > 0.0 && Ordered(0.0, es) && Spaced(1.0 / cfg.rate, es, ip)
    ensures forall k :: 0 <= k < |es| && IsRequestOf(es[k], ip) ==> Outcomes(cfg, evicts, map[], es)[k] == Allowed
  {
    SteadyFrom(cfg, 1.0 / cfg.rate, evicts, map[], 0.0, es, ip);
  }

  /** The state a run is in when event j comes. */
  lemma {:induction false} OutcomeAt(cfg: Config, evicts: bool, es: seq<Event>, j: nat)
    requires j < |es|
    ensures var visitors := StateAfter(cfg, evicts, map[], es[..j]);
            && Outcomes(cfg, evicts, map[], es)[j] == Next(cfg, evicts, visitors, es[j]).0
            && StateAfter(cfg, evicts, map[], es[..j + 1]) == Next(cfg, evicts, visitors, es[j]).1
  {
    OutcomesSlice(cfg, evicts, es, j, j + 1);
    assert es[j..j + 1] == [es[j]];
    assert Outcomes(cfg, evicts, map[], es)[j..j + 1][0] == Outcomes(cfg, evicts, map[], es)[j];
    OutcomesAppend(cfg, evicts, map[], es[..j], [es[j]]);
    assert es[..j] + [es[j]] == es[..j + 1];
    assert [es[j]][1..] == [];
  }

  lemma {:induction false} SlotAfterQuiet(cfg: Config, evicts: bool, es: seq<Event>, ip: string, i: nat, j: nat)
    requires i < j <= |es|
    requires forall k :: i < k < j ==> !IsRequestOf(es[k], ip)
    ensures var slot := SlotOf(StateAfter(cfg, evicts, map[], es[..j]), ip);
            slot.Present? ==> slot == SlotOf(StateAfter(cfg, evicts, map[], es[..i + 1]), ip)
  {
    var after := StateAfter(cfg, evicts, map[], es[..i + 1]);
    var quiet := es[i + 1..j];
    assert forall k :: 0 <= k < |quiet| ==> quiet[k] == es[i + 1 + k];
    QuietKeepsSlot(cfg, evicts, after, quiet, ip);
    OutcomesAppend(cfg, evicts, map[], es[..i + 1], quiet);
    assert es[..i + 1] + quiet == es[..j];
  }

  /** A client is rejected at event i, stays quiet for a second, and comes back at event j. */
  ghost predicate ComesBack(cfg: Config, evicts: bool, es: seq<Event>, ip: string, i: nat, j: nat) {
    && i < j < |es| && IsRequestOf(es[i], ip) && IsRequestOf(es[j], ip)
    && (forall k :: i < k < j ==> !IsRequestOf(es[k], ip))
    && Outcomes(cfg, evicts, map[], es)[i] == Rejected && es[j].at >= es[i].at + 1.0
  }

  /** What `Retry-After: 1` promises: whoever comes back is allowed, whatever others do and whenever sweeps pass. */
  ghost predicate RetryKept(cfg: Config, evicts: bool) {
    forall es: seq<Event>, ip: string, i: nat, j: nat ::
      Ordered(0.0, es) && ComesBack(cfg, evicts, es, ip, i, j) ==> Outcomes(cfg, evicts, map[], es)[j] == Allowed
  }

  /** The promise is kept exactly for rates of at least one a second; the header is sent at every rate. */
  lemma {:induction false} RetryAfterOneSecond(cfg: Config, evicts: bool)
    requires Sane(cfg)
    ensures RetryKept(cfg, evicts) <==> cfg.rate >= 1.0
  {
    if cfg.rate >= 1.0 {
      forall es: seq<Event>, ip: string, i: nat, j: nat
        | Ordered(0.0, es) && ComesBack(cfg, evicts, es, ip, i, j)
        ensures Outcomes(cfg, evicts, map[], es)[j] == Allowed
      {
        ReturnIsAllowed(cfg, evicts, es, ip, i, j);
      }
    } else {
      SlowRateRejectsAgain(cfg, evicts);
      var es := RejectedTwice(cfg);
      assert ComesBack(cfg, evicts, es, CLIENT, cfg.burst, cfg.burst + 1);
      assert Outcomes(cfg, evicts, map[], es)[cfg.burst + 1] == Rejected;
    }
  }

  lemma {:induction false} ReturnIsAllowed(cfg: Config, evicts: bool, es: seq<Event>, ip: string, i: nat, j: nat)
    requires cfg.burst >= 1 && cfg.rate >= 1.0 && Ordered(0.0, es) && ComesBack(cfg, evicts, es, ip, i, j)
    ensures Outcomes(cfg, evicts, map[], es)[j] == Allowed
  {
    OutcomeAt(cfg, evicts, es, i);
    OutcomeAt(cfg, evicts, es, j);
    SlotAfterQuiet(cfg, evicts, es, ip, i, j);
    OrderedSlice(es, i, |es|);
    StateValid(cfg, evicts, map[], 0.0, es[..i + 1]);
    assert es[..i + 1][i] == es[i];
    PeriodPays(cfg, 1.0, SlotOf(StateAfter(cfg, evicts, map[], es[..j]), ip), es[j].at);
  }

  /** A burst and one request more at one instant, and another one a second later. */
  function RejectedTwice(cfg: Config): seq<Event>
    requires Sane(cfg)
  {
    Repeated(cfg.burst, 0.0) + [Request(CLIENT, 0.0), Request(CLIENT, 1.0)]
  }

  lemma {:induction false} SlowRateRejectsAgain(cfg: Config, evicts: bool)
    requires Sane(cfg) && cfg.rate < 1.0
    ensures Ordered(0.0, RejectedTwice(cfg)) && |RejectedTwice(cfg)| == cfg.burst + 2
    ensures RejectedTwice(cfg)[cfg.burst..] == [Request(CLIENT, 0.0), Request(CLIENT, 1.0)]
    ensures Outcomes(cfg, evicts, map[], RejectedTwice(cfg))[cfg.burst..] == [Rejected, Rejected]
  {
    var first, last := Repeated(cfg.burst, 0.0), [Request(CLIENT, 0.0), Request(CLIENT, 1.0)];
    var es := first + last;
    assert forall i :: 0 <= i < |es| ==> es[i].at == if i <= cfg.burst then 0.0 else 1.0;
    InstantDrain(cfg, evicts, map[], cfg.burst, 0.0);
    OutcomesAppend(cfg, evicts, map[], first, last);
    TwoMore(cfg, evicts, StateAfter(cfg, evicts, map[], first));
  }

  lemma {:induction false} TwoMore(cfg: Config, evicts: bool, used: Visitors)
    requires Sane(cfg) && cfg.rate < 1.0 && SlotOf(used, CLIENT) == Present(Bucket(0.0, 0.0))
    ensures Outcomes(cfg, evicts, used, [Request(CLIENT, 0.0), Request(CLIENT, 1.0)]) == [Rejected, Rejected]
  {
    var last := [Request(CLIENT, 0.0), Request(CLIENT, 1.0)];
    var (o, next) := Next(cfg, evicts, used, last[0]);
    assert o == Rejected && SlotOf(next, CLIENT) == Present(Bucket(0.0, 0.0));
    assert Gain(cfg, 1.0) == cfg.rate;
    var (p, after) := Next(cfg, evicts, next, last[1]);
    assert p == Rejected;
    assert last[1..] == [last[1]] && last[1..][1..] == [];
    assert Outcomes(cfg, evicts, next, last[1..]) == [p] + Outcomes(cfg, evicts, after, []);
  }

  lemma {:induction false} QuietKeepsSlot(cfg: Config, evicts: bool, visitors: Visitors, es: seq<Event>, ip: string)
    requires forall k :: 0 <= k < |es| ==> !IsRequestOf(es[k], ip)
    ensures var slot := SlotOf(StateAfter(cfg, evicts, visitors, es), ip);
            slot.Present? ==> slot == SlotOf(visitors, ip)
    decreases |es|
  {
    if es != [] {
      QuietKeepsSlot(cfg, evicts, Next(cfg, evicts, visitors, es[0]).1, es[1..], ip);
    }
  }

  // ---------------------------------------------------------------- leaving events out

  function Kept<T>(xs: seq<T>, keep: seq<bool>): seq<T>
    requires |xs| == |keep|
  {
    if xs == [] then []
    else if keep[0] then [xs[0]] + Kept(xs[1..], keep[1..])
    else Kept(xs[1..], keep[1..])
  }

  lemma {:induction false} KeptOrdered(now: real, es: seq<Event>, keep: seq<bool>)
    requires |es| == |keep| && Ordered(now, es)
    ensures Ordered(now, Kept(es, keep))
    decreases |es|
  {
    if es != [] {
      OrderedTail(now, es);
      KeptOrdered(es[0].at, es[1..], keep[1..]);
    }
  }

  /** The first event of a run and the rest of it. */
  lemma {:induction false} OutcomesHead(cfg: Config, evicts: bool, visitors: Visitors, e: Event, rest: seq<Event>)
    ensures var (o, next) := Next(cfg, evicts, visitors, e);
            Outcomes(cfg, evicts, visitors, [e] + rest) == [o] + Outcomes(cfg, evicts, next, rest)
  {
    assert ([e] + rest)[1..] == rest;
  }

  lemma {:induction false} RejectedFrom(
      cfg: Config, x: Visitors, y: Visitors, now: real, es: seq<Event>, keep: seq<bool>, os: seq<Outcome>)
    requires Sane(cfg) && |es| == |keep| && Ordered(now, es)
    requires Valid(cfg, x, now) && Equivalent(cfg, x, y, now) && os == Outcomes(cfg, false, x, es)
    requires forall i :: 0 <= i < |es| && !keep[i] ==> os[i] == Rejected
    ensures Outcomes(cfg, false, y, Kept(es, keep)) == Kept(os, keep)
    decreases |es|
  {
    if es != [] {
      var e := es[0];
      var (o, x') := Next(cfg, false, x, e);
      OrderedTail(now, es);
      NextValid(cfg, false, x, now, e);
      assert os[0] == o && os[1..] == Outcomes(cfg, false, x', es[1..]);
      assert forall i :: 0 <= i < |es| - 1 ==> keep[1..][i] == keep[i + 1] && os[1..][i] == os[i + 1];
      if keep[0] {
        NextEquivalent(cfg, x, y, now, e);
        RejectedFrom(cfg, x', Next(cfg, false, y, e).1, e.at, es[1..], keep[1..], os[1..]);
        OutcomesHead(cfg, false, y, e, Kept(es[1..], keep[1..]));
      } else {
        RejectionEquivalent(cfg, x, now, e);
        EquivalentLater(cfg, x, y, now, e.at);
        EquivalentTransitive(cfg, x', x, y, e.at, e.at);
        RejectedFrom(cfg, x', y, e.at, es[1..], keep[1..], os[1..]);
      }
    }
  }

  lemma {:induction false} EquivalentLater(cfg: Config, x: Visitors, y: Visitors, now: real, later: real)
    requires Equivalent(cfg, x, y, now) && now <= later
    ensures Equivalent(cfg, x, y, later)
  {
  }

  /** Rejected requests cost nothing: leaving any of them out of a run changes no other decision. */
  lemma {:induction false} RejectedRequestsCostNothing(cfg: Config, evicts: bool, es: seq<Event>, keep: seq<bool>)
    requires Sane(cfg) && (evicts ==> RefillsWhileIdle(cfg))
    requires Ordered(0.0, es) && |keep| == |es|
    requires forall i :: 0 <= i < |es| && !keep[i] ==> Outcomes(cfg, evicts, map[], es)[i] == Rejected
    ensures Outcomes(cfg, evicts, map[], Kept(es, keep)) == Kept(Outcomes(cfg, evicts, map[], es), keep)
  {
    KeptOrdered(0.0, es, keep);
    if evicts {
      EvictionUnobservableFrom(cfg, map[], map[], 0.0, es);
      EvictionUnobservableFrom(cfg, map[], map[], 0.0, Kept(es, keep));
    }
    RejectedFrom(cfg, map[], map[], 0.0, es, keep, Outcomes(cfg, false, map[], es));
  }

  /** Everything but the requests of other clients. */
  function Concerning(es: seq<Event>, ip: string): (keep: seq<bool>)
    ensures |keep| == |es|
  {
    seq(|es|, i requires 0 <= i < |es| => es[i].Sweep? || es[i].ip == ip)
  }

  lemma {:induction false} OthersFrom(cfg: Config, evicts: bool, x: Visitors, y: Visitors, es: seq<Event>, ip: string)
    requires SlotOf(x, ip) == SlotOf(y, ip)
    ensures Outcomes(cfg, evicts, y, Kept(es, Concerning(es, ip)))
         == Kept(Outcomes(cfg, evicts, x, es), Concerning(es, ip))
    decreases |es|
  {
    if es != [] {
      var e := es[0];
      var x' := Next(cfg, evicts, x, e).1;
      assert Outcomes(cfg, evicts, x, es)[1..] == Outcomes(cfg, evicts, x', es[1..]);
      assert Concerning(es, ip)[1..] == Concerning(es[1..], ip);
      if Concerning(es, ip)[0] {
        OthersFrom(cfg, evicts, x', Next(cfg, evicts, y, e).1, es[1..], ip);
        OutcomesHead(cfg, evicts, y, e, Kept(es[1..], Concerning(es[1..], ip)));
      } else {
        OthersFrom(cfg, evicts, x', y, es[1..], ip);
      }
    }
  }

  /** Clients are independent: without all requests of other clients, one client's decisions are the same. */
  lemma {:induction false} OtherClientsDoNotMatter(cfg: Config, evicts: bool, es: seq<Event>, ip: string)
    ensures Outcomes(cfg, evicts, map[], Kept(es, Concerning(es, ip)))
         == Kept(Outcomes(cfg, evicts, map[], es), Concerning(es, ip))
  {
    OthersFrom(cfg, evicts, map[], map[], es, ip);
  }
}
