/** The per-client token bucket with its periodic eviction of idle clients. Time and tokens are real
    numbers; every call is one atomic step with the clock reading it took. */
module RateLimit {

  datatype Bucket = Bucket(tokens: real, lastSeen: real)
  datatype Config = Config(rate: real, burst: int, cleanup: real)
  datatype Slot = Absent | Present(bucket: Bucket)

  type Visitors = map<string, Bucket>

  function SlotOf(visitors: Visitors, ip: string): Slot {
    if ip in visitors then Present(visitors[ip]) else Absent
  }

  /** Tokens that come in during `dt` seconds. */
  function Gain(cfg: Config, dt: real): real {
    dt * cfg.rate
  }

  /** Tokens a client can draw on at `now`; a client that is not remembered has a full bucket. */
  function Available(cfg: Config, slot: Slot, now: real): real {
    match slot
    case Absent => cfg.burst as real
    case Present(b) =>
      var refilled := b.tokens + Gain(cfg, now - b.lastSeen);
      if refilled > cfg.burst as real then cfg.burst as real else refilled
  }

  function Decide(cfg: Config, slot: Slot, now: real): (r: (bool, Bucket)) {
    var tokens := Available(cfg, slot, now);
    var ok := slot.Absent? || tokens >= 1.0;
    (ok, Bucket(if ok then tokens - 1.0 else tokens, now))
  }

  predicate Stale(cfg: Config, b: Bucket, now: real) {
    b.lastSeen < now - cfg.cleanup
  }

  function Swept(cfg: Config, visitors: Visitors, now: real): Visitors {
    map ip | ip in visitors && !Stale(cfg, visitors[ip], now) :: visitors[ip]
  }

  class RateLimiter {
    var visitors: Visitors
    const cfg: Config

    constructor (rate: real, burst: int)
      ensures visitors == map[] && cfg == Config(rate, burst, 180.0)
    {
      visitors := map[];
      cfg := Config(rate, burst, 180.0);
    }

    method Allow(ip: string, now: real) returns (ok: bool)
      modifies this
      ensures (ok, visitors) ==
              (var d := Decide(cfg, SlotOf(old(visitors), ip), now); (d.0, old(visitors)[ip := d.1]))
    {
      if ip !in visitors {
        visitors := visitors[ip := Bucket(cfg.burst as real - 1.0, now)];
        return true;
      }
      var b := visitors[ip];
      var elapsed := now - b.lastSeen;
      b := b.(tokens := b.tokens + elapsed * cfg.rate);
      if b.tokens > cfg.burst as real {
        b := b.(tokens := cfg.burst as real);
      }
      b := b.(lastSeen := now);
      ok := false;
      if b.tokens >= 1.0 {
        b := b.(tokens := b.tokens - 1.0);
        ok := true;
      }
      visitors := visitors[ip := b];
    }

    /** One pass of the cleanup loop. The iteration order over the map is arbitrary. */
    method CleanupPass(now: real)
      modifies this
      ensures visitors == Swept(cfg, old(visitors), now)
      ensures forall ip :: ip in visitors
                <==> ip in old(visitors) && now - old(visitors)[ip].lastSeen <= cfg.cleanup
      ensures forall ip :: ip in visitors ==> visitors[ip] == old(visitors)[ip]
    {
      var cutoff := now - cfg.cleanup;
      var todo := visitors.Keys;
      while todo != {}
        invariant todo <= visitors.Keys <= old(visitors).Keys
        invariant forall ip :: ip in visitors ==> visitors[ip] == old(visitors)[ip]
        invariant forall ip :: ip in old(visitors) && ip !in todo ==>
                    (ip in visitors <==> !Stale(cfg, old(visitors)[ip], now))
        decreases |todo|
      {
        var ip :| ip in todo;
        if visitors[ip].lastSeen < cutoff {
          visitors := visitors - {ip};
        }
        todo := todo - {ip};
      }
    }
  }

  // ---------------------------------------------------------------- runs

  datatype Event = Request(ip: string, at: real) | Sweep(at: real)
  datatype Outcome = Allowed | Rejected | Done

  function Next(cfg: Config, evicts: bool, visitors: Visitors, e: Event): (Outcome, Visitors) {
    match e
    case Request(ip, at) =>
      var d := Decide(cfg, SlotOf(visitors, ip), at);
      (if d.0 then Allowed else Rejected, visitors[ip := d.1])
    case Sweep(at) => (Done, if evicts then Swept(cfg, visitors, at) else visitors)
  }

  /** The outcome of every event, for a limiter that evicts and for one that never forgets a client. */
  function Outcomes(cfg: Config, evicts: bool, visitors: Visitors, es: seq<Event>): (os: seq<Outcome>)
    ensures |os| == |es|
    decreases |es|
  {
    if es == [] then []
    else
      var (o, next) := Next(cfg, evicts, visitors, es[0]);
      [o] + Outcomes(cfg, evicts, next, es[1..])
  }

  function StateAfter(cfg: Config, evicts: bool, visitors: Visitors, es: seq<Event>): Visitors
    decreases |es|
  {
    if es == [] then visitors else StateAfter(cfg, evicts, Next(cfg, evicts, visitors, es[0]).1, es[1..])
  }

  /** The clock never runs backwards. */
  ghost predicate Ordered(now: real, es: seq<Event>) {
    forall i :: 0 <= i < |es| ==> now <= es[i].at && forall j :: i <= j < |es| ==> es[i].at <= es[j].at
  }

  ghost predicate Sane(cfg: Config) {
    cfg.burst >= 1 && cfg.rate >= 0.0
  }

  /** What every run from the start keeps: no bucket is overdrawn, overfull or from the future. */
  ghost predicate Valid(cfg: Config, visitors: Visitors, now: real) {
    forall ip :: ip in visitors ==> 0.0 <= visitors[ip].tokens <= cfg.burst as real && visitors[ip].lastSeen <= now
  }

  lemma {:induction false} GainNonnegative(cfg: Config, dt: real)
    requires cfg.rate >= 0.0 && dt >= 0.0
    ensures Gain(cfg, dt) >= 0.0
  {
  }

  lemma {:induction false} GainAdds(cfg: Config, dt: real, more: real)
    ensures Gain(cfg, dt + more) == Gain(cfg, dt) + Gain(cfg, more)
  {
  }

  /** An idle client's bucket is full again by the time it can be evicted. */
  ghost predicate RefillsWhileIdle(cfg: Config) {
    Gain(cfg, cfg.cleanup) >= cfg.burst as real
  }

  lemma {:induction false} DecideValid(cfg: Config, slot: Slot, now: real)
    requires Sane(cfg)
    requires slot.Present? ==> 0.0 <= slot.bucket.tokens <= cfg.burst as real && slot.bucket.lastSeen <= now
    ensures 0.0 <= Decide(cfg, slot, now).1.tokens <= cfg.burst as real
  {
    if slot.Present? {
      GainNonnegative(cfg, now - slot.bucket.lastSeen);
    }
  }

  lemma {:induction false} NextValid(cfg: Config, evicts: bool, visitors: Visitors, now: real, e: Event)
    requires Sane(cfg) && Valid(cfg, visitors, now) && now <= e.at
    ensures Valid(cfg, Next(cfg, evicts, visitors, e).1, e.at)
  {
    if e.Request? {
      DecideValid(cfg, SlotOf(visitors, e.ip), e.at);
    }
  }

  lemma {:induction false} OrderedTail(now: real, es: seq<Event>)
    requires Ordered(now, es) && es != []
    ensures now <= es[0].at && Ordered(es[0].at, es[1..])
  {
    forall i | 0 <= i < |es[1..]|
      ensures es[0].at <= es[1..][i].at && forall j :: i <= j < |es[1..]| ==> es[1..][i].at <= es[1..][j].at
    {
      assert es[1..][i] == es[i + 1];
      forall j | i <= j < |es[1..]| ensures es[1..][i].at <= es[1..][j].at {
        assert es[1..][j] == es[j + 1];
      }
    }
  }

  // ---------------------------------------------------------------- states nobody can tell apart

  /** From `now` on, every client has the same tokens to draw on. */
  ghost predicate Equivalent(cfg: Config, x: Visitors, y: Visitors, now: real) {
    forall ip: string, t: real :: now <= t ==> Available(cfg, SlotOf(x, ip), t) == Available(cfg, SlotOf(y, ip), t)
  }

  /** Capped refill composes over split intervals. */
  lemma {:induction false} RefillComposes(cfg: Config, slot: Slot, mid: real, t: real)
    requires Sane(cfg) && mid <= t
    requires slot.Present? ==> slot.bucket.lastSeen <= mid
    ensures Available(cfg, Present(Bucket(Available(cfg, slot, mid), mid)), t) == Available(cfg, slot, t)
  {
    GainNonnegative(cfg, t - mid);
    if slot.Present? {
      var b := slot.bucket;
      GainAdds(cfg, t - mid, mid - b.lastSeen);
      assert t - mid + (mid - b.lastSeen) == t - b.lastSeen;
    }
  }

  lemma {:induction false} NextEquivalent(cfg: Config, x: Visitors, y: Visitors, now: real, e: Event)
    requires Sane(cfg) && Equivalent(cfg, x, y, now) && now <= e.at
    ensures Next(cfg, false, x, e).0 == Next(cfg, false, y, e).0
    ensures Equivalent(cfg, Next(cfg, false, x, e).1, Next(cfg, false, y, e).1, e.at)
  {
    if e.Request? {
      assert Available(cfg, SlotOf(x, e.ip), e.at) == Available(cfg, SlotOf(y, e.ip), e.at);
      var x', y' := Next(cfg, false, x, e).1, Next(cfg, false, y, e).1;
      forall ip: string, t: real | e.at <= t
        ensures Available(cfg, SlotOf(x', ip), t) == Available(cfg, SlotOf(y', ip), t)
      {
        if ip != e.ip {
          assert SlotOf(x', ip) == SlotOf(x, ip) && SlotOf(y', ip) == SlotOf(y, ip);
        }
      }
    }
  }

  /** An idle client whose bucket has filled up again is not missed. */
  lemma {:induction false} SweepEquivalent(cfg: Config, visitors: Visitors, now: real)
    requires Sane(cfg) && RefillsWhileIdle(cfg) && Valid(cfg, visitors, now)
    ensures Equivalent(cfg, Swept(cfg, visitors, now), visitors, now)
  {
    var swept := Swept(cfg, visitors, now);
    forall ip: string, t: real | now <= t
      ensures Available(cfg, SlotOf(swept, ip), t) == Available(cfg, SlotOf(visitors, ip), t)
    {
      if ip in visitors && ip !in swept {
        IdleIsFull(cfg, visitors[ip], now, t);
      }
    }
  }

  lemma {:induction false} IdleIsFull(cfg: Config, b: Bucket, now: real, t: real)
    requires Sane(cfg) && RefillsWhileIdle(cfg)
    requires b.tokens >= 0.0 && Stale(cfg, b, now) && now <= t
    ensures Available(cfg, Present(b), t) == cfg.burst as real
  {
    GainNonnegative(cfg, t - (b.lastSeen + cfg.cleanup));
    GainAdds(cfg, t - (b.lastSeen + cfg.cleanup), cfg.cleanup);
    assert t - (b.lastSeen + cfg.cleanup) + cfg.cleanup == t - b.lastSeen;
  }

  /** Looking at a bucket and turning the client away only refills it. */
  lemma {:induction false} RejectionEquivalent(cfg: Config, visitors: Visitors, now: real, e: Event)
    requires Sane(cfg) && Valid(cfg, visitors, now) && now <= e.at && e.Request?
    requires Next(cfg, false, visitors, e).0 == Rejected
    ensures Equivalent(cfg, Next(cfg, false, visitors, e).1, visitors, e.at)
  {
    var next := Next(cfg, false, visitors, e).1;
    forall ip: string, t: real | e.at <= t
      ensures Available(cfg, SlotOf(next, ip), t) == Available(cfg, SlotOf(visitors, ip), t)
    {
      if ip == e.ip {
        RefillComposes(cfg, SlotOf(visitors, ip), e.at, t);
      } else {
        assert SlotOf(next, ip) == SlotOf(visitors, ip);
      }
    }
  }

  lemma {:induction false} EquivalentTransitive(
      cfg: Config, x: Visitors, y: Visitors, z: Visitors, now: real, later: real)
    requires now <= later && Equivalent(cfg, x, y, now) && Equivalent(cfg, y, z, later)
    ensures Equivalent(cfg, x, z, later)
  {
    forall ip: string, t: real | later <= t
      ensures Available(cfg, SlotOf(x, ip), t) == Available(cfg, SlotOf(z, ip), t)
    {
      assert Available(cfg, SlotOf(x, ip), t) == Available(cfg, SlotOf(y, ip), t);
    }
  }

  // ---------------------------------------------------------------- eviction is unobservable

  lemma {:induction false} EvictionUnobservableFrom(cfg: Config, x: Visitors, y: Visitors, now: real, es: seq<Event>)
    requires Sane(cfg) && RefillsWhileIdle(cfg)
    requires Valid(cfg, x, now) && Equivalent(cfg, x, y, now) && Ordered(now, es)
    ensures Outcomes(cfg, true, x, es) == Outcomes(cfg, false, y, es)
    decreases |es|
  {
    if es != [] {
      var e := es[0];
      OrderedTail(now, es);
      NextEquivalent(cfg, x, y, now, e);
      NextValid(cfg, true, x, now, e);
      var x', y' := Next(cfg, true, x, e).1, Next(cfg, false, y, e).1;
      if e.Sweep? {
        ValidLater(cfg, x, now, e.at);
        SweepEquivalent(cfg, x, e.at);
        EquivalentTransitive(cfg, x', x, y', e.at, e.at);
      }
      EvictionUnobservableFrom(cfg, x', y', e.at, es[1..]);
    }
  }

  lemma {:induction false} ValidLater(cfg: Config, visitors: Visitors, now: real, later: real)
    requires Valid(cfg, visitors, now) && now <= later
    ensures Valid(cfg, visitors, later)
  {
  }

  const CLIENT := "client"

  function Repeated(k: nat, at: real): seq<Event> {
    seq(k, _ => Request(CLIENT, at))
  }

  lemma {:induction false} RepeatedTail(k: nat, at: real)
    requires k > 0
    ensures Repeated(k, at)[0] == Request(CLIENT, at) && Repeated(k, at)[1..] == Repeated(k - 1, at)
  {
    assert forall i :: 0 <= i < k - 1 ==> Repeated(k, at)[1..][i] == Repeated(k - 1, at)[i];
  }

  ghost predicate AllAllowed(os: seq<Outcome>) {
    forall o :: o in os ==> o == Allowed
  }

  lemma {:induction false} RefillAtOnce(cfg: Config, b: Bucket)
    requires b.tokens <= cfg.burst as real
    ensures Available(cfg, Present(b), b.lastSeen) == b.tokens
  {
  }

  lemma {:induction false} FirstOfInstant(cfg: Config, evicts: bool, visitors: Visitors, at: real)
    requires Sane(cfg) && 0.0 <= Available(cfg, SlotOf(visitors, CLIENT), at)
    ensures var tokens := Available(cfg, SlotOf(visitors, CLIENT), at);
            var (o, next) := Next(cfg, evicts, visitors, Request(CLIENT, at));
            && (o == Allowed <==> tokens >= 1.0)
            && (o == Allowed ==> SlotOf(next, CLIENT) == Present(Bucket(tokens - 1.0, at)))
            && (o == Allowed ==> Available(cfg, SlotOf(next, CLIENT), at) == tokens - 1.0)
  {
    var slot := SlotOf(visitors, CLIENT);
    var tokens := Available(cfg, slot, at);
    assert tokens <= cfg.burst as real;
    var drained := Bucket(tokens - 1.0, at);
    RefillAtOnce(cfg, drained);
  }

  /** k requests at one instant are all allowed exactly when k tokens are there. */
  lemma {:induction false} InstantBurst(cfg: Config, evicts: bool, visitors: Visitors, k: nat, at: real)
    requires Sane(cfg)
    requires 0.0 <= Available(cfg, SlotOf(visitors, CLIENT), at)
    ensures AllAllowed(Outcomes(cfg, evicts, visitors, Repeated(k, at)))
       <==> Available(cfg, SlotOf(visitors, CLIENT), at) >= k as real
    decreases k
  {
    if k > 0 {
      RepeatedTail(k, at);
      FirstOfInstant(cfg, evicts, visitors, at);
      var (o, next) := Next(cfg, evicts, visitors, Request(CLIENT, at));
      var rest := Outcomes(cfg, evicts, next, Repeated(k - 1, at));
      var os := Outcomes(cfg, evicts, visitors, Repeated(k, at));
      assert os == [o] + rest && o in os && forall x :: x in os <==> x == o || x in rest;
      if o == Allowed {
        InstantBurst(cfg, evicts, next, k - 1, at);
      }
    }
  }

  lemma {:induction false} InstantDrain(cfg: Config, evicts: bool, visitors: Visitors, k: nat, at: real)
    requires Sane(cfg) && k > 0 && Available(cfg, SlotOf(visitors, CLIENT), at) >= k as real
    ensures SlotOf(StateAfter(cfg, evicts, visitors, Repeated(k, at)), CLIENT)
         == Present(Bucket(Available(cfg, SlotOf(visitors, CLIENT), at) - k as real, at))
    decreases k
  {
    RepeatedTail(k, at);
    FirstOfInstant(cfg, evicts, visitors, at);
    var next := Next(cfg, evicts, visitors, Request(CLIENT, at)).1;
    if k > 1 {
      InstantDrain(cfg, evicts, next, k - 1, at);
    } else {
      assert Repeated(k, at)[1..] == [];
    }
  }

  lemma {:induction false} OutcomesAppend(cfg: Config, evicts: bool, visitors: Visitors, a: seq<Event>, b: seq<Event>)
    ensures Outcomes(cfg, evicts, visitors, a + b)
         == Outcomes(cfg, evicts, visitors, a) + Outcomes(cfg, evicts, StateAfter(cfg, evicts, visitors, a), b)
    ensures StateAfter(cfg, evicts, visitors, a + b)
         == StateAfter(cfg, evicts, StateAfter(cfg, evicts, visitors, a), b)
    decreases |a|
  {
    if a == [] {
      assert a + b == b;
    } else {
      assert (a + b)[1..] == a[1..] + b;
      OutcomesAppend(cfg, evicts, Next(cfg, evicts, visitors, a[0]).1, a[1..], b);
    }
  }

  /** A moment after an idle client goes stale and before its bucket is full again. */
  function GapMoment(cfg: Config): real
    requires cfg.rate >= 0.0
  {
    cfg.cleanup + (cfg.burst as real - cfg.rate * cfg.cleanup) / (cfg.rate + 1.0)
  }

  lemma {:induction false} GapMomentIsInGap(cfg: Config)
    requires Sane(cfg) && cfg.rate * cfg.cleanup < cfg.burst as real
    ensures GapMoment(cfg) > cfg.cleanup && GapMoment(cfg) * cfg.rate < cfg.burst as real
  {
    var gap := cfg.burst as real - cfg.rate * cfg.cleanup;
    var d := gap / (cfg.rate + 1.0);
    assert d > 0.0;
    assert d * (cfg.rate + 1.0) == gap;
    assert d * cfg.rate < gap;
  }

  /** Use the burst up, let one sweep pass in the gap, and ask for a whole burst again. */
  function Witness(cfg: Config): seq<Event>
    requires Sane(cfg)
  {
    var s := GapMoment(cfg);
    Repeated(cfg.burst, 0.0) + ([Sweep(s)] + Repeated(cfg.burst, s))
  }

  lemma {:induction false} WitnessRun(cfg: Config, evicts: bool)
    requires Sane(cfg) && cfg.cleanup >= 0.0 && cfg.rate * cfg.cleanup < cfg.burst as real
    ensures AllAllowed(Outcomes(cfg, evicts, map[], Witness(cfg))[cfg.burst + 1..]) <==> evicts
  {
    GapMomentIsInGap(cfg);
    var s := GapMoment(cfg);
    var first, last := Repeated(cfg.burst, 0.0), Repeated(cfg.burst, s);
    InstantDrain(cfg, evicts, map[], cfg.burst, 0.0);
    var used := StateAfter(cfg, evicts, map[], first);
    assert SlotOf(used, CLIENT) == Present(Bucket(0.0, 0.0));
    OutcomesAppend(cfg, evicts, map[], first, [Sweep(s)] + last);
    var visitors := Next(cfg, evicts, used, Sweep(s)).1;
    assert SlotOf(visitors, CLIENT) == if evicts then Absent else Present(Bucket(0.0, 0.0));
    assert Outcomes(cfg, evicts, map[], Witness(cfg))[cfg.burst + 1..] == Outcomes(cfg, evicts, visitors, last) by {
      assert ([Sweep(s)] + last)[1..] == last;
    }
    assert Available(cfg, SlotOf(visitors, CLIENT), s) == if evicts then cfg.burst as real else Gain(cfg, s);
    GainNonnegative(cfg, s);
    InstantBurst(cfg, evicts, visitors, cfg.burst, s);
  }

  lemma {:induction false} WitnessOrdered(cfg: Config)
    requires Sane(cfg) && GapMoment(cfg) >= 0.0
    ensures Ordered(0.0, Witness(cfg))
  {
    var es := Witness(cfg);
    assert forall i :: 0 <= i < |es| ==> es[i].at == if i < cfg.burst then 0.0 else GapMoment(cfg);
  }

  /** Eviction is unobservable exactly when an idle client's bucket is full again by the time it can be
      evicted: the evicting limiter then decides every run like one that never forgets. */
  lemma {:induction false} EvictionUnobservable(cfg: Config)
    requires Sane(cfg) && cfg.cleanup >= 0.0
    ensures (forall es: seq<Event> :: Ordered(0.0, es) ==>
               Outcomes(cfg, true, map[], es) == Outcomes(cfg, false, map[], es))
       <==> cfg.rate * cfg.cleanup >= cfg.burst as real
  {
    if cfg.rate * cfg.cleanup >= cfg.burst as real {
      forall es: seq<Event> | Ordered(0.0, es)
        ensures Outcomes(cfg, true, map[], es) == Outcomes(cfg, false, map[], es)
      {
        EvictionUnobservableFrom(cfg, map[], map[], 0.0, es);
      }
    } else {
      GapMomentIsInGap(cfg);
      WitnessOrdered(cfg);
      WitnessRun(cfg, true);
      WitnessRun(cfg, false);
    }
  }

  /** As wired, with burst 2*int(rps)+1 and a cleanup interval of 180 seconds. */
  function Wired(rps: real): Config {
    Config(rps, rps.Floor * 2 + 1, 180.0)
  }

  lemma {:induction false} WiredEvictionUnobservable(rps: real)
    requires rps > 0.0
    ensures (forall es: seq<Event> :: Ordered(0.0, es) ==>
               Outcomes(Wired(rps), true, map[], es) == Outcomes(Wired(rps), false, map[], es))
       <==> rps >= 1.0 / 180.0
  {
    EvictionUnobservable(Wired(rps));
    if rps < 1.0 {
      assert rps.Floor == 0;
    } else {
      assert rps.Floor as real <= rps;
    }
  }
}
