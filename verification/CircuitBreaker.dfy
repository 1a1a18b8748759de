/** The timed three-state circuit breaker. Open turns into HalfOpen lazily, when a call looks at it. */
module CircuitBreaker {

  datatype State = Closed | Open | HalfOpen

  const HALF_OPEN_MAX := 2

  datatype Config = Config(threshold: int, resetTimeout: real)
  datatype Status = Status(state: State, failures: int, halfOpenOK: int, lastFailure: real)

  const INITIAL := Status(Closed, 0, 0, 0.0)

  datatype Event = Look(at: real) | Success(at: real) | Failure(at: real) | Reset(at: real)

  /** What looking at the breaker does to it. */
  function Settled(cfg: Config, s: Status, now: real): Status {
    if s.state == Open && now - s.lastFailure > cfg.resetTimeout then s.(state := HalfOpen, halfOpenOK := 0) else s
  }

  function OnSuccess(s: Status): Status {
    match s.state
    case HalfOpen =>
      if s.halfOpenOK + 1 >= HALF_OPEN_MAX then Status(Closed, 0, s.halfOpenOK + 1, s.lastFailure)
      else s.(halfOpenOK := s.halfOpenOK + 1)
    case Closed => s.(failures := 0)
    case Open => s
  }

  function OnFailure(cfg: Config, s: Status, now: real): Status {
    var trips := s.state == HalfOpen || s.failures + 1 >= cfg.threshold;
    s.(failures := s.failures + 1, lastFailure := now, state := if trips then Open else s.state)
  }

  function Step(cfg: Config, s: Status, e: Event): Status {
    match e
    case Look(at) => Settled(cfg, s, at)
    case Success(at) => OnSuccess(Settled(cfg, s, at))
    case Failure(at) => OnFailure(cfg, Settled(cfg, s, at), at)
    case Reset(at) => s.(state := Closed, failures := 0)
  }

  class Breaker {
    var state: State
    var failures: int
    const threshold: int
    const resetTimeout: real
    var lastFailure: real
    const halfOpenMax: int
    var halfOpenOK: int

    ghost predicate Valid()
      reads this
    {
      halfOpenMax == HALF_OPEN_MAX
    }

    ghost function Now(): Status
      reads this
    {
      Status(state, failures, halfOpenOK, lastFailure)
    }

    ghost function Cfg(): Config { Config(threshold, resetTimeout) }

    constructor (threshold: int, resetTimeout: real)
      ensures Valid() && Now() == INITIAL && Cfg() == Config(threshold, resetTimeout)
    {
      this.threshold := threshold;
      this.resetTimeout := resetTimeout;
      halfOpenMax := 2;
      state, failures, halfOpenOK, lastFailure := Closed, 0, 0, 0.0;
    }

    method CurrentState(now: real) returns (s: State)
      requires Valid()
      modifies this
      ensures Valid() && Now() == Settled(Cfg(), old(Now()), now) && s == Now().state
    {
      if state == Open && now - lastFailure > resetTimeout {
        state := HalfOpen;
        halfOpenOK := 0;
      }
      return state;
    }

    method Allow(now: real) returns (ok: bool)
      requires Valid()
      modifies this
      ensures Valid() && Now() == Step(Cfg(), old(Now()), Look(now)) && ok == (Now().state != Open)
    {
      var s := CurrentState(now);
      match s
      case Closed => return true;
      case Open => return false;
      case HalfOpen => return true;
    }

    method RecordSuccess(now: real)
      requires Valid()
      modifies this
      ensures Valid() && Now() == Step(Cfg(), old(Now()), Success(now))
    {
      var s := CurrentState(now);
      match s
      case HalfOpen =>
        halfOpenOK := halfOpenOK + 1;
        if halfOpenOK >= halfOpenMax {
          state := Closed;
          failures := 0;
        }
      case Closed => failures := 0;
      case Open =>
    }

    method RecordFailure(now: real)
      requires Valid()
      modifies this
      ensures Valid() && Now() == Step(Cfg(), old(Now()), Failure(now))
    {
      var s := CurrentState(now);
      failures := failures + 1;
      lastFailure := now;
      if s == HalfOpen {
        state := Open;
        return;
      }
      if failures >= threshold {
        state := Open;
      }
    }

    method ResetBreaker(ghost now: real)
      requires Valid()
      modifies this
      ensures Valid() && Now() == Step(Cfg(), old(Now()), Reset(now))
    {
      state := Closed;
      failures := 0;
    }
  }

  // ---------------------------------------------------------------- histories

  function After(cfg: Config, es: seq<Event>): Status {
    if es == [] then INITIAL else Step(cfg, After(cfg, es[..|es| - 1]), es[|es| - 1])
  }

  ghost predicate Ordered(es: seq<Event>) {
    forall i, j :: 0 <= i <= j < |es| ==> es[i].at <= es[j].at
  }

  /** Failures since the latest success or reset, or since the start. */
  function FailuresSinceClear(es: seq<Event>): nat {
    if es == [] then 0
    else
      match es[|es| - 1]
      case Failure(_) => FailuresSinceClear(es[..|es| - 1]) + 1
      case Success(_) => 0
      case Reset(_) => 0
      case Look(_) => FailuresSinceClear(es[..|es| - 1])
  }

  /** Closed counts the failures since the latest success, reset or start, and they are fewer than the
      threshold; Open and HalfOpen have seen at least that many. */
  lemma {:induction false} StateTellsFailures(cfg: Config, es: seq<Event>)
    requires cfg.threshold >= 1
    ensures var s := After(cfg, es);
            && (s.state == Closed ==> s.failures == FailuresSinceClear(es) < cfg.threshold)
            && (s.state != Closed ==> s.failures >= cfg.threshold)
  {
    if es != [] {
      StateTellsFailures(cfg, es[..|es| - 1]);
    }
  }

  /** The clock facts behind the timeout. */
  lemma {:induction false} FailureTimes(cfg: Config, es: seq<Event>)
    requires Ordered(es)
    ensures var s := After(cfg, es);
            && (forall f :: 0 <= f < |es| && es[f].Failure? ==> es[f].at <= s.lastFailure)
            && (s.state == HalfOpen ==> 0 <= s.halfOpenOK < HALF_OPEN_MAX)
            && (s.state == HalfOpen ==> es != [] && es[|es| - 1].at - s.lastFailure > cfg.resetTimeout)
  {
    if es != [] {
      var before := es[..|es| - 1];
      assert forall i :: 0 <= i < |before| ==> before[i] == es[i];
      FailureTimes(cfg, before);
      if before != [] {
        assert before[|before| - 1].at <= es[|es| - 1].at;
      }
    }
  }

  /** A success that came later than the timeout after every failure before it. */
  ghost predicate LateSuccess(cfg: Config, es: seq<Event>, p: nat, upTo: nat) {
    && p < upTo <= |es| && es[p].Success?
    && forall f :: 0 <= f < upTo && es[f].Failure? ==> es[f].at + cfg.resetTimeout < es[p].at
  }

  /** From Open at i, what each state at j has seen in between. */
  ghost predicate Recovering(cfg: Config, es: seq<Event>, i: nat, j: nat)
    requires i <= j <= |es|
  {
    var s := After(cfg, es[..j]);
    && (s.state == HalfOpen && s.halfOpenOK == 1 ==> exists p :: i <= p && LateSuccess(cfg, es, p, j))
    && (s.state == Closed ==> exists p, q :: i <= p < q < j && TwoLate(cfg, es, p, q))
  }

  ghost predicate TwoLate(cfg: Config, es: seq<Event>, p: nat, q: nat) {
    q < |es| && es[q].Success? && LateSuccess(cfg, es, p, q)
  }

  lemma {:induction false} RecoveringKeeps(cfg: Config, es: seq<Event>, i: nat, j: nat)
    requires Ordered(es) && i <= j <= |es| && After(cfg, es[..i]).state == Open
    requires forall k :: i <= k < j ==> !es[k].Reset?
    ensures Recovering(cfg, es, i, j)
    decreases j - i
  {
    if i < j {
      RecoveringKeeps(cfg, es, i, j - 1);
      RecoveringStep(cfg, es, i, j - 1);
    }
  }

  lemma {:induction false} RecoveringStep(cfg: Config, es: seq<Event>, i: nat, k: nat)
    requires Ordered(es) && i <= k < |es| && Recovering(cfg, es, i, k) && !es[k].Reset?
    ensures Recovering(cfg, es, i, k + 1)
  {
    var before, e := es[..k], es[k];
    var s, t := After(cfg, before), After(cfg, es[..k + 1]);
    assert es[..k + 1][..k] == before;
    FailureTimes(cfg, before);
    assert forall f :: 0 <= f < k ==> before[f] == es[f];
    assert t == Step(cfg, s, e);
    if s.state == Closed {
      if t.state == Closed {
        var p, q :| i <= p < q < k && TwoLate(cfg, es, p, q);
        assert i <= p < q < k + 1 && TwoLate(cfg, es, p, q);
      }
    } else if e.Success? {
      var settled := Settled(cfg, s, e.at);
      if settled.state == HalfOpen {
        assert forall f :: 0 <= f < k && es[f].Failure? ==> es[f].at + cfg.resetTimeout < e.at;
        if t.state == Closed {
          assert s.state == HalfOpen && s.halfOpenOK == 1;
          var p :| i <= p && LateSuccess(cfg, es, p, k);
          assert TwoLate(cfg, es, p, k);
        } else {
          assert LateSuccess(cfg, es, k, k + 1);
        }
      }
    } else if t.state == HalfOpen && t.halfOpenOK == 1 {
      var p :| i <= p && LateSuccess(cfg, es, p, k);
      assert LateSuccess(cfg, es, p, k + 1);
    }
  }

  /** Without a reset the breaker gets from Open to Closed only by two successes, both later than the
      timeout after every failure before the second one. */
  lemma {:induction false} ClosingNeedsTwoLateSuccesses(cfg: Config, es: seq<Event>, i: nat, j: nat)
    requires Ordered(es) && cfg.resetTimeout >= 0.0 && i <= j <= |es|
    requires After(cfg, es[..i]).state == Open && After(cfg, es[..j]).state == Closed
    requires forall k :: i <= k < j ==> !es[k].Reset?
    ensures exists p, q :: i <= p < q < j && es[p].Success? && es[q].Success?
              && forall f :: 0 <= f < q && es[f].Failure? ==> es[f].at + cfg.resetTimeout < es[p].at <= es[q].at
  {
    RecoveringKeeps(cfg, es, i, j);
    var p, q :| i <= p < q < j && TwoLate(cfg, es, p, q);
    assert es[p].Success? && es[q].Success?;
  }
}
