/** When the breaker refuses, told from the times of the events alone. */
module BreakerHistory {
  import opened CircuitBreaker

  /** Failure f completes a run of at least threshold failures, and what came after it is neither a reset nor two
      successes later than the timeout after every failure before them. */
  ghost predicate StillTripped(cfg: Config, es: seq<Event>, f: nat) {
    && f < |es| && es[f].Failure? && FailuresSinceClear(es[..f + 1]) >= cfg.threshold
    && (forall r :: f < r < |es| ==> !es[r].Reset?)
    && (forall p: nat, q: nat :: f < p < q < |es| ==> !TwoLate(cfg, es, p, q))
  }

  /** Some failure came at most the timeout before t. */
  ghost predicate FailedLately(cfg: Config, es: seq<Event>, t: real) {
    exists g: nat :: g < |es| && es[g].Failure? && t - es[g].at <= cfg.resetTimeout
  }

  ghost predicate Sane(cfg: Config, es: seq<Event>) {
    cfg.threshold >= 1 && cfg.resetTimeout >= 0.0 && Ordered(es)
  }

  lemma {:induction false} PrefixSane(cfg: Config, es: seq<Event>, n: nat)
    requires Sane(cfg, es) && n <= |es|
    ensures Sane(cfg, es[..n])
  {
    assert forall i :: 0 <= i < n ==> es[..n][i] == es[i];
  }

  lemma {:induction false} TwoLatePrefix(cfg: Config, es: seq<Event>, n: nat, p: nat, q: nat)
    requires p < q < n <= |es|
    ensures TwoLate(cfg, es[..n], p, q) <==> TwoLate(cfg, es, p, q)
  {
    assert forall i :: 0 <= i < n ==> es[..n][i] == es[i];
  }

  lemma {:induction false} PrefixTripped(cfg: Config, es: seq<Event>, f: nat, n: nat)
    requires StillTripped(cfg, es, f) && f < n <= |es|
    ensures StillTripped(cfg, es[..n], f)
  {
    assert forall i :: 0 <= i < n ==> es[..n][i] == es[i];
    assert es[..n][..f + 1] == es[..f + 1];
    forall p: nat, q: nat | f < p < q < n ensures !TwoLate(cfg, es[..n], p, q) {
      TwoLatePrefix(cfg, es, n, p, q);
    }
  }

  lemma {:induction false} TrippingOpens(cfg: Config, es: seq<Event>)
    requires cfg.threshold >= 1 && es != [] && es[|es| - 1].Failure? && FailuresSinceClear(es) >= cfg.threshold
    ensures After(cfg, es).state == Open
  {
    StateTellsFailures(cfg, es[..|es| - 1]);
  }

  lemma {:induction false} TrippedStays(cfg: Config, es: seq<Event>, f: nat)
    requires Sane(cfg, es) && StillTripped(cfg, es, f)
    ensures After(cfg, es).state != Closed
  {
    TrippingOpens(cfg, es[..f + 1]);
    assert es[..|es|] == es;
    RecoveringKeeps(cfg, es, f + 1, |es|);
  }

  /** A late success after the trip has half opened the breaker, and is counted. */
  lemma {:induction false} LateSuccessCounts(cfg: Config, es: seq<Event>, f: nat, p: nat)
    requires Sane(cfg, es) && StillTripped(cfg, es, f) && f < p && LateSuccess(cfg, es, p, |es|)
    ensures After(cfg, es).state == HalfOpen && After(cfg, es).halfOpenOK >= 1
  {
    var n := |es| - 1;
    var front, e := es[..n], es[n];
    PrefixSane(cfg, es, n);
    PrefixTripped(cfg, es, f, n);
    TrippedStays(cfg, es, f);
    TrippedStays(cfg, front, f);
    FailureTimes(cfg, front);
    assert forall i :: 0 <= i < n ==> front[i] == es[i];
    if p < n {
      LateSuccessCounts(cfg, front, f, p);
      assert !e.Failure? by {
        assert es[p].at <= es[n].at;
      }
    } else {
      LastFailureHappened(cfg, front);
    }
  }

  /** Outside of Closed the recorded time is that of a failure. */
  lemma {:induction false} LastFailureHappened(cfg: Config, es: seq<Event>)
    requires cfg.threshold >= 1
    ensures After(cfg, es).state != Closed ==>
              exists g: nat :: g < |es| && es[g].Failure? && es[g].at == After(cfg, es).lastFailure
  {
    if es != [] && After(cfg, es).state != Closed {
      var front, e := es[..|es| - 1], es[|es| - 1];
      if e.Failure? {
        assert es[|es| - 1].at == After(cfg, es).lastFailure;
      } else {
        LastFailureHappened(cfg, front);
        var g: nat :| g < |front| && front[g].Failure? && front[g].at == After(cfg, front).lastFailure;
        assert es[g] == front[g];
      }
    }
  }

  /** The breaker is not Closed exactly when a run of failures has tripped it and nothing has cleared it since. */
  lemma {:induction false} TrippedIff(cfg: Config, es: seq<Event>)
    requires Sane(cfg, es)
    ensures After(cfg, es).state != Closed <==> exists f: nat :: StillTripped(cfg, es, f)
  {
    if f: nat :| StillTripped(cfg, es, f) {
      TrippedStays(cfg, es, f);
    }
    if After(cfg, es).state != Closed {
      var f := TrippedSince(cfg, es);
    }
  }

  lemma {:induction false} TrippedSince(cfg: Config, es: seq<Event>) returns (f: nat)
    requires Sane(cfg, es) && After(cfg, es).state != Closed
    ensures StillTripped(cfg, es, f)
  {
    var n := |es| - 1;
    var front, e := es[..n], es[n];
    assert forall i :: 0 <= i < n ==> front[i] == es[i];
    StateTellsFailures(cfg, front);
    if After(cfg, front).state == Closed {
      f := n;
      assert es[..n + 1] == es;
    } else {
      PrefixSane(cfg, es, n);
      f := TrippedSince(cfg, front);
      assert front[..f + 1] == es[..f + 1];
      NoLatePair(cfg, es, f);
    }
  }

  lemma {:induction false} NoLatePair(cfg: Config, es: seq<Event>, f: nat)
    requires Sane(cfg, es) && es != [] && StillTripped(cfg, es[..|es| - 1], f) && After(cfg, es).state != Closed
    ensures forall p: nat, q: nat :: f < p < q < |es| ==> !TwoLate(cfg, es, p, q)
  {
    forall p: nat, q: nat | f < p < q < |es| ensures !TwoLate(cfg, es, p, q) {
      if q < |es| - 1 {
        TwoLatePrefix(cfg, es, |es| - 1, p, q);
      } else if TwoLate(cfg, es, p, |es| - 1) {
        SecondLateCloses(cfg, es, f, p);
      }
    }
  }

  lemma {:induction false} SecondLateCloses(cfg: Config, es: seq<Event>, f: nat, p: nat)
    requires Sane(cfg, es) && es != [] && StillTripped(cfg, es[..|es| - 1], f)
    requires f < p && TwoLate(cfg, es, p, |es| - 1)
    ensures After(cfg, es).state == Closed
  {
    var front := es[..|es| - 1];
    PrefixSane(cfg, es, |es| - 1);
    assert forall i :: 0 <= i < |front| ==> front[i] == es[i];
    LateSuccessCounts(cfg, front, f, p);
  }

  /** At any time t from the last event on, the breaker refuses exactly when it is tripped and has failed at most the
      timeout before t. */
  lemma {:induction false} RefusesIff(cfg: Config, es: seq<Event>, t: real)
    requires Sane(cfg, es) && (es != [] ==> es[|es| - 1].at <= t)
    ensures After(cfg, es + [Look(t)]).state == Open
       <==> (exists f: nat :: StillTripped(cfg, es, f)) && FailedLately(cfg, es, t)
  {
    assert (es + [Look(t)])[..|es|] == es;
    TrippedIff(cfg, es);
    FailureTimes(cfg, es);
    LastFailureHappened(cfg, es);
    var s := After(cfg, es);
    if s.state != Closed {
      var g: nat :| g < |es| && es[g].Failure? && es[g].at == s.lastFailure;
      assert FailedLately(cfg, es, t) <==> t - s.lastFailure <= cfg.resetTimeout;
    }
  }

  /** So once every failure lies longer than the timeout back, the next request is let through. */
  lemma {:induction false} AdmitsAfterTimeout(cfg: Config, es: seq<Event>, t: real)
    requires Sane(cfg, es) && (es != [] ==> es[|es| - 1].at <= t)
    requires forall g :: 0 <= g < |es| && es[g].Failure? ==> es[g].at + cfg.resetTimeout < t
    ensures After(cfg, es + [Look(t)]).state != Open
  {
    RefusesIff(cfg, es, t);
  }

  /** And two successes from then on, with no failure before the second, close the breaker. */
  lemma {:induction false} TwoSuccessesClose(cfg: Config, es: seq<Event>, p: nat)
    requires Sane(cfg, es) && p < |es| - 1 && es[p].Success? && es[|es| - 1].Success?
    requires forall g :: 0 <= g < |es| && es[g].Failure? ==> es[g].at + cfg.resetTimeout < es[p].at
    ensures After(cfg, es).state == Closed
  {
    assert TwoLate(cfg, es, p, |es| - 1);
    TrippedIff(cfg, es);
    assert forall f: nat :: p <= f < |es| ==> es[p].at <= es[f].at;
  }
}
