/** One collection cycle of the scheduler behind the circuit breaker, and whole runs of cycles. */
module Collection {
  import opened CircuitBreaker
  import opened Reals

  /** What one call to the collector gives: how many samples, and whether it failed. */
  datatype Attempt = Attempt(samples: nat, failed: bool)

  /** Everything outside the scheduler that decides how one cycle goes. The breaker is asked at `askAt`; at
      `recordAt` it is told the outcome, or read again for the log line of a refused cycle. */
  datatype Env = Env(
    askAt: real,
    upsertFails: bool,
    attempts: nat -> Attempt,
    cancelledAfter: nat -> bool,
    insertFails: bool,
    inserted: nat,
    recordAt: real)

  datatype Effect = Upsert | Collect | Backoff(seconds: nat) | Insert(samples: nat)

  datatype Outcome = Refused | UpsertFailed | Cancelled | CollectFailed | NothingCollected | InsertFailed | Inserted

  const MAX_ATTEMPTS := 3

  /** How the retry loop ends: all effects so far, and the last attempt unless it was cancelled. */
  datatype Retry = Gave(effects: seq<Effect>, samples: nat, sawError: bool) | GaveUp(effects: seq<Effect>)

  function BackoffAfter(attempt: nat): nat {
    if attempt == 1 then 1 else 2
  }

  function Retrying(env: Env, attempt: nat, sawError: bool, done: seq<Effect>): Retry
    requires 1 <= attempt <= MAX_ATTEMPTS
    decreases MAX_ATTEMPTS - attempt
  {
    var a := env.attempts(attempt);
    var tried := done + [Collect];
    if !a.failed then Gave(tried, a.samples, sawError)
    else if attempt == MAX_ATTEMPTS then Gave(tried, a.samples, true)
    else if env.cancelledAfter(attempt) then GaveUp(tried + [Backoff(BackoffAfter(attempt))])
    else Retrying(env, attempt + 1, true, tried + [Backoff(BackoffAfter(attempt))])
  }

  /** How a cycle ends when the breaker lets it through, and what it does to the outside. */
  function Admitted(env: Env): (Outcome, seq<Effect>) {
    if env.upsertFails then (UpsertFailed, [Upsert])
    else
      match Retrying(env, 1, false, [Upsert])
      case GaveUp(effects) => (Cancelled, effects)
      case Gave(effects, samples, sawError) =>
        if sawError && samples == 0 then (CollectFailed, effects)
        else if samples == 0 then (NothingCollected, effects)
        else (if env.insertFails then InsertFailed else Inserted, effects + [Insert(samples)])
  }

  /** The one breaker event a cycle may end with. */
  predicate RecordsFailure(o: Outcome) { o == CollectFailed || o == InsertFailed }

  predicate RecordsSuccess(o: Outcome) { o == Inserted }

  function Recorded(cfg: Config, s: Status, o: Outcome, at: real): Status {
    if RecordsFailure(o) then Step(cfg, s, Failure(at))
    else if RecordsSuccess(o) then Step(cfg, s, Success(at))
    else s
  }

  /** A cycle as the breaker sees it: a look, then a record if the cycle was let through and came to one, or a
      second look if it was refused. The second look may already find the breaker half open. */
  function Cycle(cfg: Config, s: Status, env: Env): (r: (Outcome, Status)) {
    var looked := Step(cfg, s, Look(env.askAt));
    if looked.state == Open then (Refused, Step(cfg, looked, Look(env.recordAt)))
    else (Admitted(env).0, Recorded(cfg, looked, Admitted(env).0, env.recordAt))
  }

  class Scheduler {
    const breaker: Breaker
    var collectionErrors: nat
    var collectionTotal: nat
    var samplesInserted: nat

    constructor (threshold: int, resetTimeout: real)
      ensures fresh(breaker) && breaker.Valid() && breaker.Now() == INITIAL
      ensures breaker.Cfg() == CircuitBreaker.Config(threshold, resetTimeout)
      ensures collectionErrors == 0 && collectionTotal == 0 && samplesInserted == 0
    {
      breaker := new Breaker(threshold, resetTimeout);
      collectionErrors, collectionTotal, samplesInserted := 0, 0, 0;
    }

    /** At most three attempts, one second apart and then two. */
    method CollectWithRetry(env: Env, done: seq<Effect>) returns (r: Retry)
      ensures r == Retrying(env, 1, false, done)
    {
      var effects := done;
      var samples: nat := 0;
      var lastErr := false;
      var attempt := 1;
      while true
        invariant 1 <= attempt <= MAX_ATTEMPTS
        invariant Retrying(env, 1, false, done) == Retrying(env, attempt, lastErr, effects)
        decreases MAX_ATTEMPTS - attempt
      {
        effects := effects + [Collect];
        var a := env.attempts(attempt);
        samples := a.samples;
        if !a.failed {
          return Gave(effects, samples, lastErr);
        }
        if attempt == MAX_ATTEMPTS {
          return Gave(effects, samples, true);
        }
        lastErr := true;
        effects := effects + [Backoff(if attempt == 1 then 1 else 2)];
        if env.cancelledAfter(attempt) {
          return GaveUp(effects);
        }
        attempt := attempt + 1;
      }
    }

    method CollectOnce(env: Env) returns (out: Outcome, effects: seq<Effect>)
      requires breaker.Valid()
      modifies this, breaker
      ensures breaker.Valid()
      ensures (out, breaker.Now()) == Cycle(breaker.Cfg(), old(breaker.Now()), env)
      ensures effects == if out == Refused then [] else Admitted(env).1
      ensures collectionErrors == old(collectionErrors) + if out == CollectFailed then 1 else 0
      ensures collectionTotal == old(collectionTotal) + if out == Inserted then 1 else 0
      ensures samplesInserted == old(samplesInserted) + if out == Inserted then env.inserted else 0
    {
      var ok := breaker.Allow(env.askAt);
      if !ok {
        var logged := breaker.CurrentState(env.recordAt);
        return Refused, [];
      }
      effects := [Upsert];
      if env.upsertFails {
        return UpsertFailed, effects;
      }
      var r := CollectWithRetry(env, effects);
      effects := r.effects;
      if r.GaveUp? {
        return Cancelled, effects;
      }
      if r.sawError && r.samples == 0 {
        collectionErrors := collectionErrors + 1;
        breaker.RecordFailure(env.recordAt);
        return CollectFailed, effects;
      }
      if r.samples == 0 {
        return NothingCollected, effects;
      }
      effects := effects + [Insert(r.samples)];
      if env.insertFails {
        breaker.RecordFailure(env.recordAt);
        return InsertFailed, effects;
      }
      breaker.RecordSuccess(env.recordAt);
      collectionTotal := collectionTotal + 1;
      samplesInserted := samplesInserted + env.inserted;
      return Inserted, effects;
    }
  }

  // ---------------------------------------------------------------- one cycle

  /** The longest a cycle goes before it inserts. */
  const FULL_RETRY: seq<Effect> := [Upsert, Collect, Backoff(1), Collect, Backoff(2), Collect]

  lemma {:induction false} RetryShape(env: Env, attempt: nat, sawError: bool)
    requires 1 <= attempt <= MAX_ATTEMPTS
    ensures var r := Retrying(env, attempt, sawError, FULL_RETRY[..2 * attempt - 1]);
            && 2 * attempt <= |r.effects| <= |FULL_RETRY| && r.effects == FULL_RETRY[..|r.effects|]
            && (r.Gave? ==> (r.sawError <==> sawError || env.attempts(attempt).failed))
    decreases MAX_ATTEMPTS - attempt
  {
    var done := FULL_RETRY[..2 * attempt - 1];
    var tried := done + [Collect];
    assert tried == FULL_RETRY[..2 * attempt];
    if env.attempts(attempt).failed && attempt < MAX_ATTEMPTS {
      assert tried + [Backoff(BackoffAfter(attempt))] == FULL_RETRY[..2 * attempt + 1];
      if !env.cancelledAfter(attempt) {
        RetryShape(env, attempt + 1, true);
      }
    }
  }

  /** What an admitted cycle does to the outside is a prefix of upserting the node and collecting three
      times with one and two seconds in between, and then an insert exactly when its outcome is about
      inserting. A failed collection is recorded only if the first attempt failed. */
  lemma {:induction false} AdmittedShape(env: Env)
    ensures var (o, effects) := Admitted(env);
            && effects != [] && o != Refused
            && (if o == InsertFailed || o == Inserted
                then effects[|effects| - 1].Insert? && effects[..|effects| - 1] <= FULL_RETRY
                else effects <= FULL_RETRY)
            && (o == CollectFailed ==> env.attempts(1).failed)
            && (o == UpsertFailed <==> env.upsertFails) && (env.upsertFails ==> effects == [Upsert])
  {
    if env.upsertFails {
      assert [Upsert] == FULL_RETRY[..1];
    } else {
      RetryShape(env, 1, false);
      assert FULL_RETRY[..1] == [Upsert];
      var effects := Retrying(env, 1, false, [Upsert]).effects;
      assert effects <= FULL_RETRY;
      var (o, all) := Admitted(env);
      if o == InsertFailed || o == Inserted {
        assert all[..|all| - 1] == effects;
      }
    }
  }

  /** The collector is called for the k-th time and not again: the attempts before it failed, and it is the third or
      did not fail. */
  ghost predicate LastTry(env: Env, k: nat) {
    && 1 <= k <= 3 && (forall j :: 1 <= j < k ==> env.attempts(j).failed)
    && (k < 3 ==> !env.attempts(k).failed)
  }

  /** The cycle is cancelled in the pause after attempt j. */
  ghost predicate CancelledIn(env: Env, j: nat) {
    1 <= j < 3 && (forall i :: 1 <= i <= j ==> env.attempts(i).failed) && env.cancelledAfter(j)
  }

  function Collects(effects: seq<Effect>): nat {
    if effects == [] then 0
    else Collects(effects[..|effects| - 1]) + if effects[|effects| - 1].Collect? then 1 else 0
  }

  lemma {:induction false} CollectsOf(effects: seq<Effect>, e: Effect)
    ensures Collects(effects + [e]) == Collects(effects) + if e.Collect? then 1 else 0
  {
    assert (effects + [e])[..|effects|] == effects;
  }

  lemma {:induction false} OneMoreTry(effects: seq<Effect>, pause: Effect)
    requires !pause.Collect?
    ensures Collects(effects + [pause] + [Collect]) == Collects(effects) + 1
  {
    CollectsOf(effects, pause);
    CollectsOf(effects + [pause], Collect);
  }

  lemma {:induction false} RetryPrefixes()
    ensures FULL_RETRY[..2] == [Upsert] + [Collect]
    ensures FULL_RETRY[..4] == FULL_RETRY[..2] + [Backoff(1)] + [Collect]
    ensures FULL_RETRY[..6] == FULL_RETRY[..4] + [Backoff(2)] + [Collect]
  {
  }

  lemma {:induction false} CollectsOfRetry(k: nat)
    requires 1 <= k <= 3
    ensures Collects(FULL_RETRY[..2 * k]) == k
  {
    RetryPrefixes();
    assert [] + [Upsert] == [Upsert];
    OneMoreTry([], Upsert);
    OneMoreTry(FULL_RETRY[..2], Backoff(1));
    OneMoreTry(FULL_RETRY[..4], Backoff(2));
  }

  /** The retry loop of a cycle that is not cancelled ends with its last try. */
  lemma {:induction false} RetryEnds(env: Env, k: nat)
    requires LastTry(env, k) && forall j :: 1 <= j < k ==> !env.cancelledAfter(j)
    ensures Retrying(env, 1, false, [Upsert])
         == Gave(FULL_RETRY[..2 * k], env.attempts(k).samples, env.attempts(1).failed)
  {
    RetryPrefixes();
    assert env.attempts(1).failed <==> k > 1;
    assert k > 1 ==> (env.attempts(2).failed <==> k > 2);
    if k > 1 {
      var second := Retrying(env, 2, true, FULL_RETRY[..2] + [Backoff(1)]);
      assert Retrying(env, 1, false, [Upsert]) == second;
      if k > 2 {
        assert second == Retrying(env, 3, true, FULL_RETRY[..4] + [Backoff(2)]);
      }
    }
  }

  /** What an admitted cycle comes to, told from the outside alone: unless cancelled it collects until an attempt
      does not fail and at most three times; samples of the last attempt are inserted whatever failed before, and
      having none is recorded as a failure just when the first attempt failed. */
  lemma {:induction false} AdmittedMeaning(env: Env, k: nat)
    requires !env.upsertFails && LastTry(env, k) && forall j :: 1 <= j < 3 ==> !CancelledIn(env, j)
    ensures var (o, effects) := Admitted(env);
            var n := env.attempts(k).samples;
            && Collects(effects) == k
            && (o == CollectFailed <==> n == 0 && env.attempts(1).failed)
            && (o == NothingCollected <==> n == 0 && !env.attempts(1).failed)
            && (o == InsertFailed <==> n > 0 && env.insertFails)
            && (o == Inserted <==> n > 0 && !env.insertFails)
            && (n > 0 ==> effects == FULL_RETRY[..2 * k] + [Insert(n)])
            && (n == 0 ==> effects == FULL_RETRY[..2 * k])
  {
    forall j | 1 <= j < k ensures !env.cancelledAfter(j) {
      assert !CancelledIn(env, j);
    }
    RetryEnds(env, k);
    CollectsOfRetry(k);
    CollectsOf(FULL_RETRY[..2 * k], Insert(env.attempts(k).samples));
  }

  /** An admitted cycle that gets past the upsert is cancelled exactly when it is in one of its pauses. */
  lemma {:induction false} CancelledMeaning(env: Env)
    requires !env.upsertFails
    ensures Admitted(env).0 == Cancelled <==> CancelledIn(env, 1) || CancelledIn(env, 2)
    ensures CancelledIn(env, 1) ==> Admitted(env).1 == [Upsert, Collect, Backoff(1)]
    ensures !CancelledIn(env, 1) && CancelledIn(env, 2) ==>
              Admitted(env).1 == [Upsert, Collect, Backoff(1), Collect, Backoff(2)]
  {
    if CancelledIn(env, 1) {
      assert env.attempts(1).failed;
      assert [Upsert] + [Collect] + [Backoff(1)] == [Upsert, Collect, Backoff(1)];
    } else if CancelledIn(env, 2) {
      assert env.attempts(1).failed && env.attempts(2).failed;
      var done := [Upsert] + [Collect] + [Backoff(1)];
      assert Retrying(env, 1, false, [Upsert]) == Retrying(env, 2, true, done);
      assert done + [Collect] + [Backoff(2)] == [Upsert, Collect, Backoff(1), Collect, Backoff(2)];
    } else {
      var k := if !env.attempts(1).failed then 1 else if !env.attempts(2).failed then 2 else 3;
      assert LastTry(env, k);
      AdmittedMeaning(env, k);
    }
  }

  /** What the breaker hears of a cycle after it was asked. */
  function Heard(o: Outcome, at: real): seq<Event> {
    match o
    case CollectFailed => [Failure(at)]
    case InsertFailed => [Failure(at)]
    case Inserted => [Success(at)]
    case Refused => [Look(at)]
    case UpsertFailed => []
    case Cancelled => []
    case NothingCollected => []
  }

  /** A cycle adds to the breaker's history the question and what its outcome tells. It is refused exactly when the
      question finds the breaker Open. */
  lemma {:induction false} CycleHistory(cfg: Config, es: seq<Event>, env: Env)
    ensures var (o, next) := Cycle(cfg, After(cfg, es), env);
            && next == After(cfg, es + [Look(env.askAt)] + Heard(o, env.recordAt))
            && (o == Refused <==> After(cfg, es + [Look(env.askAt)]).state == Open)
  {
    AdmittedShape(env);
    var asked := es + [Look(env.askAt)];
    assert asked[..|es|] == es;
    var heard := Heard(Cycle(cfg, After(cfg, es), env).0, env.recordAt);
    if heard == [] {
      assert asked + heard == asked;
    } else {
      assert (asked + heard)[..|asked|] == asked;
    }
  }

  // ---------------------------------------------------------------- runs

  /** Outcomes of consecutive cycles from one breaker state. */
  function Outcomes(cfg: Config, s: Status, envs: seq<Env>): (os: seq<Outcome>)
    ensures |os| == |envs|
    decreases |envs|
  {
    if envs == [] then []
    else
      var (o, next) := Cycle(cfg, s, envs[0]);
      [o] + Outcomes(cfg, next, envs[1..])
  }

  function StatusAfter(cfg: Config, s: Status, envs: seq<Env>): Status
    decreases |envs|
  {
    if envs == [] then s else StatusAfter(cfg, Cycle(cfg, s, envs[0]).1, envs[1..])
  }

  /** One cycle after the other on a clock that never runs backwards. */
  ghost predicate Sequential(now: real, envs: seq<Env>) {
    forall i :: 0 <= i < |envs| ==>
      && now <= envs[i].askAt <= envs[i].recordAt
      && forall j :: i < j < |envs| ==> envs[i].recordAt <= envs[j].askAt
  }

  function CountFailures(os: seq<Outcome>): nat {
    if os == [] then 0 else (if RecordsFailure(os[0]) then 1 else 0) + CountFailures(os[1..])
  }

  ghost predicate NoSuccess(os: seq<Outcome>) {
    forall o :: o in os ==> !RecordsSuccess(o)
  }

  ghost predicate Wired(cfg: Config) {
    cfg.threshold >= 1 && cfg.resetTimeout > 0.0
  }

  /** What every state reached by cycles keeps. */
  ghost predicate Sound(cfg: Config, s: Status, now: real) {
    && s.failures >= 0
    && (s.state == Closed ==> s.failures < cfg.threshold)
    && (s.state != Closed ==> s.lastFailure <= now)
    && (s.state == HalfOpen ==> now - s.lastFailure > cfg.resetTimeout)
  }

  lemma {:induction false} CycleSound(cfg: Config, s: Status, now: real, env: Env)
    requires Wired(cfg) && Sound(cfg, s, now) && now <= env.askAt <= env.recordAt
    ensures Sound(cfg, Cycle(cfg, s, env).1, env.recordAt)
  {
  }

  /** Seconds that failures may still use up before `end`, one reset timeout for each of them. */
  function Allowance(cfg: Config, s: Status, now: real, end: real): real {
    if s.state == Closed then Times(cfg.resetTimeout, (cfg.threshold - s.failures) as real) + (end - now)
    else
      var next := if s.lastFailure + cfg.resetTimeout > now then s.lastFailure + cfg.resetTimeout else now;
      if next > end then 0.0 else cfg.resetTimeout + (end - next)
  }

  lemma {:induction false} AllowanceShrinks(cfg: Config, s: Status, now: real, later: real, end: real)
    requires Wired(cfg) && now <= later
    ensures Allowance(cfg, s, later, end) <= Allowance(cfg, s, now, end)
  {
  }

  lemma {:induction false} AllowanceNonnegative(cfg: Config, s: Status, now: real, end: real)
    requires Wired(cfg) && Sound(cfg, s, now) && now <= end
    ensures Allowance(cfg, s, now, end) >= 0.0
  {
    if s.state == Closed {
      Sign(cfg.resetTimeout, (cfg.threshold - s.failures) as real);
    }
  }

  /** A failure in an admitted state costs one reset timeout. */
  lemma {:induction false} FailurePays(cfg: Config, s: Status, at: real, end: real)
    requires Wired(cfg) && Sound(cfg, s, at) && s.state != Open && at <= end
    ensures Allowance(cfg, Step(cfg, s, Failure(at)), at, end) + cfg.resetTimeout <= Allowance(cfg, s, at, end)
  {
    if s.state == Closed {
      var left := (cfg.threshold - s.failures) as real;
      Distribute(cfg.resetTimeout, left, 1.0);
      One(cfg.resetTimeout);
      Zero(cfg.resetTimeout);
    }
  }

  lemma {:induction false} CyclePays(cfg: Config, s: Status, now: real, env: Env, end: real)
    requires Wired(cfg) && Sound(cfg, s, now) && now <= env.askAt <= env.recordAt <= end
    requires !RecordsSuccess(Cycle(cfg, s, env).0)
    ensures Allowance(cfg, Cycle(cfg, s, env).1, env.recordAt, end)
          + (if RecordsFailure(Cycle(cfg, s, env).0) then cfg.resetTimeout else 0.0)
         <= Allowance(cfg, s, now, end)
  {
    var looked := Step(cfg, s, Look(env.askAt));
    AllowanceShrinks(cfg, s, now, env.askAt, end);
    assert Allowance(cfg, looked, env.askAt, end) <= Allowance(cfg, s, env.askAt, end);
    AllowanceShrinks(cfg, looked, env.askAt, env.recordAt, end);
    if RecordsFailure(Cycle(cfg, s, env).0) {
      assert Settled(cfg, looked, env.recordAt) == looked;
      FailurePays(cfg, looked, env.recordAt, end);
    }
  }

  lemma {:induction false} SequentialTail(now: real, envs: seq<Env>)
    requires Sequential(now, envs) && envs != []
    ensures now <= envs[0].askAt <= envs[0].recordAt && Sequential(envs[0].recordAt, envs[1..])
  {
    forall i | 0 <= i < |envs| - 1
      ensures envs[0].recordAt <= envs[1..][i].askAt <= envs[1..][i].recordAt
      ensures forall j :: i < j < |envs| - 1 ==> envs[1..][i].recordAt <= envs[1..][j].askAt
    {
      assert envs[1..][i] == envs[i + 1];
      assert forall j :: i < j < |envs| - 1 ==> envs[1..][j] == envs[j + 1];
    }
  }

  lemma {:induction false} CountHead(timeout: real, o: Outcome, rest: seq<Outcome>)
    ensures Times(timeout, CountFailures([o] + rest) as real)
         == Times(timeout, CountFailures(rest) as real) + if RecordsFailure(o) then timeout else 0.0
  {
    assert ([o] + rest)[1..] == rest;
    Distribute(timeout, CountFailures(rest) as real, 1.0);
    One(timeout);
  }

  lemma {:induction false} NoSuccessHead(o: Outcome, rest: seq<Outcome>)
    requires NoSuccess([o] + rest)
    ensures !RecordsSuccess(o) && NoSuccess(rest)
  {
    assert o in [o] + rest && forall x :: x in rest ==> x in [o] + rest;
  }

  lemma {:induction false} FailuresFrom(cfg: Config, s: Status, now: real, envs: seq<Env>, end: real)
    requires Wired(cfg) && Sound(cfg, s, now) && Sequential(now, envs) && now <= end
    requires forall i :: 0 <= i < |envs| ==> envs[i].recordAt <= end
    requires NoSuccess(Outcomes(cfg, s, envs))
    ensures Times(cfg.resetTimeout, CountFailures(Outcomes(cfg, s, envs)) as real) <= Allowance(cfg, s, now, end)
    decreases |envs|
  {
    if envs == [] {
      Zero(cfg.resetTimeout);
      AllowanceNonnegative(cfg, s, now, end);
    } else {
      var (o, next) := Cycle(cfg, s, envs[0]);
      CountHead(cfg.resetTimeout, o, Outcomes(cfg, next, envs[1..]));
      NoSuccessHead(o, Outcomes(cfg, next, envs[1..]));
      SequentialTail(now, envs);
      CycleSound(cfg, s, now, envs[0]);
      CyclePays(cfg, s, now, envs[0], end);
      assert forall i :: 0 <= i < |envs| - 1 ==> envs[1..][i] == envs[i + 1];
      FailuresFrom(cfg, next, envs[0].recordAt, envs[1..], end);
    }
  }

  /** The allowance of any sound state is at most threshold timeouts and the time that is left. */
  lemma {:induction false} AllowanceBound(cfg: Config, s: Status, now: real, end: real)
    requires Wired(cfg) && Sound(cfg, s, now) && now <= end
    ensures Allowance(cfg, s, now, end) <= Times(cfg.resetTimeout, cfg.threshold as real) + (end - now)
  {
    var t, f := cfg.threshold as real, s.failures as real;
    Distribute(cfg.resetTimeout, t, f);
    Distribute(cfg.resetTimeout, t - 1.0, 1.0);
    One(cfg.resetTimeout);
    Sign(cfg.resetTimeout, f);
    Sign(cfg.resetTimeout, t - 1.0);
  }

  lemma {:induction false} StatusSound(cfg: Config, s: Status, now: real, envs: seq<Env>)
    requires Wired(cfg) && Sound(cfg, s, now) && Sequential(now, envs)
    ensures Sound(cfg, StatusAfter(cfg, s, envs), if envs == [] then now else envs[|envs| - 1].recordAt)
    decreases |envs|
  {
    if envs != [] {
      SequentialTail(now, envs);
      CycleSound(cfg, s, now, envs[0]);
      StatusSound(cfg, Cycle(cfg, s, envs[0]).1, envs[0].recordAt, envs[1..]);
    }
  }

  lemma {:induction false} OutcomesAppend(cfg: Config, s: Status, a: seq<Env>, b: seq<Env>)
    ensures Outcomes(cfg, s, a + b) == Outcomes(cfg, s, a) + Outcomes(cfg, StatusAfter(cfg, s, a), b)
    decreases |a|
  {
    if a == [] {
      assert a + b == b;
    } else {
      assert (a + b)[1..] == a[1..] + b;
      OutcomesAppend(cfg, Cycle(cfg, s, a[0]).1, a[1..], b);
    }
  }

  /** From a fresh breaker, cycles whose records all fall into a window of length T and among which no
      success is recorded record at most threshold + T / resetTimeout failures. */
  lemma {:induction false} FailureRateBounded(cfg: Config, earlier: seq<Env>, window: seq<Env>, T: real)
    requires Wired(cfg) && window != [] && earlier + window != []
    requires Sequential((earlier + window)[0].askAt, earlier + window)
    requires window[|window| - 1].recordAt - window[0].recordAt <= T
    requires NoSuccess(Outcomes(cfg, INITIAL, earlier + window)[|earlier|..])
    ensures CountFailures(Outcomes(cfg, INITIAL, earlier + window)[|earlier|..]) as real
         <= cfg.threshold as real + T / cfg.resetTimeout
  {
    var start := (earlier + window)[0].askAt;
    var s := StatusAfter(cfg, INITIAL, earlier);
    OutcomesAppend(cfg, INITIAL, earlier, window);
    var os := Outcomes(cfg, s, window);
    assert Outcomes(cfg, INITIAL, earlier + window)[|earlier|..] == os;
    SplitSequential(start, earlier, window);
    StatusSound(cfg, INITIAL, start, earlier);
    WindowFrom(cfg, s, if earlier == [] then start else earlier[|earlier| - 1].recordAt, window, T);
    var k := CountFailures(os) as real;
    TimeoutsFit(cfg.resetTimeout, k, cfg.threshold as real, T);
  }

  lemma {:induction false} SplitSequential(now: real, a: seq<Env>, b: seq<Env>)
    requires Sequential(now, a + b)
    ensures Sequential(now, a) && Sequential(if a == [] then now else a[|a| - 1].recordAt, b)
  {
    assert forall i :: 0 <= i < |a| ==> (a + b)[i] == a[i];
    assert forall i :: 0 <= i < |b| ==> (a + b)[|a| + i] == b[i];
  }

  lemma {:induction false} TimeoutsFit(r: real, k: real, t: real, T: real)
    requires r > 0.0 && Times(r, k) <= Times(r, t) + T
    ensures k <= t + T / r
  {
    Quotient(T, r);
    Commute(T / r, r);
    Distribute(r, t, T / r);
    Distribute(r, k, t + T / r);
    if k > t + T / r {
      Positive(r, k - (t + T / r));
    }
  }

  /** The first cycle of a window, paid for at the time of its record. */
  lemma {:induction false} FirstOfWindow(cfg: Config, s: Status, now: real, first: Env, end: real)
    requires Wired(cfg) && Sound(cfg, s, now) && now <= first.askAt <= first.recordAt <= end
    requires !RecordsSuccess(Cycle(cfg, s, first).0)
    ensures Allowance(cfg, Cycle(cfg, s, first).1, first.recordAt, end)
          + (if RecordsFailure(Cycle(cfg, s, first).0) then cfg.resetTimeout else 0.0)
         <= Times(cfg.resetTimeout, cfg.threshold as real) + (end - first.recordAt)
  {
    var looked := Step(cfg, s, Look(first.askAt));
    assert Sound(cfg, looked, first.recordAt);
    AllowanceBound(cfg, looked, first.recordAt, end);
    if RecordsFailure(Cycle(cfg, s, first).0) {
      FailurePays(cfg, looked, first.recordAt, end);
    }
  }

  lemma {:induction false} WindowFrom(cfg: Config, s: Status, now: real, window: seq<Env>, T: real)
    requires Wired(cfg) && window != [] && Sound(cfg, s, now) && Sequential(now, window)
    requires window[|window| - 1].recordAt - window[0].recordAt <= T
    requires NoSuccess(Outcomes(cfg, s, window))
    ensures Times(cfg.resetTimeout, CountFailures(Outcomes(cfg, s, window)) as real)
         <= Times(cfg.resetTimeout, cfg.threshold as real) + T
  {
    var first, end := window[0], window[|window| - 1].recordAt;
    var (o, next) := Cycle(cfg, s, first);
    CountHead(cfg.resetTimeout, o, Outcomes(cfg, next, window[1..]));
    NoSuccessHead(o, Outcomes(cfg, next, window[1..]));
    SequentialTail(now, window);
    CycleSound(cfg, s, now, first);
    FirstOfWindow(cfg, s, now, first, end);
    assert forall i :: 0 <= i < |window| - 1 ==> window[1..][i] == window[i + 1];
    FailuresFrom(cfg, next, first.recordAt, window[1..], end);
  }
}
