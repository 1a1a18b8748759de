/** Schema migrations under an advisory lock: one instance's walk over the migration files, and the
    protocol of any number of instances that interleave, fail and crash. */
module Migration {

  /** How a statement that changes the database ends; Lost takes effect although an error is reported. */
  datatype Result = Good | Failed | Lost

  /** The tracking table, how often each migration was applied, and how often an instance stopped after
      applying a migration and before recording it. */
  datatype Tables = Tables(recorded: set<string>, applied: multiset<string>, stops: multiset<string>)

  function Applied(t: Tables, v: string, r: Result): Tables {
    match r
    case Good => t.(applied := t.applied + multiset{v})
    case Failed => t
    case Lost => t.(applied := t.applied + multiset{v}, stops := t.stops + multiset{v})
  }

  function Recorded(t: Tables, v: string, r: Result): Tables {
    if r == Failed then t.(stops := t.stops + multiset{v}) else t.(recorded := t.recorded + {v})
  }

  // ---------------------------------------------------------------- one instance

  datatype Faults = Faults(lock: bool, prepare: bool, check: nat -> bool, apply: nat -> Result, record: nat -> Result)

  /** The walk over the files from position i on: the tables it leaves, and whether it reports an error. */
  function Walk(files: seq<string>, i: nat, f: Faults, t: Tables): (Tables, bool)
    requires i <= |files|
    decreases |files| - i
  {
    if i == |files| then (t, false)
    else if f.check(i) then (t, true)
    else if files[i] in t.recorded then Walk(files, i + 1, f, t)
    else
      var a := Applied(t, files[i], f.apply(i));
      if f.apply(i) != Good then (a, true)
      else
        var r := Recorded(a, files[i], f.record(i));
        if f.record(i) != Good then (r, true) else Walk(files, i + 1, f, r)
  }

  class Database {
    var tables: Tables
    var locked: bool

    method Migrate(files: seq<string>, f: Faults) returns (err: bool)
      requires !locked
      modifies this
      ensures !locked
      ensures (tables, err) ==
              if f.lock || f.prepare then (old(tables), true) else Walk(files, 0, f, old(tables))
    {
      if f.lock {
        return true;
      }
      locked := true;
      err := RunFiles(files, f);
      locked := false;
    }

    /** What happens between lock and unlock. */
    method RunFiles(files: seq<string>, f: Faults) returns (err: bool)
      requires locked
      modifies this
      ensures locked
      ensures (tables, err) == if f.prepare then (old(tables), true) else Walk(files, 0, f, old(tables))
    {
      if f.prepare {
        return true;
      }
      var i := 0;
      while i < |files|
        invariant 0 <= i <= |files| && locked
        invariant Walk(files, i, f, tables) == Walk(files, 0, f, old(tables))
      {
        var version := files[i];
        if f.check(i) {
          return true;
        }
        if version !in tables.recorded {
          var applied, recorded := f.apply(i), f.record(i);
          tables := Applied(tables, version, applied);
          if applied != Good {
            return true;
          }
          tables := Recorded(tables, version, recorded);
          if recorded != Good {
            return true;
          }
        }
        i := i + 1;
      }
      return false;
    }
  }

  // ---------------------------------------------------------------- the protocol

  datatype Pc =
    | Start
    | Preparing
    | Checking(i: nat)
    | Applying(i: nat)
    | Recording(i: nat)
    | Unlocking(err: bool)
    | Finished(err: bool)
    | Crashed

  datatype Holder = Nobody | Instance(id: nat)

  /** Instances that are not listed have not started yet. */
  datatype State = State(tables: Tables, holder: Holder, pcs: map<nat, Pc>)

  datatype Action =
    | Acquire(id: nat)
    | AcquireFails(id: nat)
    | Prepare(id: nat, fails: bool)
    | Check(id: nat, fails: bool)
    | Apply(id: nat, result: Result)
    | Record(id: nat, result: Result)
    | Unlock(id: nat)
    | Crash(id: nat)

  function PcOf(s: State, id: nat): Pc {
    if id in s.pcs then s.pcs[id] else Start
  }

  function At(s: State, id: nat, pc: Pc): State {
    s.(pcs := s.pcs[id := pc])
  }

  /** Between lock and unlock. */
  predicate Inside(pc: Pc) {
    pc.Preparing? || pc.Checking? || pc.Applying? || pc.Recording? || pc.Unlocking?
  }

  predicate Enabled(files: seq<string>, s: State, a: Action) {
    match a
    case Acquire(id) => PcOf(s, id).Start? && s.holder == Nobody
    case AcquireFails(id) => PcOf(s, id).Start?
    case Prepare(id, _) => PcOf(s, id).Preparing?
    case Check(id, _) => PcOf(s, id).Checking? && PcOf(s, id).i <= |files|
    case Apply(id, _) => PcOf(s, id).Applying? && PcOf(s, id).i < |files|
    case Record(id, _) => PcOf(s, id).Recording? && PcOf(s, id).i < |files|
    case Unlock(id) => PcOf(s, id).Unlocking?
    case Crash(id) => !PcOf(s, id).Finished? && !PcOf(s, id).Crashed?
  }

  function Step(files: seq<string>, s: State, a: Action): State
    requires Enabled(files, s, a)
  {
    match a
    case Acquire(id) => At(s.(holder := Instance(id)), id, Preparing)
    case AcquireFails(id) => At(s, id, Finished(true))
    case Prepare(id, fails) => At(s, id, if fails then Unlocking(true) else Checking(0))
    case Check(id, fails) =>
      var i := PcOf(s, id).i;
      At(s, id,
         if i == |files| then Unlocking(false)
         else if fails then Unlocking(true)
         else if files[i] in s.tables.recorded then Checking(i + 1)
         else Applying(i))
    case Apply(id, result) =>
      var i := PcOf(s, id).i;
      At(s.(tables := Applied(s.tables, files[i], result)), id,
         if result == Good then Recording(i) else Unlocking(true))
    case Record(id, result) =>
      var i := PcOf(s, id).i;
      At(s.(tables := Recorded(s.tables, files[i], result)), id,
         if result == Good then Checking(i + 1) else Unlocking(true))
    case Unlock(id) => At(s.(holder := Nobody), id, Finished(PcOf(s, id).err))
    case Crash(id) =>
      var pc := PcOf(s, id);
      var t := if pc.Recording? && pc.i < |files|
               then s.tables.(stops := s.tables.stops + multiset{files[pc.i]}) else s.tables;
      At(s.(tables := t, holder := if s.holder == Instance(id) then Nobody else s.holder), id, Crashed)
  }

  const FRESH := State(Tables({}, multiset{}, multiset{}), Nobody, map[])

  /** A run takes only enabled steps. */
  ghost predicate Runs(files: seq<string>, s: State, acts: seq<Action>)
    decreases |acts|
  {
    acts != [] ==> Enabled(files, s, acts[0]) && Runs(files, Step(files, s, acts[0]), acts[1..])
  }

  ghost function After(files: seq<string>, s: State, acts: seq<Action>): State
    requires Runs(files, s, acts)
    decreases |acts|
  {
    if acts == [] then s else After(files, Step(files, s, acts[0]), acts[1..])
  }

  // ---------------------------------------------------------------- what every run keeps

  function Names(files: seq<string>): set<string> {
    set v | v in files
  }

  ghost predicate Distinct(files: seq<string>) {
    forall i, j :: 0 <= i < j < |files| ==> files[i] != files[j]
  }

  /** Exactly the first r migrations are recorded. */
  ghost predicate RecordedUpTo(files: seq<string>, recorded: set<string>, r: nat) {
    r <= |files| && forall v :: v in recorded <==> v in files[..r]
  }

  /** The migration an instance has applied and not yet recorded. */
  ghost predicate InFlight(files: seq<string>, s: State, v: string) {
    && s.holder.Instance? && PcOf(s, s.holder.id).Recording?
    && PcOf(s, s.holder.id).i < |files| && files[PcOf(s, s.holder.id).i] == v
  }

  ghost predicate PcFits(files: seq<string>, pc: Pc, r: nat) {
    match pc
    case Checking(i) => i <= r
    case Applying(i) => i == r < |files|
    case Recording(i) => i == r < |files|
    case Unlocking(err) => !err ==> r == |files|
    case Finished(err) => !err ==> r == |files|
    case _ => true
  }

  ghost predicate Exclusive(s: State) {
    forall id: nat :: Inside(PcOf(s, id)) <==> s.holder == Instance(id)
  }

  /** Every application is either recorded, in flight, or ended in a stop. */
  ghost predicate Balanced(files: seq<string>, s: State) {
    forall v: string ::
      s.tables.applied[v] == s.tables.stops[v] + (if v in s.tables.recorded then 1 else 0)
                             + (if InFlight(files, s, v) then 1 else 0)
  }

  ghost predicate Inv(files: seq<string>, s: State, r: nat) {
    && Exclusive(s)
    && RecordedUpTo(files, s.tables.recorded, r)
    && (forall id: nat :: PcFits(files, PcOf(s, id), r))
    && Balanced(files, s)
    && (forall v :: v in s.tables.applied ==> v in files[..if r < |files| then r + 1 else r])
  }

  lemma {:induction false} NextVersion(files: seq<string>, recorded: set<string>, r: nat)
    requires Distinct(files) && RecordedUpTo(files, recorded, r) && r < |files|
    ensures files[r] !in recorded
    ensures RecordedUpTo(files, recorded + {files[r]}, r + 1)
  {
    assert files[..r + 1] == files[..r] + [files[r]];
  }

  /** Each step keeps the invariant, and the recorded prefix never shrinks. */
  lemma {:induction false} StepKeepsInv(files: seq<string>, s: State, r: nat, a: Action) returns (q: nat)
    requires Distinct(files) && Inv(files, s, r) && Enabled(files, s, a)
    ensures r <= q && Inv(files, Step(files, s, a), q)
  {
    q := if a.Record? && a.result != Failed then r + 1 else r;
    match a
    case Check(id, fails) => CheckKeeps(files, s, r, a);
    case Apply(id, result) => ApplyKeeps(files, s, r, a);
    case Record(id, result) => RecordKeeps(files, s, r, a);
    case Crash(id) => CrashKeeps(files, s, r, a);
    case _ => LockKeeps(files, s, r, a);
  }

  lemma {:induction false} LockKeeps(files: seq<string>, s: State, r: nat, a: Action)
    requires Distinct(files) && Inv(files, s, r) && Enabled(files, s, a)
    requires a.Acquire? || a.AcquireFails? || a.Prepare? || a.Unlock?
    ensures Inv(files, Step(files, s, a), r)
  {
    var t := Step(files, s, a);
    assert forall id: nat :: id != a.id ==> PcOf(t, id) == PcOf(s, id);
    assert forall v: string :: InFlight(files, t, v) <==> InFlight(files, s, v);
  }

  lemma {:induction false} CheckKeeps(files: seq<string>, s: State, r: nat, a: Action)
    requires Distinct(files) && Inv(files, s, r) && Enabled(files, s, a) && a.Check?
    ensures Inv(files, Step(files, s, a), r)
  {
    var t := Step(files, s, a);
    var i := PcOf(s, a.id).i;
    assert forall id: nat :: id != a.id ==> PcOf(t, id) == PcOf(s, id);
    if i < |files| {
      if i < r {
        assert files[..r][i] == files[i];
      } else {
        NextVersion(files, s.tables.recorded, r);
      }
    }
  }

  lemma {:induction false} ApplyKeeps(files: seq<string>, s: State, r: nat, a: Action)
    requires Distinct(files) && Inv(files, s, r) && Enabled(files, s, a) && a.Apply?
    ensures Inv(files, Step(files, s, a), r)
  {
    var t := Step(files, s, a);
    assert forall id: nat :: id != a.id ==> PcOf(t, id) == PcOf(s, id);
    assert s.holder == Instance(a.id) && t.holder == s.holder;
    assert files[r] in files[..r + 1] by {
      assert files[..r + 1][r] == files[r];
    }
  }

  lemma {:induction false} RecordKeeps(files: seq<string>, s: State, r: nat, a: Action)
    requires Distinct(files) && Inv(files, s, r) && Enabled(files, s, a) && a.Record?
    ensures Inv(files, Step(files, s, a), if a.result == Failed then r else r + 1)
  {
    var t := Step(files, s, a);
    assert forall id: nat :: id != a.id ==> PcOf(t, id) == PcOf(s, id);
    assert s.holder == Instance(a.id) && t.holder == s.holder;
    assert InFlight(files, s, files[r]);
    NextVersion(files, s.tables.recorded, r);
    if a.result != Failed && r + 1 < |files| {
      var shorter, longer := files[..r + 1], files[..r + 2];
      assert longer == shorter + [files[r + 1]];
      assert forall v :: v in shorter ==> v in longer;
    }
  }

  lemma {:induction false} CrashKeeps(files: seq<string>, s: State, r: nat, a: Action)
    requires Distinct(files) && Inv(files, s, r) && Enabled(files, s, a) && a.Crash?
    ensures Inv(files, Step(files, s, a), r)
  {
    var t := Step(files, s, a);
    assert forall id: nat :: id != a.id ==> PcOf(t, id) == PcOf(s, id);
    if PcOf(s, a.id).Recording? {
      assert s.holder == Instance(a.id);
      assert InFlight(files, s, files[r]);
    }
  }

  lemma {:induction false} RunKeepsInv(files: seq<string>, s: State, r: nat, acts: seq<Action>) returns (q: nat)
    requires Distinct(files) && Inv(files, s, r) && Runs(files, s, acts)
    ensures r <= q && Inv(files, After(files, s, acts), q)
    decreases |acts|
  {
    if acts == [] {
      q := r;
    } else {
      var m := StepKeepsInv(files, s, r, acts[0]);
      q := RunKeepsInv(files, Step(files, s, acts[0]), m, acts[1..]);
    }
  }

  /** With any number of instances that interleave, fail and crash anywhere: at most one is between lock
      and unlock, the recorded migrations are a prefix of the list, the applied ones reach at most one
      further, a migration is applied again only after a stop between applying and recording it, and an
      instance that returned without error has seen all of them recorded. */
  lemma {:induction false} ProtocolSafe(files: seq<string>, acts: seq<Action>) returns (r: nat)
    requires Distinct(files) && Runs(files, FRESH, acts)
    ensures var s := After(files, FRESH, acts);
            && (forall x: nat, y: nat :: Inside(PcOf(s, x)) && Inside(PcOf(s, y)) ==> x == y)
            && r <= |files| && s.tables.recorded == Names(files[..r])
            && (forall v :: v in s.tables.applied ==> v in files[..if r < |files| then r + 1 else r])
            && Balanced(files, s) && (forall v: string :: s.tables.applied[v] <= s.tables.stops[v] + 1)
            && (forall v :: v in s.tables.recorded ==> v in s.tables.applied)
            && (forall id: nat :: PcOf(s, id) == Finished(false) ==> r == |files|)
  {
    assert files[..0] == [];
    assert Inv(files, FRESH, 0);
    r := RunKeepsInv(files, FRESH, 0, acts);
    var s := After(files, FRESH, acts);
    OneInside(files, s, r);
    AppliedBounds(files, s, r);
    FinishedMeansAll(files, s, r);
  }

  lemma {:induction false} OneInside(files: seq<string>, s: State, r: nat)
    requires Inv(files, s, r)
    ensures forall x: nat, y: nat :: Inside(PcOf(s, x)) && Inside(PcOf(s, y)) ==> x == y
    ensures r <= |files| && s.tables.recorded == Names(files[..r])
  {
  }

  lemma {:induction false} AppliedBounds(files: seq<string>, s: State, r: nat)
    requires Distinct(files) && Inv(files, s, r)
    ensures forall v: string :: s.tables.applied[v] <= s.tables.stops[v] + 1
    ensures forall v :: v in s.tables.recorded ==> v in s.tables.applied
  {
    forall v: string ensures s.tables.applied[v] <= s.tables.stops[v] + 1 {
      if InFlight(files, s, v) {
        NextVersion(files, s.tables.recorded, r);
      }
    }
  }

  lemma {:induction false} FinishedMeansAll(files: seq<string>, s: State, r: nat)
    requires Inv(files, s, r)
    ensures forall id: nat :: PcOf(s, id) == Finished(false) ==> r == |files|
  {
    forall id: nat | PcOf(s, id) == Finished(false) ensures r == |files| {
      assert PcFits(files, PcOf(s, id), r);
    }
  }

  // ---------------------------------------------------------------- the walk is a run of the protocol

  /** The steps an undisturbed instance takes from Checking(i) to its unlock. */
  ghost function WalkSteps(files: seq<string>, i: nat, f: Faults, t: Tables, id: nat): seq<Action>
    requires i <= |files|
    decreases |files| - i
  {
    if i == |files| then [Check(id, false), Unlock(id)]
    else if f.check(i) then [Check(id, true), Unlock(id)]
    else if files[i] in t.recorded then [Check(id, false)] + WalkSteps(files, i + 1, f, t, id)
    else
      var a := Applied(t, files[i], f.apply(i));
      if f.apply(i) != Good then [Check(id, false), Apply(id, f.apply(i))] + [Unlock(id)]
      else
        var r := Recorded(a, files[i], f.record(i));
        if f.record(i) != Good
        then [Check(id, false), Apply(id, Good), Record(id, f.record(i))] + [Unlock(id)]
        else [Check(id, false), Apply(id, Good), Record(id, Good)] + WalkSteps(files, i + 1, f, r, id)
  }

  lemma {:induction false} RunsCons(files: seq<string>, s: State, a: Action, rest: seq<Action>)
    requires Enabled(files, s, a) && Runs(files, Step(files, s, a), rest)
    ensures Runs(files, s, [a] + rest)
    ensures After(files, s, [a] + rest) == After(files, Step(files, s, a), rest)
  {
    assert ([a] + rest)[1..] == rest;
  }

  lemma {:induction false} RunsTwo(files: seq<string>, s: State, a: Action, b: Action, rest: seq<Action>)
    requires Enabled(files, s, a) && Enabled(files, Step(files, s, a), b)
    requires Runs(files, Step(files, Step(files, s, a), b), rest)
    ensures Runs(files, s, [a, b] + rest)
    ensures After(files, s, [a, b] + rest) == After(files, Step(files, Step(files, s, a), b), rest)
  {
    RunsCons(files, Step(files, s, a), b, rest);
    RunsCons(files, s, a, [b] + rest);
    assert [a] + ([b] + rest) == [a, b] + rest;
  }

  lemma {:induction false} RunsThree(
      files: seq<string>, s: State, a: Action, b: Action, c: Action, rest: seq<Action>)
    requires Enabled(files, s, a) && Enabled(files, Step(files, s, a), b)
    requires Enabled(files, Step(files, Step(files, s, a), b), c)
    requires Runs(files, Step(files, Step(files, Step(files, s, a), b), c), rest)
    ensures Runs(files, s, [a, b, c] + rest)
    ensures After(files, s, [a, b, c] + rest)
         == After(files, Step(files, Step(files, Step(files, s, a), b), c), rest)
  {
    RunsTwo(files, Step(files, s, a), b, c, rest);
    RunsCons(files, s, a, [b, c] + rest);
    assert [a] + ([b, c] + rest) == [a, b, c] + rest;
  }

  /** Outside of the instance itself, only the tables differ after its walk. */
  ghost predicate EndsAs(before: State, after: State, id: nat, t: Tables, err: bool) {
    && after.tables == t && after.holder == Nobody && PcOf(after, id) == Finished(err)
    && forall other: nat :: other != id ==> PcOf(after, other) == PcOf(before, other)
  }

  lemma {:induction false} LastSteps(files: seq<string>, s: State, id: nat, err: bool)
    requires s.holder == Instance(id) && PcOf(s, id) == Unlocking(err)
    ensures Runs(files, s, [Unlock(id)]) && EndsAs(s, After(files, s, [Unlock(id)]), id, s.tables, err)
  {
    RunsCons(files, s, Unlock(id), []);
    assert [Unlock(id)] + [] == [Unlock(id)];
  }

  lemma {:induction false} WalkIsRun(files: seq<string>, i: nat, f: Faults, s: State, id: nat)
    requires i <= |files| && s.holder == Instance(id) && PcOf(s, id) == Checking(i)
    ensures var acts := WalkSteps(files, i, f, s.tables, id);
            var (t, err) := Walk(files, i, f, s.tables);
            Runs(files, s, acts) && EndsAs(s, After(files, s, acts), id, t, err)
    decreases |files| - i
  {
    var t := s.tables;
    if i == |files| {
      LastSteps(files, Step(files, s, Check(id, false)), id, false);
      RunsCons(files, s, Check(id, false), [Unlock(id)]);
      assert [Check(id, false)] + [Unlock(id)] == [Check(id, false), Unlock(id)];
    } else if f.check(i) {
      LastSteps(files, Step(files, s, Check(id, true)), id, true);
      RunsCons(files, s, Check(id, true), [Unlock(id)]);
      assert [Check(id, true)] + [Unlock(id)] == [Check(id, true), Unlock(id)];
    } else if files[i] in t.recorded {
      WalkIsRun(files, i + 1, f, Step(files, s, Check(id, false)), id);
      RunsCons(files, s, Check(id, false), WalkSteps(files, i + 1, f, t, id));
    } else {
      PendingIsRun(files, i, f, s, id);
    }
  }

  lemma {:induction false} PendingIsRun(files: seq<string>, i: nat, f: Faults, s: State, id: nat)
    requires i < |files| && s.holder == Instance(id) && PcOf(s, id) == Checking(i)
    requires !f.check(i) && files[i] !in s.tables.recorded
    ensures var acts := WalkSteps(files, i, f, s.tables, id);
            var (t, err) := Walk(files, i, f, s.tables);
            Runs(files, s, acts) && EndsAs(s, After(files, s, acts), id, t, err)
    decreases |files| - i, 0
  {
    var check, apply, record := Check(id, false), Apply(id, f.apply(i)), Record(id, f.record(i));
    var s1 := Step(files, s, check);
    var s2 := Step(files, s1, apply);
    if f.apply(i) != Good {
      LastSteps(files, s2, id, true);
      RunsTwo(files, s, check, apply, [Unlock(id)]);
    } else {
      var s3 := Step(files, s2, record);
      if f.record(i) != Good {
        LastSteps(files, s3, id, true);
        RunsThree(files, s, check, apply, record, [Unlock(id)]);
      } else {
        WalkIsRun(files, i + 1, f, s3, id);
        RunsThree(files, s, check, apply, record, WalkSteps(files, i + 1, f, s3.tables, id));
      }
    }
  }

  /** The method's walk, taken by an instance that nobody disturbs, is a run of the protocol. */
  lemma {:induction false} MigrateIsRun(files: seq<string>, f: Faults, s: State, id: nat) returns (acts: seq<Action>)
    requires s.holder == Nobody && PcOf(s, id) == Start && !f.lock && !f.prepare
    ensures var (t, err) := Walk(files, 0, f, s.tables);
            Runs(files, s, acts) && EndsAs(s, After(files, s, acts), id, t, err)
  {
    var s1 := Step(files, s, Acquire(id));
    var s2 := Step(files, s1, Prepare(id, false));
    var rest := WalkSteps(files, 0, f, s.tables, id);
    WalkIsRun(files, 0, f, s2, id);
    RunsCons(files, s1, Prepare(id, false), rest);
    RunsCons(files, s, Acquire(id), [Prepare(id, false)] + rest);
    acts := [Acquire(id)] + ([Prepare(id, false)] + rest);
  }

  // ---------------------------------------------------------------- progress

  ghost predicate Undisturbed(f: Faults) {
    forall i: nat :: !f.check(i) && f.apply(i) == Good && f.record(i) == Good
  }

  /** A walk without faults ends with all migrations recorded and applies exactly the pending ones, once. */
  lemma {:induction false} WalkCompletes(files: seq<string>, i: nat, f: Faults, t: Tables)
    requires Distinct(files) && Undisturbed(f) && i <= |files|
    requires forall j :: 0 <= j < i ==> files[j] in t.recorded
    ensures var (u, err) := Walk(files, i, f, t);
            && !err && u.stops == t.stops
            && u.recorded == t.recorded + Names(files[i..])
            && u.applied == t.applied + multiset(Names(files[i..]) - t.recorded)
    decreases |files| - i
  {
    if i < |files| {
      var tail := files[i + 1..];
      var rest, all := Names(tail), Names(files[i..]);
      assert files[i..] == [files[i]] + tail;
      assert all == {files[i]} + rest;
      if files[i] in t.recorded {
        WalkCompletes(files, i + 1, f, t);
        assert all - t.recorded == rest - t.recorded;
      } else {
        var next := Recorded(Applied(t, files[i], Good), files[i], Good);
        WalkCompletes(files, i + 1, f, next);
        forall v | v in tail ensures v != files[i] {
          var k :| 0 <= k < |tail| && tail[k] == v;
          assert files[i + 1 + k] == v;
        }
        assert rest - next.recorded == rest - t.recorded;
        assert all - t.recorded == {files[i]} + (rest - t.recorded);
        assert multiset({files[i]} + (rest - t.recorded)) == multiset{files[i]} + multiset(rest - t.recorded);
      }
    }
  }
}
