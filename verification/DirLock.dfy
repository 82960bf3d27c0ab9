/**
 The timed directory lock that is shared with Claude Code: mkdir is the mutex, a holder's toucher
 keeps the directory's mtime current, and a waiter removes a directory it judges stale.

 Any number of processes on one clock. Every process is as slow as the bounds in `Delays` let it
 be; a run in which somebody dies leaves those bounds for that process.
 */
module DirLock {
  import opened Basics

  const STALENESS := 10.0
  const TOUCH_INTERVAL := 3.0
  /** How long a release waits for the toucher to stop. */
  const JOIN_BOUND := 1.0

  /**
   Upper bounds: `tick` on how late the toucher reads the clock, `apply` on how long its reading
   takes to reach the directory, `remove` on the removal after the join, `judge` on the time from
   a waiter's stat to its verdict.
   */
  datatype Delays = Delays(tick: real, apply: real, remove: real, judge: real)

  predicate Lively(d: Delays) {
    && d.tick >= 0.0 && d.apply >= 0.0 && d.remove >= 0.0 && d.judge >= 0.0
    && TOUCH_INTERVAL + d.tick + d.apply + d.apply + JOIN_BOUND + d.remove + d.judge <= STALENESS
  }

  /** `touched`: the clock reading that the directory last got from this holder; `pending`: one not applied yet. */
  datatype Phase =
    | Idle
    | Trying
    | Looked(mtime: real, at: real)
    | Removing
    | Holding(touched: real, pending: Option<real>)
    | Releasing(touched: real, pending: Option<real>, since: real)
    | Dead

  /** `dir`: the mtime of the lock directory, if it exists; `strays`: readings of touchers that outlived their handle. */
  datatype Sys = Sys(clock: real, dir: Option<real>, procs: map<nat, Phase>, strays: set<Stray>)

  datatype Stray = Stray(id: nat, reading: real)

  function At(s: Sys, p: nat): Phase {
    if p in s.procs then s.procs[p] else Idle
  }

  function Put(s: Sys, p: nat, f: Phase): Sys {
    s.(procs := s.procs[p := f])
  }

  predicate Holds(s: Sys, p: nat) {
    At(s, p).Holding? || At(s, p).Releasing?
  }

  // ---- steps --------------------------------------------------------------------------

  ghost predicate Begin(s: Sys, t: Sys, p: nat) {
    At(s, p).Idle? && t == Put(s, p, Trying)
  }

  /** mkdir succeeds only when there is no directory. */
  ghost predicate MakeDir(s: Sys, t: Sys, p: nat) {
    At(s, p).Trying? && s.dir.None? && t == Put(s, p, Holding(s.clock, None)).(dir := Some(s.clock))
  }

  ghost predicate Stat(s: Sys, t: Sys, p: nat) {
    At(s, p).Trying? && s.dir.Some? && t == Put(s, p, Looked(s.dir.value, s.clock))
  }

  /** The verdict: too old means a dead holder; otherwise back off and try again. */
  ghost predicate Judge(s: Sys, t: Sys, p: nat) {
    && At(s, p).Looked?
    && t == Put(s, p, if s.clock - At(s, p).mtime > STALENESS then Removing else Trying)
  }

  ghost predicate TakeOver(s: Sys, t: Sys, p: nat) {
    At(s, p).Removing? && t == Put(s, p, Trying).(dir := None)
  }

  ghost predicate TimeOut(s: Sys, t: Sys, p: nat) {
    At(s, p).Trying? && t == Put(s, p, Idle)
  }

  /** The toucher reads the clock; it may still do so once while the handle is being released. */
  ghost predicate ReadClock(s: Sys, t: Sys, p: nat) {
    && Holds(s, p) && At(s, p).pending.None?
    && t == Put(s, p, At(s, p).(pending := Some(s.clock)))
  }

  ghost predicate Touch(s: Sys, t: Sys, p: nat) {
    && Holds(s, p) && At(s, p).pending.Some?
    && t == Put(s, p, At(s, p).(pending := None, touched := At(s, p).pending.value))
              .(dir := if s.dir.Some? then At(s, p).pending else None)
  }

  ghost predicate StrayTouch(s: Sys, t: Sys, x: Stray) {
    x in s.strays && t == s.(strays := s.strays - {x}, dir := if s.dir.Some? then Some(x.reading) else None)
  }

  ghost predicate StartRelease(s: Sys, t: Sys, p: nat) {
    && At(s, p).Holding?
    && t == Put(s, p, Releasing(At(s, p).touched, At(s, p).pending, s.clock))
  }

  /** The directory goes once the toucher has stopped, or a second has passed; a late touch becomes a stray. */
  ghost predicate FinishRelease(s: Sys, t: Sys, p: nat, id: nat) {
    && At(s, p).Releasing?
    && (At(s, p).pending.Some? ==> s.clock >= At(s, p).since + JOIN_BOUND)
    && t == Put(s, p, Idle).(dir := None,
              strays := if At(s, p).pending.Some? then s.strays + {Stray(id, At(s, p).pending.value)} else s.strays)
  }

  ghost predicate Die(s: Sys, t: Sys, p: nat) {
    Holds(s, p) && t == Put(s, p, Dead)
  }

  /** Nobody is past a bound. */
  ghost predicate OnTime(d: Delays, s: Sys) {
    && (forall p: nat :: PhaseOnTime(d, s.clock, At(s, p)))
    && (forall x :: x in s.strays ==> s.clock <= x.reading + d.apply)
  }

  predicate PhaseOnTime(d: Delays, now: real, f: Phase) {
    match f
    case Looked(_, at) => now <= at + d.judge
    case Holding(touched, None) => now <= touched + TOUCH_INTERVAL + d.tick
    case Holding(_, Some(v)) => now <= v + d.apply
    case Releasing(_, pending, since) =>
      now <= since + JOIN_BOUND + d.remove && (pending.Some? ==> now <= pending.value + d.apply)
    case _ => true
  }

  ghost predicate Pass(d: Delays, s: Sys, t: Sys) {
    t.clock >= s.clock && t == s.(clock := t.clock) && OnTime(d, t)
  }

  ghost predicate Acts(s: Sys, t: Sys, p: nat) {
    || Begin(s, t, p) || MakeDir(s, t, p) || Stat(s, t, p) || Judge(s, t, p) || TakeOver(s, t, p) || TimeOut(s, t, p)
    || ReadClock(s, t, p) || Touch(s, t, p) || StartRelease(s, t, p) || Die(s, t, p)
    || (exists id :: FinishRelease(s, t, p, id))
  }

  ghost predicate Moves(d: Delays, s: Sys, t: Sys) {
    || Pass(d, s, t)
    || (exists p :: Acts(s, t, p))
    || (exists x :: StrayTouch(s, t, x))
  }

  ghost predicate Initial(s: Sys) {
    s.dir.None? && s.strays == {} && forall p: nat :: At(s, p).Idle?
  }

  ghost predicate Run(d: Delays, run: seq<Sys>) {
    && run != [] && Initial(run[0])
    && forall i, j :: 0 <= i < |run| && j == i + 1 && j < |run| ==> Moves(d, run[i], run[j])
  }

  ghost predicate Alive(s: Sys) {
    forall p: nat :: !At(s, p).Dead?
  }

  // ---- mutual exclusion -----------------------------------------------------------------

  /** The oldest an mtime can be while its holder lives. */
  function WorstAge(d: Delays): real {
    TOUCH_INTERVAL + d.tick + d.apply + d.apply + JOIN_BOUND + d.remove
  }

  predicate PhaseOk(d: Delays, now: real, f: Phase) {
    match f
    case Looked(mtime, at) => at <= now <= at + d.judge && at - mtime <= WorstAge(d)
    case Removing => false
    case Dead => false
    case Holding(touched, pending) =>
      && touched <= now <= touched + TOUCH_INTERVAL + d.tick + d.apply
      && (pending.None? ==> now <= touched + TOUCH_INTERVAL + d.tick)
      && (pending.Some? ==> touched <= pending.value <= now <= pending.value + d.apply
                            && pending.value <= touched + TOUCH_INTERVAL + d.tick)
    case Releasing(touched, pending, since) =>
      && touched <= now && since <= now <= since + JOIN_BOUND + d.remove
      && since <= touched + TOUCH_INTERVAL + d.tick + d.apply
      && (pending.Some? ==> touched <= pending.value <= now <= pending.value + d.apply)
    case _ => true
  }

  ghost predicate Good(d: Delays, s: Sys) {
    && (forall p: nat :: PhaseOk(d, s.clock, At(s, p)))
    && (forall p: nat, q: nat :: Holds(s, p) && Holds(s, q) ==> p == q)
    && (forall p: nat :: Holds(s, p) ==> s.dir.Some? && s.dir.value >= At(s, p).touched - d.apply)
    && (s.dir.Some? ==> exists p: nat :: Holds(s, p))
    && (forall x :: x in s.strays ==> x.reading <= s.clock <= x.reading + d.apply)
  }

  lemma HeldIsFresh(d: Delays, s: Sys, p: nat)
    requires Lively(d) && Good(d, s) && Holds(s, p)
    ensures s.dir.Some? && s.clock - s.dir.value <= WorstAge(d)
  {
    assert PhaseOk(d, s.clock, At(s, p));
  }

  lemma JudgeNeverRemoves(d: Delays, s: Sys, p: nat)
    requires Lively(d) && Good(d, s) && At(s, p).Looked?
    ensures s.clock - At(s, p).mtime <= STALENESS
  {
    assert PhaseOk(d, s.clock, At(s, p));
  }

  lemma TakeOverKeepsGood(d: Delays, s: Sys, t: Sys, p: nat)
    requires Lively(d) && Good(d, s) && (Judge(s, t, p) || TakeOver(s, t, p) || Begin(s, t, p) || TimeOut(s, t, p))
    ensures Good(d, t)
  {
    assert PhaseOk(d, s.clock, At(s, p));
    forall q: nat ensures At(t, q) == (if q == p then At(t, p) else At(s, q)) {}
    if At(s, p).Looked? { JudgeNeverRemoves(d, s, p); }
    forall q: nat ensures Holds(t, q) == Holds(s, q) {}
  }

  lemma StatKeepsGood(d: Delays, s: Sys, t: Sys, p: nat)
    requires Lively(d) && Good(d, s) && Stat(s, t, p)
    ensures Good(d, t)
  {
    var h: nat :| Holds(s, h);
    HeldIsFresh(d, s, h);
    forall q: nat ensures Holds(t, q) == Holds(s, q) && (q != p ==> At(t, q) == At(s, q)) {}
    assert Holds(t, h);
  }

  lemma MakeDirKeepsGood(d: Delays, s: Sys, t: Sys, p: nat)
    requires Lively(d) && Good(d, s) && MakeDir(s, t, p)
    ensures Good(d, t)
  {
    forall q: nat ensures Holds(t, q) == (q == p) && (q != p ==> At(t, q) == At(s, q)) {
      assert !Holds(s, q);
      assert q != p ==> At(t, q) == At(s, q);
    }
    assert Holds(t, p);
  }

  lemma TouchKeepsGood(d: Delays, s: Sys, t: Sys, p: nat)
    requires Lively(d) && Good(d, s) && (ReadClock(s, t, p) || Touch(s, t, p) || StartRelease(s, t, p))
    ensures Good(d, t)
  {
    assert PhaseOk(d, s.clock, At(s, p));
    forall q: nat ensures Holds(t, q) == Holds(s, q) && (q != p ==> At(t, q) == At(s, q)) {}
    assert PhaseOk(d, t.clock, At(t, p));
    assert Holds(t, p);
  }

  lemma StrayKeepsGood(d: Delays, s: Sys, t: Sys, x: Stray)
    requires Lively(d) && Good(d, s) && StrayTouch(s, t, x)
    ensures Good(d, t)
  {
    forall q: nat ensures At(t, q) == At(s, q) && Holds(t, q) == Holds(s, q) {}
    forall q: nat | Holds(t, q) ensures t.dir.Some? && t.dir.value >= At(t, q).touched - d.apply {
      assert PhaseOk(d, s.clock, At(s, q));
    }
    if s.dir.Some? {
      var h: nat :| Holds(s, h);
      assert Holds(t, h);
    }
  }

  lemma FinishKeepsGood(d: Delays, s: Sys, t: Sys, p: nat, id: nat)
    requires Lively(d) && Good(d, s) && FinishRelease(s, t, p, id)
    ensures Good(d, t)
  {
    assert Holds(s, p);
    assert PhaseOk(d, s.clock, At(s, p));
    forall q: nat ensures !Holds(t, q) && (q != p ==> At(t, q) == At(s, q)) {
      assert Holds(s, q) ==> q == p;
      assert q != p ==> At(t, q) == At(s, q);
    }
  }

  lemma PassKeepsGood(d: Delays, s: Sys, t: Sys)
    requires Lively(d) && Good(d, s) && Pass(d, s, t)
    ensures Good(d, t)
  {
    forall q: nat ensures At(t, q) == At(s, q) && PhaseOk(d, t.clock, At(t, q)) {
      assert PhaseOk(d, s.clock, At(s, q));
      assert PhaseOnTime(d, t.clock, At(t, q));
    }
    forall q: nat ensures Holds(t, q) == Holds(s, q) {}
    if s.dir.Some? {
      var h: nat :| Holds(s, h);
      assert Holds(t, h);
    }
  }

  lemma MoveKeepsGood(d: Delays, s: Sys, t: Sys)
    requires Lively(d) && Good(d, s) && Moves(d, s, t) && Alive(t)
    ensures Good(d, t)
  {
    if Pass(d, s, t) {
      PassKeepsGood(d, s, t);
    } else if exists p :: Acts(s, t, p) {
      var p :| Acts(s, t, p);
      assert Die(s, t, p) ==> At(t, p).Dead?;
      if MakeDir(s, t, p) {
        MakeDirKeepsGood(d, s, t, p);
      } else if Stat(s, t, p) {
        StatKeepsGood(d, s, t, p);
      } else if ReadClock(s, t, p) || Touch(s, t, p) || StartRelease(s, t, p) {
        TouchKeepsGood(d, s, t, p);
      } else if exists id :: FinishRelease(s, t, p, id) {
        var id :| FinishRelease(s, t, p, id);
        FinishKeepsGood(d, s, t, p, id);
      } else {
        TakeOverKeepsGood(d, s, t, p);
      }
    } else {
      var x :| StrayTouch(s, t, x);
      StrayKeepsGood(d, s, t, x);
    }
  }

  lemma {:induction false} RunIsGood(d: Delays, run: seq<Sys>, i: nat)
    requires Lively(d) && Run(d, run) && i < |run|
    requires forall k :: 0 <= k < |run| ==> Alive(run[k])
    ensures Good(d, run[i])
  {
    if i > 0 {
      RunIsGood(d, run, i - 1);
      assert Moves(d, run[i - 1], run[i]);
      MoveKeepsGood(d, run[i - 1], run[i]);
    }
  }

  /**
   If no holder dies and the bounds add up to no more than the staleness limit, then in every
   interleaving at most one process holds the lock, and no waiter ever reaches the takeover.
   */
  lemma MutualExclusion(d: Delays, run: seq<Sys>, i: nat, p: nat, q: nat)
    requires Lively(d) && Run(d, run) && i < |run|
    requires forall k :: 0 <= k < |run| ==> Alive(run[k])
    ensures Holds(run[i], p) && Holds(run[i], q) ==> p == q
    ensures !At(run[i], p).Removing?
  {
    RunIsGood(d, run, i);
    assert PhaseOk(d, run[i].clock, At(run[i], p));
  }

  // ---- a dead holder ------------------------------------------------------------------------

  /** Every process phase in a state of the schedule below. */
  function Scene(clock: real, dir: Option<real>, p0: Phase, p1: Phase, p2: Phase): Sys {
    Sys(clock, dir, map[0 := p0, 1 := p1, 2 := p2], {})
  }

  /** Process `p` goes to phase `f`, and the directory becomes `dir`. */
  lemma SceneStep(c: real, dir: Option<real>, p0: Phase, p1: Phase, p2: Phase, p: nat, f: Phase, after: Option<real>)
    requires p < 3
    ensures Put(Scene(c, dir, p0, p1, p2), p, f).(dir := after)
         == Scene(c, after, if p == 0 then f else p0, if p == 1 then f else p1, if p == 2 then f else p2)
    ensures At(Scene(c, dir, p0, p1, p2), p) == if p == 0 then p0 else if p == 1 then p1 else p2
  {
  }

  lemma Onward(d: Delays, run: seq<Sys>, t: Sys) returns (longer: seq<Sys>)
    requires Run(d, run) && Moves(d, run[|run| - 1], t)
    ensures Run(d, longer) && longer[|longer| - 1] == t
  {
    longer := run + [t];
  }

  lemma ActOnward(d: Delays, run: seq<Sys>, p: nat, t: Sys) returns (longer: seq<Sys>)
    requires Run(d, run)
    requires var s := run[|run| - 1];
             Begin(s, t, p) || MakeDir(s, t, p) || Stat(s, t, p) || Judge(s, t, p) || TakeOver(s, t, p) || Die(s, t, p)
    ensures Run(d, longer) && longer[|longer| - 1] == t
  {
    assert Acts(run[|run| - 1], t, p);
    longer := Onward(d, run, t);
  }

  lemma HolderDies(d: Delays) returns (run: seq<Sys>)
    ensures Run(d, run) && run[|run| - 1] == Scene(11.0, Some(0.0), Dead, Idle, Idle)
  {
    run := [Scene(0.0, None, Idle, Idle, Idle)];
    SceneStep(0.0, None, Idle, Idle, Idle, 0, Trying, None);
    run := ActOnward(d, run, 0, Scene(0.0, None, Trying, Idle, Idle));
    SceneStep(0.0, None, Trying, Idle, Idle, 0, Holding(0.0, None), Some(0.0));
    run := ActOnward(d, run, 0, Scene(0.0, Some(0.0), Holding(0.0, None), Idle, Idle));
    SceneStep(0.0, Some(0.0), Holding(0.0, None), Idle, Idle, 0, Dead, Some(0.0));
    run := ActOnward(d, run, 0, Scene(0.0, Some(0.0), Dead, Idle, Idle));
    assert Pass(d, Scene(0.0, Some(0.0), Dead, Idle, Idle), Scene(11.0, Some(0.0), Dead, Idle, Idle));
    run := Onward(d, run, Scene(11.0, Some(0.0), Dead, Idle, Idle));
  }

  const STALE := Looked(0.0, 11.0)
  const HELD := Holding(11.0, None)

  lemma BothLook(d: Delays, start: seq<Sys>) returns (run: seq<Sys>)
    requires Run(d, start) && start[|start| - 1] == Scene(11.0, Some(0.0), Dead, Idle, Idle)
    ensures Run(d, run) && run[|run| - 1] == Scene(11.0, Some(0.0), Dead, STALE, STALE)
  {
    SceneStep(11.0, Some(0.0), Dead, Idle, Idle, 1, Trying, Some(0.0));
    run := ActOnward(d, start, 1, Scene(11.0, Some(0.0), Dead, Trying, Idle));
    SceneStep(11.0, Some(0.0), Dead, Trying, Idle, 1, STALE, Some(0.0));
    run := ActOnward(d, run, 1, Scene(11.0, Some(0.0), Dead, STALE, Idle));
    SceneStep(11.0, Some(0.0), Dead, STALE, Idle, 2, Trying, Some(0.0));
    run := ActOnward(d, run, 2, Scene(11.0, Some(0.0), Dead, STALE, Trying));
    SceneStep(11.0, Some(0.0), Dead, STALE, Trying, 2, STALE, Some(0.0));
    run := ActOnward(d, run, 2, Scene(11.0, Some(0.0), Dead, STALE, STALE));
  }

  lemma BothJudge(d: Delays, start: seq<Sys>) returns (run: seq<Sys>)
    requires Run(d, start) && start[|start| - 1] == Scene(11.0, Some(0.0), Dead, STALE, STALE)
    ensures Run(d, run) && run[|run| - 1] == Scene(11.0, None, Dead, Trying, Removing)
  {
    SceneStep(11.0, Some(0.0), Dead, STALE, STALE, 1, Removing, Some(0.0));
    run := ActOnward(d, start, 1, Scene(11.0, Some(0.0), Dead, Removing, STALE));
    SceneStep(11.0, Some(0.0), Dead, Removing, STALE, 2, Removing, Some(0.0));
    run := ActOnward(d, run, 2, Scene(11.0, Some(0.0), Dead, Removing, Removing));
    SceneStep(11.0, Some(0.0), Dead, Removing, Removing, 1, Trying, None);
    run := ActOnward(d, run, 1, Scene(11.0, None, Dead, Trying, Removing));
  }

  lemma BothTake(d: Delays, start: seq<Sys>) returns (run: seq<Sys>)
    requires Run(d, start) && start[|start| - 1] == Scene(11.0, None, Dead, Trying, Removing)
    ensures Run(d, run) && run[|run| - 1] == Scene(11.0, Some(11.0), Dead, HELD, HELD)
  {
    SceneStep(11.0, None, Dead, Trying, Removing, 1, HELD, Some(11.0));
    run := ActOnward(d, start, 1, Scene(11.0, Some(11.0), Dead, HELD, Removing));
    SceneStep(11.0, Some(11.0), Dead, HELD, Removing, 2, Trying, None);
    run := ActOnward(d, run, 2, Scene(11.0, None, Dead, HELD, Trying));
    SceneStep(11.0, None, Dead, HELD, Trying, 2, HELD, Some(11.0));
    run := ActOnward(d, run, 2, Scene(11.0, Some(11.0), Dead, HELD, HELD));
  }

  /**
   Without the liveness assumption the lock is not exclusive, however fast everybody else is: 0
   takes the lock and dies; 1 and 2 both find it stale; each removes a directory and makes its own.
   */
  lemma DeadHolderBreaksExclusion(d: Delays) returns (run: seq<Sys>)
    requires d.judge >= 0.0
    ensures Run(d, run) && Holds(run[|run| - 1], 1) && Holds(run[|run| - 1], 2)
  {
    run := HolderDies(d);
    run := BothLook(d, run);
    run := BothJudge(d, run);
    run := BothTake(d, run);
    SceneStep(11.0, Some(11.0), Dead, HELD, HELD, 1, Idle, None);
    SceneStep(11.0, Some(11.0), Dead, HELD, HELD, 2, Idle, None);
  }

  // ---- handing over -----------------------------------------------------------------------

  /** A live holder, with a reading pending or not, can let the lock go, and a waiter can take it then. */
  lemma LockIsHandedOver(d: Delays, s: Sys, p: nat, q: nat) returns (run: seq<Sys>)
    requires Holds(s, p) && At(s, q).Trying? && s.dir.Some?
    ensures |run| > 1 && run[0] == s && (forall i, j :: 0 <= i < |run| && j == i + 1 && j < |run| ==> Moves(d, run[i], run[j]))
    ensures At(run[|run| - 1], q).Holding? && At(run[|run| - 1], p).Idle? && run[|run| - 1].clock == s.clock
  {
    var f := At(s, p);
    var touched := if f.pending.Some? then Put(s, p, f.(pending := None, touched := f.pending.value)).(dir := f.pending) else s;
    assert f.pending.Some? ==> Touch(s, touched, p) && Acts(s, touched, p);
    var g := At(touched, p);
    var leaving := if g.Holding? then Put(touched, p, Releasing(g.touched, g.pending, s.clock)) else touched;
    assert g.Holding? ==> StartRelease(touched, leaving, p) && Acts(touched, leaving, p);
    var free := Put(leaving, p, Idle).(dir := None);
    assert FinishRelease(leaving, free, p, 0) && Acts(leaving, free, p);
    var taken := Put(free, q, Holding(s.clock, None)).(dir := Some(s.clock));
    assert MakeDir(free, taken, q) && Acts(free, taken, q);
    assert Moves(d, leaving, free) && Moves(d, free, taken);
    run := (if f.pending.Some? then [s] else []) + (if g.Holding? then [touched] else []) + [leaving, free, taken];
  }
}
