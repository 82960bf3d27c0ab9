/**
 Sequences of store steps: a run of writes that stops at the first failure, and a best-effort
 run that counts failures. What a single step can do to the disk (`Hop`) is enough to show that
 a property survives a whole run in every state it passes through.
 */
module StoreSteps {
  import opened Basics
  import opened Rosters
  import opened SlotStore

  datatype Step =
    | SetCreds(key: Key, text: string)
    | SetConfig(key: Key, text: string)
    | SweepCreds(key: Key)
    | Stage(name: StageName, text: string)
    | Unstage(name: StageName)
    | CommitTo(roster: Roster)
    | Guard

  function Apply(w: World, step: Step): Done {
    match step
    case SetCreds(k, c) => WriteOrClearCreds(w, k, c)
    case SetConfig(k, c) => WriteOrClearConfig(w, k, c)
    case SweepCreds(k) => Done(true, DropCreds(w, k).w)
    case Stage(n, c) => PutStage(w, n, c)
    case Unstage(n) => DropStage(w, n)
    case CommitTo(r) => CommitRoster(w, r)
    case Guard => GuardSession(w)
  }

  /** Runs the steps up to and including the first that fails. */
  function Exec(w: World, steps: seq<Step>): Done
    decreases |steps|
  {
    if steps == [] then Done(true, w)
    else
      var d := Apply(w, steps[0]);
      if d.ok then Exec(d.w, steps[1..]) else d
  }

  datatype Tally = Tally(failures: nat, w: World)

  /** Runs every step, whatever fails, and counts the failures. */
  function ExecAll(w: World, steps: seq<Step>): Tally
    decreases |steps|
  {
    if steps == [] then Tally(0, w)
    else
      var d := Apply(w, steps[0]);
      var t := ExecAll(d.w, steps[1..]);
      Tally((if d.ok then 0 else 1) + t.failures, t.w)
  }

  lemma ExecCons(w: World, step: Step, rest: seq<Step>)
    ensures Exec(w, [step] + rest) == if Apply(w, step).ok then Exec(Apply(w, step).w, rest) else Apply(w, step)
    ensures ExecAll(w, [step] + rest)
         == Tally((if Apply(w, step).ok then 0 else 1) + ExecAll(Apply(w, step).w, rest).failures,
                  ExecAll(Apply(w, step).w, rest).w)
  {
    assert ([step] + rest)[1..] == rest;
  }

  // ---- what one step may do -------------------------------------------------------

  function Parked(d: Disk, name: StageName): Option<string> {
    if name in d.staging then Some(d.staging[name]) else None
  }

  ghost predicate SameCredsBut(s: Disk, d: Disk, k: Key) {
    s == d.(creds := s.creds) && forall x :: x != k ==> Read(s.creds, x) == Read(d.creds, x)
  }

  ghost predicate SameConfigsBut(s: Disk, d: Disk, k: Key) {
    s == d.(configs := s.configs) && forall x :: x != k ==> Read(s.configs, x) == Read(d.configs, x)
  }

  ghost predicate SameStagingBut(s: Disk, d: Disk, name: StageName) {
    s == d.(staging := s.staging) && forall x :: x != name ==> Parked(s, x) == Parked(d, x)
  }

  /** Every state a step may put on disk, started from `d`, finished or not. */
  ghost predicate Hop(d: Disk, step: Step, s: Disk) {
    match step
    case SetCreds(k, c) =>
      && SameCredsBut(s, d, k)
      && (c != "" ==> Read(s.creds, k) == c || Read(s.creds, k) == Read(d.creds, k))
    case SetConfig(k, _) => SameConfigsBut(s, d, k)
    case SweepCreds(k) => SameCredsBut(s, d, k)
    case Stage(n, _) => SameStagingBut(s, d, n)
    case Unstage(n) => SameStagingBut(s, d, n)
    case CommitTo(r) => s == d || s == d.(roster := r)
    case Guard => s == d
  }

  /** The disk after a step that reports success. */
  function Effect(d: Disk, step: Step): Disk {
    match step
    case SetCreds(k, c) => d.(creds := if c != "" then d.creds[k := c] else d.creds - {k})
    case SetConfig(k, c) => d.(configs := if c != "" then d.configs[k := c] else d.configs - {k})
    case SweepCreds(k) => d.(creds := d.creds - {k})
    case Stage(n, c) => d.(staging := d.staging[n := c])
    case Unstage(n) => d.(staging := d.staging - {n})
    case CommitTo(r) => d.(roster := r)
    case Guard => d
  }

  function Outcome(d: Disk, steps: seq<Step>): Disk
    decreases |steps|
  {
    if steps == [] then d else Outcome(Effect(d, steps[0]), steps[1..])
  }

  function StatesOf(w: World, step: Step): seq<Disk> {
    var torn := Draw(w).junk;
    var end := Apply(w, step).w.disk;
    if !Draw(w).ok then [end]
    else if step.SetConfig? && step.text != "" then [w.disk.(configs := w.disk.configs[step.key := torn]), end]
    else if step.Stage? then [w.disk.(staging := w.disk.staging[step.name := torn]), end]
    else [end]
  }

  lemma ApplyGoesThrough(w: World, step: Step)
    ensures Apply(w, step).w == Through(w, StatesOf(w, step))
  {
  }

  lemma EndIsHop(w: World, step: Step)
    ensures Hop(w.disk, step, Apply(w, step).w.disk)
  {
  }

  lemma StatesAreHops(w: World, step: Step)
    ensures forall s :: s in StatesOf(w, step) ==> Hop(w.disk, step, s)
  {
    EndIsHop(w, step);
  }

  lemma ApplyGrowsHistory(w: World, step: Step)
    ensures w.seen < Apply(w, step).w.seen
    ensures forall s :: s in Apply(w, step).w.seen[|w.seen|..] ==> Hop(w.disk, step, s)
    ensures Hop(w.disk, step, Apply(w, step).w.disk)
  {
    ApplyGoesThrough(w, step);
    StatesAreHops(w, step);
    EndIsHop(w, step);
    assert Apply(w, step).w.seen[|w.seen|..] == StatesOf(w, step);
  }

  lemma ApplyLands(w: World, step: Step)
    requires !step.SweepCreds? && Apply(w, step).ok
    ensures Apply(w, step).w.disk == Effect(w.disk, step)
  {
  }

  // ---- which step draws which fate --------------------------------------------------

  /** The fate that is drawn after `i` others. */
  function FateAt(fates: seq<Fate>, i: nat): Fate {
    if i < |fates| then fates[i] else SMOOTH
  }

  /** The script once `n` fates are drawn. */
  function Later(fates: seq<Fate>, n: nat): seq<Fate> {
    if n <= |fates| then fates[n..] else []
  }

  lemma LaterOn(fates: seq<Fate>, n: nat, m: nat)
    ensures Later(Later(fates, n), m) == Later(fates, n + m)
    ensures FateAt(Later(fates, n), m) == FateAt(fates, n + m)
  {
  }

  lemma ApplyDraws(w: World, step: Step)
    ensures Apply(w, step).w.fates == Later(w.fates, 1)
    ensures Apply(w, step).ok <==> step.SweepCreds? || FateAt(w.fates, 0).ok
    ensures FateAt(w.fates, 0).ok ==> Apply(w, step).w.disk == Effect(w.disk, step)
  {
  }

  /** A run that goes through draws one fate a step. */
  lemma {:induction false} ExecDraws(w: World, steps: seq<Step>)
    requires Exec(w, steps).ok
    ensures Exec(w, steps).w.fates == Later(w.fates, |steps|)
    decreases |steps|
  {
    if steps != [] {
      ApplyDraws(w, steps[0]);
      ExecDraws(Apply(w, steps[0]).w, steps[1..]);
      LaterOn(w.fates, 1, |steps| - 1);
    }
  }

  /** Nothing fails. */
  ghost predicate Undisturbed(fates: seq<Fate>) {
    forall i :: 0 <= i < |fates| ==> fates[i].ok
  }

  lemma {:induction false} UndisturbedExec(w: World, steps: seq<Step>)
    requires Undisturbed(w.fates)
    ensures Exec(w, steps).ok && Exec(w, steps).w.disk == Outcome(w.disk, steps) && Undisturbed(Exec(w, steps).w.fates)
    decreases |steps|
  {
    if steps != [] {
      ApplyDraws(w, steps[0]);
      UndisturbedExec(Apply(w, steps[0]).w, steps[1..]);
    }
  }

  // ---- properties of every state ----------------------------------------------------

  /** `q` holds in every state since history was `n` long. */
  ghost predicate AllSince(w: World, n: nat, q: Disk -> bool) {
    n <= |w.seen| && forall i :: n <= i < |w.seen| ==> q(w.seen[i])
  }

  /** The same, and now. */
  ghost predicate HeldSince(w: World, n: nat, p: Disk -> bool) {
    AllSince(w, n, p) && p(w.disk)
  }

  ghost predicate Implies(p: Disk -> bool, q: Disk -> bool) {
    forall d :: p(d) ==> q(d)
  }

  /** A stretch of history in which `p` held extends one in which the weaker `q` did. */
  lemma Extend(w: World, v: World, n: nat, p: Disk -> bool, q: Disk -> bool)
    requires AllSince(w, n, q) && w.seen <= v.seen && AllSince(v, |w.seen|, p) && Implies(p, q)
    ensures AllSince(v, n, q)
  {
    forall i | n <= i < |v.seen| ensures q(v.seen[i]) {
      if i < |w.seen| { assert v.seen[i] == w.seen[i]; }
    }
  }

  ghost predicate Keeps(p: Disk -> bool, step: Step) {
    forall d, s :: p(d) && Hop(d, step, s) ==> p(s)
  }

  ghost predicate AllKeep(p: Disk -> bool, steps: seq<Step>) {
    forall i :: 0 <= i < |steps| ==> Keeps(p, steps[i])
  }

  lemma ApplyHolds(w: World, step: Step, n: nat, p: Disk -> bool)
    requires HeldSince(w, n, p) && Keeps(p, step)
    ensures HeldSince(Apply(w, step).w, n, p)
  {
    ApplyGrowsHistory(w, step);
    var v := Apply(w, step).w;
    forall i | n <= i < |v.seen| ensures p(v.seen[i]) {
      if i < |w.seen| {
        assert v.seen[i] == w.seen[i];
      } else {
        assert v.seen[i] == v.seen[|w.seen|..][i - |w.seen|];
        assert Hop(w.disk, step, v.seen[i]);
      }
    }
  }

  lemma {:induction false} ExecHolds(w: World, steps: seq<Step>, n: nat, p: Disk -> bool)
    requires HeldSince(w, n, p) && AllKeep(p, steps)
    ensures HeldSince(Exec(w, steps).w, n, p)
    decreases |steps|
  {
    if steps != [] {
      assert Keeps(p, steps[0]);
      ApplyHolds(w, steps[0], n, p);
      assert AllKeep(p, steps[1..]) by {
        forall i | 0 <= i < |steps[1..]| ensures Keeps(p, steps[1..][i]) { assert steps[1..][i] == steps[i + 1]; }
      }
      ExecHolds(Apply(w, steps[0]).w, steps[1..], n, p);
    }
  }

  lemma {:induction false} ExecAllHolds(w: World, steps: seq<Step>, n: nat, p: Disk -> bool)
    requires HeldSince(w, n, p) && AllKeep(p, steps)
    ensures HeldSince(ExecAll(w, steps).w, n, p)
    decreases |steps|
  {
    if steps != [] {
      assert Keeps(p, steps[0]);
      ApplyHolds(w, steps[0], n, p);
      assert AllKeep(p, steps[1..]) by {
        forall i | 0 <= i < |steps[1..]| ensures Keeps(p, steps[1..][i]) { assert steps[1..][i] == steps[i + 1]; }
      }
      ExecAllHolds(Apply(w, steps[0]).w, steps[1..], n, p);
    }
  }

  /** The step leaves the key alone. */
  predicate Avoids(step: Step, k: Key) {
    (step.SetCreds? || step.SetConfig? || step.SweepCreds?) ==> step.key != k
  }

  lemma HopAvoids(d: Disk, step: Step, s: Disk, k: Key)
    requires Hop(d, step, s) && Avoids(step, k)
    ensures MaterialAt(s, k) == MaterialAt(d, k)
  {
  }

  ghost predicate AllAvoid(steps: seq<Step>, k: Key) {
    forall i :: 0 <= i < |steps| ==> Avoids(steps[i], k)
  }

  ghost function MaterialIs(k: Key, m: Material): Disk -> bool {
    (d: Disk) => MaterialAt(d, k) == m
  }

  /** What no step is about reads as before. */
  lemma ExecSpares(w: World, steps: seq<Step>, x: Key)
    requires AllAvoid(steps, x)
    ensures MaterialAt(Exec(w, steps).w.disk, x) == MaterialAt(w.disk, x)
  {
    var q := MaterialIs(x, MaterialAt(w.disk, x));
    forall i | 0 <= i < |steps| ensures Keeps(q, steps[i]) {
      forall d, s | q(d) && Hop(d, steps[i], s) ensures q(s) { HopAvoids(d, steps[i], s, x); }
    }
    ExecHolds(w, steps, |w.seen|, q);
  }

  lemma {:induction false} ExecAppend(w: World, a: seq<Step>, b: seq<Step>)
    ensures Exec(w, a + b) == if Exec(w, a).ok then Exec(Exec(w, a).w, b) else Exec(w, a)
    decreases |a|
  {
    if a == [] {
      assert a + b == b;
    } else {
      assert (a + b)[1..] == a[1..] + b;
      ExecAppend(Apply(w, a[0]).w, a[1..], b);
    }
  }

  ghost predicate NoSweeps(steps: seq<Step>) {
    forall i :: 0 <= i < |steps| ==> !steps[i].SweepCreds?
  }

  /** A run that reports success has had exactly its intended effect. */
  lemma {:induction false} ExecLands(w: World, steps: seq<Step>)
    requires NoSweeps(steps) && Exec(w, steps).ok
    ensures Exec(w, steps).w.disk == Outcome(w.disk, steps)
    decreases |steps|
  {
    if steps != [] {
      ApplyLands(w, steps[0]);
      ExecLands(Apply(w, steps[0]).w, steps[1..]);
    }
  }

  /** So has a best-effort run in which nothing failed. */
  lemma {:induction false} ExecAllLands(w: World, steps: seq<Step>)
    requires NoSweeps(steps) && ExecAll(w, steps).failures == 0
    ensures ExecAll(w, steps).w.disk == Outcome(w.disk, steps)
    decreases |steps|
  {
    if steps != [] {
      ApplyLands(w, steps[0]);
      ExecAllLands(Apply(w, steps[0]).w, steps[1..]);
    }
  }

  /** History only grows. */
  lemma {:induction false} ExecGrows(w: World, steps: seq<Step>)
    ensures w.seen <= Exec(w, steps).w.seen && w.seen <= ExecAll(w, steps).w.seen
    decreases |steps|
  {
    if steps != [] {
      ApplyGrowsHistory(w, steps[0]);
      ExecGrows(Apply(w, steps[0]).w, steps[1..]);
    }
  }
}
