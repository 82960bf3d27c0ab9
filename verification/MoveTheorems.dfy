/** The guarantees of moving an account into an empty slot, and how both commands meet the roster model. */
module MoveTheorems {
  import opened Basics
  import opened Rosters
  import Spans
  import opened SlotStore
  import opened StoreSteps
  import opened MoveSwap
  import opened SwapSafety
  import opened SwapRuns
  import opened SwapTheorems
  import opened SwapRetries

  /** The account has moved and carried its material along; everyone else is as in `d0`. */
  ghost function ServedMoved(d0: Disk, src: Slot, target: Slot): Disk -> bool
    requires Movable(d0, src, target)
  {
    (d: Disk) =>
      && d.roster == Renumber(d0.roster, src, target)
      && forall n | n in d0.roster.accounts ::
           MaterialAt(d, Key(RenumberSlot(n, src, target), d0.roster.accounts[n].email)) == MaterialAt(d0, KeyOf(d0.roster, n))
  }

  ghost function ServedEither(d0: Disk, src: Slot, target: Slot): Disk -> bool
    requires Movable(d0, src, target)
  {
    (d: Disk) => ServedAs(d0)(d) || ServedMoved(d0, src, target)(d)
  }

  lemma TargetKeyIsFree(d0: Disk, src: Slot, target: Slot, steps: seq<Step>)
    requires Movable(d0, src, target)
    requires forall i :: 0 <= i < |steps| ==>
               (steps[i].SetCreds? || steps[i].SetConfig? || steps[i].SweepCreds?) && steps[i].key.slot == target
    ensures AllKeep(ServedAs(d0), steps)
  {
    StepsAvoidingRoster(steps, d0);
  }

  lemma StepKeepsMoved(d0: Disk, src: Slot, target: Slot, step: Step)
    requires Movable(d0, src, target) && !step.CommitTo?
    requires forall n :: n in d0.roster.accounts ==>
               Avoids(step, Key(RenumberSlot(n, src, target), d0.roster.accounts[n].email))
    ensures Keeps(ServedMoved(d0, src, target), step)
  {
  }

  lemma RetireKeepsMoved(d0: Disk, src: Slot, target: Slot)
    requires Movable(d0, src, target)
    ensures AllKeep(ServedMoved(d0, src, target), Retire(KeyOf(d0.roster, src)))
  {
    var k := KeyOf(d0.roster, src);
    forall i | 0 <= i < |Retire(k)| ensures Keeps(ServedMoved(d0, src, target), Retire(k)[i]) {
      StepKeepsMoved(d0, src, target, Retire(k)[i]);
    }
  }

  lemma CopiesMove(d: Disk, d0: Disk, src: Slot, target: Slot)
    requires Movable(d0, src, target) && ServedAs(d0)(d)
    ensures var k := Key(target, d0.roster.accounts[src].email);
            ServedMoved(d0, src, target)(Outcome(d, MoveCopies(k, MaterialAt(d0, KeyOf(d0.roster, src))))
                                           .(roster := Renumber(d0.roster, src, target)))
  {
    PairLands(d, Key(target, d0.roster.accounts[src].email), MaterialAt(d0, KeyOf(d0.roster, src)));
  }

  /**
   No moment of a move is without service, for credentials and configs alike. Success is a pure
   renumbering; an error leaves every account as it was.
   */
  lemma MoveServesThroughout(w: World, src: Slot, target: Slot)
    requires Movable(w.disk, src, target)
    ensures AllSince(Relocate(w, src, target).w, |w.seen|, ServedEither(w.disk, src, target))
    ensures var e := Relocate(w, src, target);
            if e.ok then ServedMoved(w.disk, src, target)(e.w.disk) else ServedAs(w.disk)(e.w.disk)
  {
    var d0 := w.disk;
    var r := ServedEither(d0, src, target);
    assert Implies(ServedAs(d0), r);
    ExecStretch(w, [Guard], |w.seen|, ServedAs(d0), r);
    ExecHolds(w, [Guard], |w.seen|, (d: Disk) => d == d0);
    var g := Exec(w, [Guard]);
    if g.ok { GuardedMoveServes(w, g.w, src, target); }
  }

  ghost predicate MoveServed(d0: Disk, n: nat, e: Ended, src: Slot, target: Slot)
    requires Movable(d0, src, target)
  {
    && AllSince(e.w, n, ServedEither(d0, src, target))
    && if e.ok then ServedMoved(d0, src, target)(e.w.disk) else ServedAs(d0)(e.w.disk)
  }

  /** From the guard on. */
  lemma GuardedMoveServes(w: World, g: World, src: Slot, target: Slot)
    requires Movable(w.disk, src, target) && Exec(w, [Guard]) == Done(true, g) && g.disk == w.disk
    requires AllSince(g, |w.seen|, ServedEither(w.disk, src, target))
    ensures MoveServed(w.disk, |w.seen|, Relocate(w, src, target), src, target)
  {
    var d0, n := w.disk, |w.seen|;
    var q, r := ServedAs(d0), ServedEither(d0, src, target);
    assert Implies(q, r);
    var from := KeyOf(d0.roster, src);
    var to := Key(target, from.email);
    var copies := MoveCopies(to, MaterialAt(d0, from));
    TargetKeyIsFree(d0, src, target, copies);
    ExecStretch(g, copies, n, q, r);
    var d := Exec(g, copies);
    if d.ok {
      ExecLands(g, copies);
      CopiesMove(g.disk, d0, src, target);
      CopiedMoveServes(d0, n, d.w, src, target);
    } else {
      UndoneMoveServes(d0, n, d.w, src, target);
    }
  }

  /** The commit, and what follows it. */
  lemma CopiedMoveServes(d0: Disk, n: nat, d: World, src: Slot, target: Slot)
    requires Movable(d0, src, target) && ServedAs(d0)(d.disk)
    requires ServedMoved(d0, src, target)(d.disk.(roster := Renumber(d0.roster, src, target)))
    requires AllSince(d, n, ServedEither(d0, src, target))
    ensures var c := Apply(d, CommitTo(Renumber(d0.roster, src, target)));
            var t := ExecAll(c.w, Undo(d0, src, target));
            MoveServed(d0, n, if c.ok then Ended(true, 0, Exec(c.w, Retire(KeyOf(d0.roster, src))).w)
                              else Ended(false, t.failures, t.w), src, target)
  {
    var q, f, r := ServedAs(d0), ServedMoved(d0, src, target), ServedEither(d0, src, target);
    assert Implies(q, r) && Implies(f, r);
    var c := Apply(d, CommitTo(Renumber(d0.roster, src, target)));
    CommitStretch(d, Renumber(d0.roster, src, target), n, q, f, r);
    if c.ok {
      RetireKeepsMoved(d0, src, target);
      ExecStretch(c.w, Retire(KeyOf(d0.roster, src)), n, f, r);
    } else {
      UndoneMoveServes(d0, n, c.w, src, target);
    }
  }

  function Undo(d0: Disk, src: Slot, target: Slot): seq<Step>
    requires Movable(d0, src, target)
  {
    var to := Key(target, d0.roster.accounts[src].email);
    [SweepCreds(to), SetConfig(to, "")]
  }

  lemma UndoneMoveServes(d0: Disk, n: nat, w: World, src: Slot, target: Slot)
    requires Movable(d0, src, target) && ServedAs(d0)(w.disk)
    requires AllSince(w, n, ServedEither(d0, src, target))
    ensures var t := ExecAll(w, Undo(d0, src, target));
            MoveServed(d0, n, Ended(false, t.failures, t.w), src, target)
  {
    var q, r := ServedAs(d0), ServedEither(d0, src, target);
    assert Implies(q, r);
    TargetKeyIsFree(d0, src, target, Undo(d0, src, target));
    ExecStretch(w, Undo(d0, src, target), n, q, r);
  }

  // ---- the commands ---------------------------------------------------------------------

  /** `swap`: resolve both names, then exchange the slots. */
  function SwapAccounts(w: World, first: Ident, second: Ident): Ended {
    match (Resolve(w.disk.roster, first), Resolve(w.disk.roster, second))
    case (Found(a), Found(b)) => if Swappable(w.disk, a, b) then Swap(w, a, b) else Ended(false, 0, w)
    case _ => Ended(false, 0, w)
  }

  /** `move`: into an empty slot, or a swap with whoever is in it. */
  function MoveAccount(w: World, id: Ident, target: Slot): Ended {
    match Resolve(w.disk.roster, id)
    case Found(src) =>
      if !Spans.InRange(w.disk.roster, target) || src !in w.disk.roster.accounts then Ended(false, 0, w)
      else if src == target then Ended(true, 0, w)
      else if target in w.disk.roster.accounts then Swap(w, src, target)
      else Relocate(w, src, target)
    case _ => Ended(false, 0, w)
  }

  /** Success commits what the roster model says; an error commits nothing. */
  predicate CommitsSpan(before: Roster, e: Ended, s: Spans.Span) {
    if e.ok then s.Commit? && e.w.disk.roster == (if s.rosters == [] then before else s.rosters[|s.rosters| - 1])
    else e.w.disk.roster == before
  }

  lemma SwapRoster(w: World, a: Slot, b: Slot)
    requires Swappable(w.disk, a, b)
    ensures var e := Swap(w, a, b);
            e.w.disk.roster == if e.ok then Exchange(w.disk.roster, a, b) else w.disk.roster
  {
    if Swap(w, a, b).ok { SwapRenumbers(w, a, b); } else { SwapFailureRestores(w, a, b); }
  }

  lemma RelocateRoster(w: World, src: Slot, target: Slot)
    requires Movable(w.disk, src, target)
    ensures var e := Relocate(w, src, target);
            e.w.disk.roster == if e.ok then Renumber(w.disk.roster, src, target) else w.disk.roster
  {
    MoveServesThroughout(w, src, target);
  }

  lemma SwapCommitsItsSpan(w: World, first: Ident, second: Ident)
    ensures CommitsSpan(w.disk.roster, SwapAccounts(w, first, second), Spans.SwapSpan(w.disk.roster, first, second))
  {
    var a, b := Resolve(w.disk.roster, first), Resolve(w.disk.roster, second);
    if a.Found? && b.Found? && Swappable(w.disk, a.slot, b.slot) {
      SwapRoster(w, a.slot, b.slot);
    }
  }

  lemma MoveCommitsItsSpan(w: World, id: Ident, target: Slot)
    ensures CommitsSpan(w.disk.roster, MoveAccount(w, id, target), Spans.MoveSpan(w.disk.roster, id, target))
  {
    var r := Resolve(w.disk.roster, id);
    if r.Found? && r.slot in w.disk.roster.accounts && r.slot != target {
      if target in w.disk.roster.accounts {
        SwapRoster(w, r.slot, target);
      } else {
        RelocateRoster(w, r.slot, target);
      }
    }
  }
}
