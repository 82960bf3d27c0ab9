/** The move and swap commands as the program runs them: in place, on the store. */
module MoveSwapCommands {
  import opened Basics
  import opened Rosters
  import Spans
  import opened SlotStore
  import opened StoreSteps
  import opened MoveSwap
  import opened MoveTheorems

  method Perform(s: Store, step: Step) returns (ok: bool)
    requires step.Stage? ==> step.name !in s.staging
    modifies s
    ensures Done(ok, s.W()) == Apply(old(s.W()), step)
  {
    match step {
      case SetCreds(k, c) => ok := s.PutOrClearCreds(k, c);
      case SetConfig(k, c) => ok := s.PutOrClearConfig(k, c);
      case SweepCreds(k) => var _ := s.DeleteCreds(k); ok := true;
      case Stage(n, c) => ok := s.CreateStage(n, c);
      case Unstage(n) => ok := s.RemoveStage(n);
      case CommitTo(r) => ok := s.WriteSequence(r);
      case Guard => ok := s.EnsureNoLiveSession();
    }
  }

  /** Runs the steps in order and stops at the first error. */
  method PerformUntilError(s: Store, steps: seq<Step>) returns (ok: bool)
    requires forall i :: 0 <= i < |steps| ==> !steps[i].Stage?
    modifies s
    ensures Done(ok, s.W()) == Exec(old(s.W()), steps)
  {
    ok := true;
    var i := 0;
    while ok && i < |steps|
      invariant 0 <= i <= |steps|
      invariant Exec(old(s.W()), steps) == if ok then Exec(s.W(), steps[i..]) else Done(false, s.W())
    {
      ok := Perform(s, steps[i]);
      i := i + 1;
    }
  }

  /** Runs every step and counts the errors. */
  method PerformAll(s: Store, steps: seq<Step>) returns (failures: nat)
    requires forall i :: 0 <= i < |steps| ==> !steps[i].Stage?
    modifies s
    ensures Tally(failures, s.W()) == ExecAll(old(s.W()), steps)
  {
    failures := 0;
    var i := 0;
    while i < |steps|
      invariant 0 <= i <= |steps|
      invariant ExecAll(old(s.W()), steps)
             == Tally(failures + ExecAll(s.W(), steps[i..]).failures, ExecAll(s.W(), steps[i..]).w)
    {
      var ok := Perform(s, steps[i]);
      if !ok { failures := failures + 1; }
      i := i + 1;
    }
  }

  method DiscardStaging(s: Store, names: seq<StageName>)
    modifies s
    ensures s.W() == Discard(old(s.W()), names)
  {
    var i := 0;
    while i < |names|
      invariant 0 <= i <= |names|
      invariant ExecAll(old(s.W()), Unstages(names)).w == ExecAll(s.W(), Unstages(names[i..])).w
    {
      assert Unstages(names[i..]) == [Unstage(names[i])] + Unstages(names[i + 1..]);
      ExecCons(s.W(), Unstage(names[i]), Unstages(names[i + 1..]));
      var _ := s.RemoveStage(names[i]);
      i := i + 1;
    }
  }

  /** Parks every non-empty item, or undoes what it parked and fails. */
  method StageOverlapMaterial(s: Store, items: seq<Item>) returns (ok: bool, names: seq<StageName>)
    modifies s
    ensures Staged(ok, names, s.W()) == StageAll(old(s.W()), items, [])
  {
    names := [];
    var i := 0;
    while i < |items|
      invariant 0 <= i <= |items|
      invariant StageAll(s.W(), items[i..], names) == StageAll(old(s.W()), items, [])
    {
      assert items[i..][1..] == items[i + 1..];
      if items[i].text != "" {
        if items[i].name in s.staging {
          DiscardStaging(s, names);
          return false, [];
        }
        var written := s.CreateStage(items[i].name, items[i].text);
        if !written {
          DiscardStaging(s, names);
          return false, [];
        }
        names := names + [items[i].name];
      }
      i := i + 1;
    }
    ok := true;
  }

  /** Puts both slots back under their old keys, and keeps the staged copies unless all of it worked. */
  method RollbackSwap(s: Store, p: Plan, names: seq<StageName>) returns (failures: nat)
    modifies s
    ensures Ended(false, failures, s.W()) == Rollback(old(s.W()), p, names)
  {
    var restored := PerformAll(s, Restores(p));
    var swept := PerformAll(s, Strays(p));
    failures := restored + swept;
    if names != [] && failures == 0 {
      DiscardStaging(s, names);
    }
  }

  /** The body of a swap, under the lock. */
  method SwapAccountsLocked(s: Store, a: Slot, b: Slot) returns (ok: bool, failures: nat)
    requires Swappable(s.W().disk, a, b)
    modifies s
    ensures Ended(ok, failures, s.W()) == Swap(old(s.W()), a, b)
  {
    var emailA, emailB := s.roster.accounts[a].email, s.roster.accounts[b].email;
    var p := Plan(a, b, emailA, emailB,
                  Material(s.ReadCreds(Key(a, emailA)), s.ReadConfig(Key(a, emailA))),
                  Material(s.ReadCreds(Key(b, emailB)), s.ReadConfig(Key(b, emailB))),
                  s.roster, Exchange(s.roster, a, b));
    ok := PerformUntilError(s, [Guard, Guard]);
    if !ok { return false, 0; }
    ok, failures := SwapBody(s, p);
  }

  method SwapBody(s: Store, p: Plan) returns (ok: bool, failures: nat)
    modifies s
    ensures Ended(ok, failures, s.W()) == SwapRun(old(s.W()), p)
  {
    ok, failures := true, 0;
    var names := [];
    if p.Overlap() {
      ok, names := StageOverlapMaterial(s, Items(p));
      if !ok { names := []; }
    }
    if ok { ok := PerformUntilError(s, Copies(p)); }
    if ok { ok := s.WriteSequence(p.after); }
    if !ok {
      failures := RollbackSwap(s, p, names);
      return;
    }
    if !p.Overlap() {
      var _ := PerformUntilError(s, Retire(p.OldA()));
      var _ := PerformUntilError(s, Retire(p.OldB()));
    }
    DiscardStaging(s, names);
  }

  method RelocateLocked(s: Store, src: Slot, target: Slot) returns (ok: bool, failures: nat)
    requires Movable(s.W().disk, src, target)
    modifies s
    ensures Ended(ok, failures, s.W()) == Relocate(old(s.W()), src, target)
  {
    var from := Key(src, s.roster.accounts[src].email);
    var to := Key(target, from.email);
    var m := Material(s.ReadCreds(from), s.ReadConfig(from));
    var after := Renumber(s.roster, src, target);
    failures := 0;
    ok := PerformUntilError(s, [Guard]);
    if !ok { return; }
    ok := PerformUntilError(s, MoveCopies(to, m));
    if ok { ok := s.WriteSequence(after); }
    if ok {
      var _ := PerformUntilError(s, Retire(from));
    } else {
      failures := PerformAll(s, [SweepCreds(to), SetConfig(to, "")]);
    }
  }

  /** `cswap swap <first> <second>`. */
  method SwapCommand(s: Store, first: Ident, second: Ident) returns (ok: bool, failures: nat)
    modifies s
    ensures Ended(ok, failures, s.W()) == SwapAccounts(old(s.W()), first, second)
    ensures CommitsSpan(old(s.roster), Ended(ok, failures, s.W()), Spans.SwapSpan(old(s.roster), first, second))
  {
    SwapCommitsItsSpan(s.W(), first, second);
    ok, failures := false, 0;
    var a := Resolve(s.roster, first);
    if !a.Found? { return; }
    var b := Resolve(s.roster, second);
    if !b.Found? || a.slot == b.slot { return; }
    if a.slot in s.roster.accounts && b.slot in s.roster.accounts {
      ok, failures := SwapAccountsLocked(s, a.slot, b.slot);
    }
  }

  /** `cswap move <account> <slot>`. */
  method MoveCommand(s: Store, id: Ident, target: Slot) returns (ok: bool, failures: nat)
    modifies s
    ensures Ended(ok, failures, s.W()) == MoveAccount(old(s.W()), id, target)
    ensures CommitsSpan(old(s.roster), Ended(ok, failures, s.W()), Spans.MoveSpan(old(s.roster), id, target))
  {
    MoveCommitsItsSpan(s.W(), id, target);
    ok, failures := false, 0;
    var src := Resolve(s.roster, id);
    if !src.Found? || !Spans.InRange(s.roster, target) || src.slot !in s.roster.accounts { return; }
    if src.slot == target { return true, 0; }
    if target in s.roster.accounts {
      ok, failures := SwapAccountsLocked(s, src.slot, target);
    } else {
      ok, failures := RelocateLocked(s, src.slot, target);
    }
  }
}
