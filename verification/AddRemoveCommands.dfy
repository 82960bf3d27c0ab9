/** Add and remove as the program runs them, under the lock, on the store. */
module AddRemoveCommands {
  import opened Basics
  import opened Rosters
  import Spans
  import opened SlotStore
  import opened StoreSteps
  import opened MoveSwap
  import opened AddRemove
  import Commands = MoveSwapCommands

  method DeleteAndDrop(s: Store, k: Key, after: Roster) returns (ok: bool)
    modifies s
    ensures Done(ok, s.W()) == Exec(old(s.W()), Retire(k) + [CommitTo(after)])
  {
    ok := Commands.PerformUntilError(s, Retire(k) + [CommitTo(after)]);
  }

  /** Writes the new material and commits the record that names it. */
  method InstallAccount(s: Store, k: Key, m: Material, after: Roster) returns (ok: bool)
    modifies s
    ensures Done(ok, s.W()) == Exec(old(s.W()), [SetCreds(k, m.creds), SetConfig(k, m.config), CommitTo(after)])
  {
    ok := Commands.PerformUntilError(s, [SetCreds(k, m.creds), SetConfig(k, m.config), CommitTo(after)]);
  }

  /** Clears the target slot and the identity's old slot, each with a commit of its own, and installs. */
  method PlaceAccount(s: Store, p: Spans.AddPlan, m: Material) returns (ok: bool)
    requires p.Place?
    modifies s
    ensures Done(ok, s.W()) == Exec(old(s.W()), AddSteps(old(s.roster), p, m))
  {
    var r := s.roster;
    ghost var w := s.W();
    ghost var first := if p.displaced.Some?
      then Retire(Key(p.displaced.value.slot, p.displaced.value.email)) + [CommitTo(Spans.AfterDisplace(r, p))] else [];
    ghost var second := if p.migrated.Some? && p.migrated.value in r.accounts
      then Retire(KeyOf(r, p.migrated.value)) + [CommitTo(Spans.AfterMigrate(r, p))] else [];
    ghost var third := [SetCreds(Key(p.slot, p.rec.email), m.creds), SetConfig(Key(p.slot, p.rec.email), m.config),
                        CommitTo(Spans.AfterInstall(r, p))];
    assert AddSteps(r, p, m) == (first + second) + third;
    ExecAppend(w, first + second, third);
    ExecAppend(w, first, second);
    ok := true;
    if p.displaced.Some? {
      ok := DeleteAndDrop(s, Key(p.displaced.value.slot, p.displaced.value.email), Spans.AfterDisplace(r, p));
    }
    assert Done(ok, s.W()) == Exec(w, first);
    if ok && p.migrated.Some? && p.migrated.value in r.accounts {
      ok := DeleteAndDrop(s, Key(p.migrated.value, r.accounts[p.migrated.value].email), Spans.AfterMigrate(r, p));
    }
    assert Done(ok, s.W()) == Exec(w, first + second);
    if ok {
      ok := InstallAccount(s, Key(p.slot, p.rec.email), m, Spans.AfterInstall(r, p));
    }
  }

  /** `cswap add`, given what the live login is and what the user confirmed. */
  method AddAccount(s: Store, slot: Option<Slot>, login: Spans.Login, alias: Option<string>,
                    confirmed: Option<Spans.Occupant>, assumeYes: bool, m: Material) returns (ok: bool)
    modifies s
    ensures Done(ok, s.W()) == AddRun(old(s.W()), Spans.PlanAdd(old(s.roster), slot, login, alias, confirmed, assumeYes), m)
  {
    ok := RunPlan(s, Spans.PlanAdd(s.roster, slot, login, alias, confirmed, assumeYes), m);
  }

  /** `cswap add-token`. */
  method AddAccountFromToken(s: Store, slot: Option<Slot>, email: string, apiKey: bool,
                             confirmed: Option<Spans.Occupant>, assumeYes: bool, m: Material) returns (ok: bool)
    modifies s
    ensures Done(ok, s.W()) == AddRun(old(s.W()), Spans.PlanToken(old(s.roster), slot, email, apiKey, confirmed, assumeYes), m)
  {
    ok := RunPlan(s, Spans.PlanToken(s.roster, slot, email, apiKey, confirmed, assumeYes), m);
  }

  method RunPlan(s: Store, p: Spans.AddPlan, m: Material) returns (ok: bool)
    modifies s
    ensures Done(ok, s.W()) == AddRun(old(s.W()), p, m)
  {
    ok := false;
    if m.creds == "" { return; }
    match p {
      case Refuse =>
      case Refresh(n, refreshed) =>
        if n in s.roster.accounts {
          ok := InstallAccount(s, Key(n, s.roster.accounts[n].email), m, refreshed);
        }
      case Place(_, _, _, _, _) => ok := PlaceAccount(s, p, m);
    }
  }

  /** `cswap remove`, given the account the user agreed to remove. */
  method RemoveAccount(s: Store, shown: Spans.Occupant) returns (ok: bool)
    modifies s
    ensures Done(ok, s.W()) == RemoveRun(old(s.W()), shown)
  {
    if shown.slot !in s.roster.accounts {
      // Retired by somebody else, unless the account has only moved.
      return Spans.RemoveSpan(s.roster, shown).Commit?;
    }
    if s.roster.accounts[shown.slot].email != shown.email || s.roster.accounts[shown.slot].org != shown.org { return false; }
    var after := DropSlot(s.roster, shown.slot);
    ok := Commands.PerformUntilError(s, [Guard] + Retire(Key(shown.slot, shown.email)) + [CommitTo(after)]);
  }
}
