/** The guarantees of a swap, for every script of failures. */
module SwapTheorems {
  import opened Basics
  import opened Rosters
  import opened SlotStore
  import opened StoreSteps
  import opened MoveSwap
  import opened SwapSafety
  import opened SwapRuns

  /** One of the two accounts: its keys before and after, and the names it may be parked under. */
  datatype Party = Party(was: Key, will: Key, credsName: StageName, configName: StageName, m: Material)

  function PartyOf(p: Plan, first: bool): Party {
    if first then Party(p.OldA(), p.NewA(), CredsOf(p.a), ConfigOf(p.a), p.ma)
    else Party(p.OldB(), p.NewB(), CredsOf(p.b), ConfigOf(p.b), p.mb)
  }

  ghost function CredsMidway(p: Plan, first: bool): Disk -> bool {
    var x := PartyOf(p, first);
    if p.Overlap() then ParkedAs(x.credsName, x.m.creds) else CredsAt(x.was, x.m.creds)
  }

  ghost function CredsHeld(p: Plan, first: bool): Disk -> bool {
    var x := PartyOf(p, first);
    Kept(x.was, x.will, x.credsName, x.m.creds)
  }

  lemma ItemsDistinct(p: Plan)
    requires p.a != p.b
    ensures DistinctNames(Items(p))
  {
  }

  lemma CredsParked(w: World, p: Plan, first: bool)
    requires p.a != p.b && StageAll(w, Items(p), []).ok
    ensures ParkedAs(PartyOf(p, first).credsName, PartyOf(p, first).m.creds)(StageAll(w, Items(p), []).w.disk)
  {
    ItemsDistinct(p);
    var i := if first then 0 else 2;
    if Items(p)[i].text != "" { StagingParks(w, Items(p), [], i); }
  }

  lemma RestoresAre(p: Plan, i: nat)
    requires i < |Restores(p)|
    ensures Restores(p)[i] in {SetCreds(p.OldA(), p.ma.creds), SetConfig(p.OldA(), p.ma.config),
                               SetCreds(p.OldB(), p.mb.creds), SetConfig(p.OldB(), p.mb.config)}
  {
  }

  lemma RestoresSpare(p: Plan, first: bool)
    requires p.a != p.b
    ensures SparesCreds(Restores(p), PartyOf(p, first).was, PartyOf(p, first).m.creds)
    ensures SparesStage(Restores(p), PartyOf(p, first).credsName)
  {
    forall i | 0 <= i < |Restores(p)|
      ensures !TouchesCreds(Restores(p)[i], PartyOf(p, first).was, PartyOf(p, first).m.creds)
      ensures !TouchesStage(Restores(p)[i], PartyOf(p, first).credsName)
    {
      RestoresAre(p, i);
    }
  }

  lemma PhasesSpareCreds(p: Plan, first: bool)
    requires p.a != p.b
    ensures AllKeep(CredsMidway(p, first), Copies(p))
    ensures AllKeep(CredsMidway(p, first), Restores(p))
    ensures AllKeep(CredsMidway(p, first), Strays(p))
    ensures AllKeep(CredsAt(PartyOf(p, first).was, PartyOf(p, first).m.creds), Restores(p))
    ensures AllKeep(CredsAt(PartyOf(p, first).was, PartyOf(p, first).m.creds), Strays(p))
  {
    var x := PartyOf(p, first);
    RestoresSpare(p, first);
    SparingCreds(Restores(p), x.was, x.m.creds);
    SparingCreds(Strays(p), x.was, x.m.creds);
    SparingStage(Restores(p), x.credsName, x.m.creds);
    SparingStage(Strays(p), x.credsName, x.m.creds);
    SparingStage(Copies(p), x.credsName, x.m.creds);
    if !p.Overlap() { SparingCreds(Copies(p), x.was, x.m.creds); }
  }

  lemma GuardsPass(w: World, n: nat, q: Disk -> bool)
    requires HeldSince(w, n, q)
    ensures HeldSince(Exec(w, [Guard, Guard]).w, n, q)
    ensures Exec(w, [Guard, Guard]).w.disk == w.disk
  {
    ExecHolds(w, [Guard, Guard], n, q);
    ExecHolds(w, [Guard, Guard], |w.seen|, (d: Disk) => d == w.disk);
  }

  /**
   Whatever fails, and wherever the process dies, the credential of each of the two accounts is
   under its old key, its new key, or in its own staging file.
   */
  lemma SwapNeverLosesCreds(w: World, a: Slot, b: Slot, first: bool)
    requires Swappable(w.disk, a, b)
    ensures AllSince(Swap(w, a, b).w, |w.seen|, CredsHeld(PlanOf(w.disk, a, b), first))
  {
    var p := PlanOf(w.disk, a, b);
    var x := PartyOf(p, first);
    var q := CredsAt(x.was, x.m.creds);
    var r := CredsHeld(p, first);
    var m := CredsMidway(p, first);
    GuardsPass(w, |w.seen|, q);
    var g := Exec(w, [Guard, Guard]);
    if g.ok {
      if p.Overlap() && StageAll(g.w, Items(p), []).ok { CredsParked(g.w, p, first); }
      PhasesSpareCreds(p, first);
      var f := CredsAt(x.will, x.m.creds);
      assert Carries(g.w, p, q, m);
      assert Completes(p, m, f);
      if SwapRun(g.w, p).ok {
        if !p.Overlap() {
          SparingCreds(Retire(p.OldA()), x.will, x.m.creds);
          SparingCreds(Retire(p.OldB()), x.will, x.m.creds);
        }
        RunOk(g.w, p, |w.seen|, q, m, f, r);
      } else {
        RunFails(g.w, p, |w.seen|, q, m, f, r);
      }
    }
  }

  // ---- configs ------------------------------------------------------------------------

  ghost function ConfigAt(k: Key, c: string): Disk -> bool {
    (d: Disk) => c != "" ==> Read(d.configs, k) == c
  }

  predicate ConfigKept(d: Disk, x: Party) {
    x.m.config != "" ==>
      || Read(d.configs, x.was) == x.m.config
      || Read(d.configs, x.will) == x.m.config
      || Parked(d, x.configName) == Some(x.m.config)
  }

  ghost function ConfigHeld(p: Plan, first: bool): Disk -> bool {
    (d: Disk) => ConfigKept(d, PartyOf(p, first))
  }

  ghost predicate SparesConfig(steps: seq<Step>, k: Key) {
    forall i :: 0 <= i < |steps| ==> !(steps[i].SetConfig? && steps[i].key == k)
  }

  lemma SparingConfig(steps: seq<Step>, k: Key, c: string)
    requires SparesConfig(steps, k)
    ensures AllKeep(ConfigAt(k, c), steps)
  {
  }

  lemma ConfigParked(w: World, p: Plan, first: bool)
    requires p.a != p.b && StageAll(w, Items(p), []).ok
    ensures ParkedAs(PartyOf(p, first).configName, PartyOf(p, first).m.config)(StageAll(w, Items(p), []).w.disk)
  {
    ItemsDistinct(p);
    var i := if first then 1 else 3;
    if Items(p)[i].text != "" { StagingParks(w, Items(p), [], i); }
  }

  /** A swap that reports success kept both configs somewhere at every moment. */
  lemma SuccessfulSwapKeepsConfigs(w: World, a: Slot, b: Slot, first: bool)
    requires Swappable(w.disk, a, b) && Swap(w, a, b).ok
    ensures AllSince(Swap(w, a, b).w, |w.seen|, ConfigHeld(PlanOf(w.disk, a, b), first))
  {
    var p := PlanOf(w.disk, a, b);
    var x := PartyOf(p, first);
    var q, f := ConfigAt(x.was, x.m.config), ConfigAt(x.will, x.m.config);
    var m := if p.Overlap() then ParkedAs(x.configName, x.m.config) else q;
    GuardsPass(w, |w.seen|, q);
    var g := Exec(w, [Guard, Guard]);
    if p.Overlap() {
      if StageAll(g.w, Items(p), []).ok { ConfigParked(g.w, p, first); }
      SparingStage(Copies(p), x.configName, x.m.config);
    } else {
      SparingConfig(Copies(p), x.was, x.m.config);
      SparingConfig(Retire(p.OldA()), x.will, x.m.config);
      SparingConfig(Retire(p.OldB()), x.will, x.m.config);
    }
    assert Carries(g.w, p, q, m);
    assert Completes(p, m, f);
    RunOk(g.w, p, |w.seen|, q, m, f, ConfigHeld(p, first));
  }

  // ---- the whole store seen through the roster ----------------------------------------

  /** The roster and everything filed under its keys is as in `d0`. */
  ghost function ServedAs(d0: Disk): Disk -> bool {
    (d: Disk) =>
      && d.roster == d0.roster
      && forall n | n in d0.roster.accounts :: MaterialAt(d, KeyOf(d0.roster, n)) == MaterialAt(d0, KeyOf(d0.roster, n))
  }

  /** The slots are exchanged, and every account has carried its material along. */
  ghost function ServedSwapped(d0: Disk, a: Slot, b: Slot): Disk -> bool
    requires Swappable(d0, a, b)
  {
    (d: Disk) =>
      && d.roster == Exchange(d0.roster, a, b)
      && forall n | n in d0.roster.accounts ::
           MaterialAt(d, Key(SwapSlot(n, a, b), d0.roster.accounts[n].email)) == MaterialAt(d0, KeyOf(d0.roster, n))
  }

  /** The accounts that take no part in the swap are as in `d0`. */
  ghost function OthersServed(d0: Disk, a: Slot, b: Slot): Disk -> bool {
    (d: Disk) =>
      && d.roster == d0.roster
      && forall n | n in d0.roster.accounts && n != a && n != b ::
           MaterialAt(d, KeyOf(d0.roster, n)) == MaterialAt(d0, KeyOf(d0.roster, n))
  }

  /** The step writes, at most, backups under slots `a` and `b`. */
  predicate Confined(step: Step, a: Slot, b: Slot) {
    match step
    case SetCreds(k, _) => k.slot == a || k.slot == b
    case SetConfig(k, _) => k.slot == a || k.slot == b
    case SweepCreds(k) => k.slot == a || k.slot == b
    case CommitTo(_) => false
    case _ => true
  }

  ghost predicate AllConfined(steps: seq<Step>, a: Slot, b: Slot) {
    forall i :: 0 <= i < |steps| ==> Confined(steps[i], a, b)
  }

  lemma ConfinedSparesOthers(steps: seq<Step>, d0: Disk, a: Slot, b: Slot)
    requires AllConfined(steps, a, b)
    ensures AllKeep(OthersServed(d0, a, b), steps)
  {
    forall i | 0 <= i < |steps| ensures Keeps(OthersServed(d0, a, b), steps[i]) {
      assert Confined(steps[i], a, b);
    }
  }

  lemma CompletesSwap(d0: Disk, a: Slot, b: Slot)
    requires Swappable(d0, a, b)
    ensures Completes(PlanOf(d0, a, b), OthersServed(d0, a, b), ServedSwapped(d0, a, b))
  {
  }

  lemma StepSparesSwapped(d0: Disk, a: Slot, b: Slot, step: Step)
    requires Swappable(d0, a, b) && !step.CommitTo?
    requires forall n :: n in d0.roster.accounts ==> Avoids(step, Key(SwapSlot(n, a, b), d0.roster.accounts[n].email))
    ensures Keeps(ServedSwapped(d0, a, b), step)
  {
    forall d: Disk, s: Disk | ServedSwapped(d0, a, b)(d) && Hop(d, step, s) ensures ServedSwapped(d0, a, b)(s) {
      forall n | n in d0.roster.accounts
        ensures MaterialAt(s, Key(SwapSlot(n, a, b), d0.roster.accounts[n].email)) == MaterialAt(d0, KeyOf(d0.roster, n))
      {
        var k := Key(SwapSlot(n, a, b), d0.roster.accounts[n].email);
        assert Avoids(step, k);
        HopAvoids(d, step, s, k);
      }
    }
  }

  lemma RetireSparesSwapped(d0: Disk, a: Slot, b: Slot, k: Key)
    requires Swappable(d0, a, b)
    requires forall n :: n in d0.roster.accounts ==> Key(SwapSlot(n, a, b), d0.roster.accounts[n].email) != k
    ensures AllKeep(ServedSwapped(d0, a, b), Retire(k))
  {
    forall i | 0 <= i < |Retire(k)| ensures Keeps(ServedSwapped(d0, a, b), Retire(k)[i]) {
      StepSparesSwapped(d0, a, b, Retire(k)[i]);
    }
  }

  /**
   A swap that reports success is a pure renumbering: every account keeps its record, its
   credential and its config under its new number, and nobody else is touched.
   */
  lemma SwapRenumbers(w: World, a: Slot, b: Slot)
    requires Swappable(w.disk, a, b) && Swap(w, a, b).ok
    ensures ServedSwapped(w.disk, a, b)(Swap(w, a, b).w.disk)
  {
    var p := PlanOf(w.disk, a, b);
    var q, f := OthersServed(w.disk, a, b), ServedSwapped(w.disk, a, b);
    GuardsPass(w, |w.seen|, q);
    var g := Exec(w, [Guard, Guard]);
    if p.Overlap() {
      StagingHolds(g.w, Items(p), [], |g.w.seen|, q);
    } else {
      RetireSparesSwapped(w.disk, a, b, p.OldA());
      RetireSparesSwapped(w.disk, a, b, p.OldB());
    }
    ConfinedSparesOthers(Copies(p), w.disk, a, b);
    CompletesSwap(w.disk, a, b);
    RunOk(g.w, p, |w.seen|, q, q, f, (d: Disk) => true);
  }

  // ---- failure ----------------------------------------------------------------------------

  lemma StoppedHolds(w: World, p: Plan, m: Disk -> bool)
    requires p.a != p.b && m(w.disk) && StagingBlind(m) && AllKeep(m, Copies(p)) && !SwapRun(w, p).ok
    ensures m(Stopped(w, p).disk)
  {
    if p.Overlap() { StagingHolds(w, Items(p), [], |w.seen|, m); }
    var st := AfterStaging(w, p);
    if st.ok { ExecHolds(st.w, Copies(p), |st.w.seen|, m); }
  }

  lemma RestoresConfined(p: Plan)
    ensures AllConfined(Restores(p), p.a, p.b) && AllConfined(Strays(p), p.a, p.b)
  {
    forall i | 0 <= i < |Restores(p)| ensures Confined(Restores(p)[i], p.a, p.b) { RestoresAre(p, i); }
  }

  lemma StepsAvoidingRoster(steps: seq<Step>, d0: Disk)
    requires forall i :: 0 <= i < |steps| ==> !steps[i].CommitTo?
    requires forall i, n :: 0 <= i < |steps| && n in d0.roster.accounts ==> Avoids(steps[i], KeyOf(d0.roster, n))
    ensures AllKeep(ServedAs(d0), steps)
  {
    forall i | 0 <= i < |steps| ensures Keeps(ServedAs(d0), steps[i]) {
      assert forall n :: n in d0.roster.accounts ==> Avoids(steps[i], KeyOf(d0.roster, n));
    }
  }

  /** With two emails, the new keys belong to no account of the old roster. */
  lemma NewKeysAreFree(d0: Disk, a: Slot, b: Slot)
    requires Swappable(d0, a, b) && !PlanOf(d0, a, b).Overlap()
    ensures AllKeep(ServedAs(d0), Copies(PlanOf(d0, a, b)))
    ensures AllKeep(ServedAs(d0), Strays(PlanOf(d0, a, b)))
  {
    StepsAvoidingRoster(Copies(PlanOf(d0, a, b)), d0);
    StepsAvoidingRoster(Strays(PlanOf(d0, a, b)), d0);
  }

  lemma RollbackKeepsRoster(w: World, d0: Disk, a: Slot, b: Slot, names: seq<StageName>)
    requires Swappable(d0, a, b) && OthersServed(d0, a, b)(w.disk)
    ensures OthersServed(d0, a, b)(Rollback(w, PlanOf(d0, a, b), names).w.disk)
  {
    var p := PlanOf(d0, a, b);
    var o := OthersServed(d0, a, b);
    RestoresConfined(p);
    ConfinedSparesOthers(Restores(p), d0, a, b);
    ConfinedSparesOthers(Strays(p), d0, a, b);
    ExecAllHolds(w, Restores(p), |w.seen|, o);
    var t := ExecAll(w, Restores(p)).w;
    ExecAllHolds(t, Strays(p), |t.seen|, o);
    var u := ExecAll(t, Strays(p)).w;
    DiscardHolds(u, names, |u.seen|, o);
  }

  lemma UndoneIsServed(d: Disk, s: Disk, d0: Disk, a: Slot, b: Slot)
    requires Swappable(d0, a, b) && OthersServed(d0, a, b)(d)
    requires PutsBoth(d, s, PlanOf(d0, a, b).OldA(), PlanOf(d0, a, b).ma, PlanOf(d0, a, b).OldB(), PlanOf(d0, a, b).mb)
    ensures ServedAs(d0)(s)
  {
  }

  lemma ServedOldKeys(d: Disk, d0: Disk, a: Slot, b: Slot)
    requires Swappable(d0, a, b) && ServedAs(d0)(d)
    ensures MaterialAt(d, PlanOf(d0, a, b).OldA()) == PlanOf(d0, a, b).ma
    ensures MaterialAt(d, PlanOf(d0, a, b).OldB()) == PlanOf(d0, a, b).mb
  {
    assert PlanOf(d0, a, b).OldA() == KeyOf(d0.roster, a) && PlanOf(d0, a, b).OldB() == KeyOf(d0.roster, b);
  }

  lemma RestoresAllLand(w: World, p: Plan)
    requires ExecAll(w, Restores(p)).failures == 0
    ensures ExecAll(w, Restores(p)).w.disk == Outcome(w.disk, Restores(p))
  {
    forall i | 0 <= i < |Restores(p)| ensures !Restores(p)[i].SweepCreds? { RestoresAre(p, i); }
    ExecAllLands(w, Restores(p));
  }

  lemma UndoingServes(d: Disk, d0: Disk, a: Slot, b: Slot)
    requires Swappable(d0, a, b) && OthersServed(d0, a, b)(d)
    requires PlanOf(d0, a, b).Overlap() || ServedAs(d0)(d)
    ensures ServedAs(d0)(Outcome(d, Restores(PlanOf(d0, a, b))))
  {
    if !PlanOf(d0, a, b).Overlap() { ServedOldKeys(d, d0, a, b); }
    RestoresLand(d, PlanOf(d0, a, b));
    UndoneIsServed(d, Outcome(d, Restores(PlanOf(d0, a, b))), d0, a, b);
  }

  lemma RestoresServe(w: World, d0: Disk, a: Slot, b: Slot)
    requires Swappable(d0, a, b) && OthersServed(d0, a, b)(w.disk)
    requires PlanOf(d0, a, b).Overlap() || ServedAs(d0)(w.disk)
    requires ExecAll(w, Restores(PlanOf(d0, a, b))).failures == 0
    ensures ServedAs(d0)(ExecAll(w, Restores(PlanOf(d0, a, b))).w.disk)
  {
    RestoresAllLand(w, PlanOf(d0, a, b));
    UndoingServes(w.disk, d0, a, b);
  }

  lemma ServedIsBlind(d0: Disk)
    ensures StagingBlind(ServedAs(d0))
  {
  }

  lemma RollbackRestores(w: World, d0: Disk, a: Slot, b: Slot, names: seq<StageName>)
    requires Swappable(d0, a, b) && OthersServed(d0, a, b)(w.disk)
    requires PlanOf(d0, a, b).Overlap() || ServedAs(d0)(w.disk)
    requires Rollback(w, PlanOf(d0, a, b), names).failures == 0
    ensures ServedAs(d0)(Rollback(w, PlanOf(d0, a, b), names).w.disk)
  {
    var p := PlanOf(d0, a, b);
    RestoresServe(w, d0, a, b);
    var t := ExecAll(w, Restores(p)).w;
    if !p.Overlap() { NewKeysAreFree(d0, a, b); }
    var q := ServedAs(d0);
    ExecAllHolds(t, Strays(p), |t.seen|, q);
    var u := ExecAll(t, Strays(p)).w;
    ServedIsBlind(d0);
    DiscardHolds(u, names, |u.seen|, q);
  }

  lemma FailedRunStops(w: World, p: Plan)
    requires !SwapRun(w, p).ok
    ensures var st := AfterStaging(w, p);
            SwapRun(w, p) == Rollback(Stopped(w, p), p, if st.ok then st.names else [])
  {
  }

  lemma StoppedServes(w: World, d0: Disk, a: Slot, b: Slot)
    requires Swappable(d0, a, b) && w.disk == d0 && !SwapRun(w, PlanOf(d0, a, b)).ok
    ensures OthersServed(d0, a, b)(Stopped(w, PlanOf(d0, a, b)).disk)
    ensures PlanOf(d0, a, b).Overlap() || ServedAs(d0)(Stopped(w, PlanOf(d0, a, b)).disk)
  {
    var p := PlanOf(d0, a, b);
    ConfinedSparesOthers(Copies(p), d0, a, b);
    StoppedHolds(w, p, OthersServed(d0, a, b));
    if !p.Overlap() {
      NewKeysAreFree(d0, a, b);
      ServedIsBlind(d0);
      StoppedHolds(w, p, ServedAs(d0));
    }
  }

  lemma FailedRunRestores(w: World, d0: Disk, a: Slot, b: Slot)
    requires Swappable(d0, a, b) && w.disk == d0 && !SwapRun(w, PlanOf(d0, a, b)).ok
    ensures SwapRun(w, PlanOf(d0, a, b)).w.disk.roster == d0.roster
    ensures SwapRun(w, PlanOf(d0, a, b)).failures == 0 ==> ServedAs(d0)(SwapRun(w, PlanOf(d0, a, b)).w.disk)
  {
    var p := PlanOf(d0, a, b);
    var names := if AfterStaging(w, p).ok then AfterStaging(w, p).names else [];
    FailedRunStops(w, p);
    StoppedServes(w, d0, a, b);
    RollbackKeepsRoster(Stopped(w, p), d0, a, b, names);
    if SwapRun(w, p).failures == 0 { RollbackRestores(Stopped(w, p), d0, a, b, names); }
  }

  /**
   A swap that reports an error leaves the roster as it was, and if no rollback step failed,
   every account of the roster reads its original credential and config.
   */
  lemma SwapFailureRestores(w: World, a: Slot, b: Slot)
    requires Swappable(w.disk, a, b) && !Swap(w, a, b).ok
    ensures Swap(w, a, b).w.disk.roster == w.disk.roster
    ensures Swap(w, a, b).failures == 0 ==> ServedAs(w.disk)(Swap(w, a, b).w.disk)
  {
    GuardsPass(w, |w.seen|, ServedAs(w.disk));
    var g := Exec(w, [Guard, Guard]);
    if g.ok { FailedRunRestores(g.w, w.disk, a, b); }
  }

  // ---- service without a gap -----------------------------------------------------------------

  /** Every account of the roster in force reads the credential it had before. */
  ghost function CredsServed(d0: Disk): Disk -> bool {
    (d: Disk) =>
      && d.roster == d0.roster
      && forall n | n in d0.roster.accounts ::
           Read(d.creds, KeyOf(d0.roster, n)) == Read(d0.creds, KeyOf(d0.roster, n))
  }

  ghost function CredsServedSwapped(d0: Disk, a: Slot, b: Slot): Disk -> bool
    requires Swappable(d0, a, b)
  {
    (d: Disk) =>
      && d.roster == Exchange(d0.roster, a, b)
      && forall n | n in d0.roster.accounts ::
           Read(d.creds, Key(SwapSlot(n, a, b), d0.roster.accounts[n].email)) == Read(d0.creds, KeyOf(d0.roster, n))
  }

  ghost function CredsServedEither(d0: Disk, a: Slot, b: Slot): Disk -> bool
    requires Swappable(d0, a, b)
  {
    (d: Disk) => CredsServed(d0)(d) || CredsServedSwapped(d0, a, b)(d)
  }

  /** Writing back the text a key already has, or writing no account's key, changes no service. */
  predicate Harmless(step: Step, k: Key, c: string) {
    !step.CommitTo? && !TouchesCreds(step, k, c) && (step.SetCreds? && step.key == k ==> c != "")
  }

  lemma HarmlessKeepsService(steps: seq<Step>, d0: Disk)
    requires forall i, n :: 0 <= i < |steps| && n in d0.roster.accounts ==>
               Harmless(steps[i], KeyOf(d0.roster, n), Read(d0.creds, KeyOf(d0.roster, n)))
    requires forall i :: 0 <= i < |steps| ==> !steps[i].CommitTo?
    ensures AllKeep(CredsServed(d0), steps)
  {
    forall i | 0 <= i < |steps| ensures Keeps(CredsServed(d0), steps[i]) {
      assert forall n :: n in d0.roster.accounts ==>
          Harmless(steps[i], KeyOf(d0.roster, n), Read(d0.creds, KeyOf(d0.roster, n)));
    }
  }

  lemma StepKeepsService(d0: Disk, a: Slot, b: Slot, step: Step)
    requires Swappable(d0, a, b) && !step.CommitTo?
    requires forall n :: n in d0.roster.accounts ==> Avoids(step, Key(SwapSlot(n, a, b), d0.roster.accounts[n].email))
    ensures Keeps(CredsServedSwapped(d0, a, b), step)
  {
  }

  lemma RetireKeepsService(d0: Disk, a: Slot, b: Slot, k: Key)
    requires Swappable(d0, a, b)
    requires forall n :: n in d0.roster.accounts ==> Key(SwapSlot(n, a, b), d0.roster.accounts[n].email) != k
    ensures AllKeep(CredsServedSwapped(d0, a, b), Retire(k))
  {
    forall i | 0 <= i < |Retire(k)| ensures Keeps(CredsServedSwapped(d0, a, b), Retire(k)[i]) {
      StepKeepsService(d0, a, b, Retire(k)[i]);
    }
  }

  lemma RestoresHarmless(d0: Disk, a: Slot, b: Slot, i: nat, n: Slot)
    requires Swappable(d0, a, b) && !PlanOf(d0, a, b).Overlap()
    requires i < |Restores(PlanOf(d0, a, b))| && n in d0.roster.accounts
    ensures Harmless(Restores(PlanOf(d0, a, b))[i], KeyOf(d0.roster, n), Read(d0.creds, KeyOf(d0.roster, n)))
  {
    var p := PlanOf(d0, a, b);
    RestoresAre(p, i);
    RestoresNonEmpty(p, i);
    OldKeysRead(d0, a, b, n);
  }

  lemma RestoresNonEmpty(p: Plan, i: nat)
    requires !p.Overlap() && i < |Restores(p)|
    ensures (Restores(p)[i].SetCreds? || Restores(p)[i].SetConfig?) && Restores(p)[i].text != ""
  {
  }

  /** What the plan puts back under an old key is what that key's account reads. */
  lemma OldKeysRead(d0: Disk, a: Slot, b: Slot, n: Slot)
    requires Swappable(d0, a, b) && n in d0.roster.accounts
    ensures var p := PlanOf(d0, a, b);
            && (KeyOf(d0.roster, n) == p.OldA() ==> Read(d0.creds, KeyOf(d0.roster, n)) == p.ma.creds)
            && (KeyOf(d0.roster, n) == p.OldB() ==> Read(d0.creds, KeyOf(d0.roster, n)) == p.mb.creds)
  {
  }

  /** The steps of a swap between two emails change no account's service before the commit. */
  lemma PhasesKeepService(d0: Disk, a: Slot, b: Slot)
    requires Swappable(d0, a, b) && !PlanOf(d0, a, b).Overlap()
    ensures AllKeep(CredsServed(d0), Copies(PlanOf(d0, a, b)))
    ensures AllKeep(CredsServed(d0), Restores(PlanOf(d0, a, b)))
    ensures AllKeep(CredsServed(d0), Strays(PlanOf(d0, a, b)))
  {
    var p := PlanOf(d0, a, b);
    forall i, n | 0 <= i < |Restores(p)| && n in d0.roster.accounts
      ensures Harmless(Restores(p)[i], KeyOf(d0.roster, n), Read(d0.creds, KeyOf(d0.roster, n)))
    {
      RestoresHarmless(d0, a, b, i, n);
    }
    HarmlessKeepsService(Restores(p), d0);
    NewKeysHarmless(d0, a, b);
  }

  lemma NewKeysHarmless(d0: Disk, a: Slot, b: Slot)
    requires Swappable(d0, a, b) && !PlanOf(d0, a, b).Overlap()
    ensures AllKeep(CredsServed(d0), Copies(PlanOf(d0, a, b)))
    ensures AllKeep(CredsServed(d0), Strays(PlanOf(d0, a, b)))
  {
    HarmlessKeepsService(Copies(PlanOf(d0, a, b)), d0);
    HarmlessKeepsService(Strays(PlanOf(d0, a, b)), d0);
  }

  lemma CommitSwitchesService(d0: Disk, a: Slot, b: Slot)
    requires Swappable(d0, a, b)
    ensures Completes(PlanOf(d0, a, b), CredsServed(d0), CredsServedSwapped(d0, a, b))
  {
    var p := PlanOf(d0, a, b);
    forall d: Disk, s: Disk | CredsServed(d0)(d) && PutsBoth(d, s, p.NewA(), p.ma, p.NewB(), p.mb)
      ensures CredsServedSwapped(d0, a, b)(s.(roster := p.after))
    {
      forall n | n in d0.roster.accounts
        ensures Read(s.creds, Key(SwapSlot(n, a, b), d0.roster.accounts[n].email)) == Read(d0.creds, KeyOf(d0.roster, n))
      {
        var k := Key(SwapSlot(n, a, b), d0.roster.accounts[n].email);
        assert MaterialAt(s, k).creds == if k == p.NewA() then p.ma.creds else if k == p.NewB() then p.mb.creds
                                         else MaterialAt(d, k).creds;
      }
    }
  }

  /**
   When the two accounts have different emails, no moment of a swap is without service: whatever
   roster is on disk, every account it names reads the credential it had before the swap.
   */
  lemma SwapServesThroughout(w: World, a: Slot, b: Slot)
    requires Swappable(w.disk, a, b) && !PlanOf(w.disk, a, b).Overlap()
    ensures AllSince(Swap(w, a, b).w, |w.seen|, CredsServedEither(w.disk, a, b))
  {
    var p := PlanOf(w.disk, a, b);
    var q, f, r := CredsServed(w.disk), CredsServedSwapped(w.disk, a, b), CredsServedEither(w.disk, a, b);
    GuardsPass(w, |w.seen|, q);
    CommitSwitchesService(w.disk, a, b);
    PhasesKeepService(w.disk, a, b);
    var g := Exec(w, [Guard, Guard]);
    if g.ok {
      if SwapRun(g.w, p).ok {
        RetireKeepsService(w.disk, a, b, p.OldA());
        RetireKeepsService(w.disk, a, b, p.OldB());
        RunOk(g.w, p, |w.seen|, q, q, f, r);
      } else {
        RunFails(g.w, p, |w.seen|, q, q, f, r);
      }
    }
  }
}
