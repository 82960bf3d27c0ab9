/**
 Adding and removing accounts on the store: which files each span deletes and writes, in order.
 Neither has a rollback; what they promise is about everybody else.
 */
module AddRemove {
  import opened Basics
  import opened Rosters
  import Spans
  import opened SlotStore
  import opened StoreSteps
  import opened MoveSwap
  import opened SwapRuns
  import opened Retiring

  function DisplaceSteps(r: Roster, p: Spans.AddPlan): seq<Step>
    requires p.Place?
  {
    if p.displaced.Some?
    then Retire(Key(p.displaced.value.slot, p.displaced.value.email)) + [CommitTo(Spans.AfterDisplace(r, p))] else []
  }

  function MigrateSteps(r: Roster, p: Spans.AddPlan): seq<Step>
    requires p.Place?
  {
    if p.migrated.Some? && p.migrated.value in r.accounts
    then Retire(KeyOf(r, p.migrated.value)) + [CommitTo(Spans.AfterMigrate(r, p))] else []
  }

  function InstallSteps(r: Roster, p: Spans.AddPlan, m: Material): seq<Step>
    requires p.Place?
  {
    var k := Key(p.slot, p.rec.email);
    [SetCreds(k, m.creds), SetConfig(k, m.config), CommitTo(Spans.AfterInstall(r, p))]
  }

  /** The occupant of the target slot goes first, then the identity's old slot, then the new material and record. */
  function AddSteps(r: Roster, p: Spans.AddPlan, m: Material): seq<Step>
    requires p.Place?
  {
    DisplaceSteps(r, p) + MigrateSteps(r, p) + InstallSteps(r, p, m)
  }

  /** The new material is in memory, and not empty, before anything is destroyed. */
  function AddRun(w: World, p: Spans.AddPlan, m: Material): Done {
    if m.creds == "" then Done(false, w)
    else
      match p
      case Refuse => Done(false, w)
      case Refresh(n, refreshed) =>
        if n !in w.disk.roster.accounts then Done(false, w)
        else
          var k := KeyOf(w.disk.roster, n);
          Exec(w, [SetCreds(k, m.creds), SetConfig(k, m.config), CommitTo(refreshed)])
      case Place(_, _, _, _, _) => Exec(w, AddSteps(w.disk.roster, p, m))
  }

  /** Re-checked against what the user was shown; then guard, delete, commit. */
  function RemoveRun(w: World, shown: Spans.Occupant): Done {
    var s := Spans.RemoveSpan(w.disk.roster, shown);
    if s.Abort? then Done(false, w)
    else if s.rosters == [] then Done(true, w)
    else Exec(w, [Guard] + Retire(Key(shown.slot, shown.email)) + [CommitTo(s.rosters[0])])
  }

  // ---- everybody else ---------------------------------------------------------------------

  ghost predicate KeepsRecords(before: Roster, after: Roster, touched: set<Slot>) {
    forall n :: n in before.accounts && n !in touched ==> n in after.accounts && after.accounts[n] == before.accounts[n]
  }

  /** Outside these slots every account has its record, its credential and its config. */
  ghost function OthersKept(d0: Disk, touched: set<Slot>): Disk -> bool {
    (d: Disk) =>
      && KeepsRecords(d0.roster, d.roster, touched)
      && forall n | n in d0.roster.accounts && n !in touched ::
           MaterialAt(d, KeyOf(d0.roster, n)) == MaterialAt(d0, KeyOf(d0.roster, n))
  }

  ghost predicate Within(step: Step, before: Roster, touched: set<Slot>) {
    match step
    case SetCreds(k, _) => k.slot in touched
    case SetConfig(k, _) => k.slot in touched
    case SweepCreds(k) => k.slot in touched
    case CommitTo(r) => KeepsRecords(before, r, touched)
    case _ => true
  }

  lemma WithinKeepsOthers(steps: seq<Step>, d0: Disk, touched: set<Slot>)
    requires forall i :: 0 <= i < |steps| ==> Within(steps[i], d0.roster, touched)
    ensures AllKeep(OthersKept(d0, touched), steps)
  {
    forall i | 0 <= i < |steps| ensures Keeps(OthersKept(d0, touched), steps[i]) {
      assert Within(steps[i], d0.roster, touched);
    }
  }

  function Touched(p: Spans.AddPlan): set<Slot> {
    match p
    case Refuse => {}
    case Refresh(n, _) => {n}
    case Place(n, _, migrated, _, _) => if migrated.Some? then {n, migrated.value} else {n}
  }

  /** A displaced occupant stands in the slot that is being filled. */
  predicate Displaces(p: Spans.AddPlan) {
    p.Place? && p.displaced.Some? ==> p.displaced.value.slot == p.slot
  }

  lemma AddStepsWithin(r: Roster, p: Spans.AddPlan, m: Material, i: nat)
    requires p.Place? && Displaces(p) && i < |AddSteps(r, p, m)|
    ensures Within(AddSteps(r, p, m)[i], r, Touched(p))
  {
    assert KeepsRecords(r, Spans.AfterDisplace(r, p), Touched(p));
    assert KeepsRecords(r, Spans.AfterMigrate(r, p), Touched(p));
    assert KeepsRecords(r, Spans.AfterInstall(r, p), Touched(p));
  }

  lemma PlanSparesOthers(w: World, p: Spans.AddPlan, m: Material)
    requires Displaces(p)
    requires p.Refresh? ==> KeepsRecords(w.disk.roster, p.refreshed, {p.slot})
    ensures AllSince(AddRun(w, p, m).w, |w.seen|, OthersKept(w.disk, Touched(p)))
  {
    var q := OthersKept(w.disk, Touched(p));
    if p.Place? {
      var steps := AddSteps(w.disk.roster, p, m);
      forall i | 0 <= i < |steps| ensures Within(steps[i], w.disk.roster, Touched(p)) {
        AddStepsWithin(w.disk.roster, p, m, i);
      }
      WithinKeepsOthers(steps, w.disk, Touched(p));
      ExecHolds(w, steps, |w.seen|, q);
    } else if p.Refresh? && p.slot in w.disk.roster.accounts {
      var k := KeyOf(w.disk.roster, p.slot);
      var steps := [SetCreds(k, m.creds), SetConfig(k, m.config), CommitTo(p.refreshed)];
      WithinKeepsOthers(steps, w.disk, Touched(p));
      ExecHolds(w, steps, |w.seen|, q);
    }
  }

  /** The slot already holds this identity, or its user confirmed the occupant, or waived the question. */
  predicate MayTouch(r: Roster, n: Slot, email: string, org: string, slot: Option<Slot>,
                     confirmed: Option<Spans.Occupant>, assumeYes: bool) {
    n in r.accounts ==>
      || Holds(r, n, email, org)
      || (slot == Some(n) && (assumeYes || confirmed == Some(Spans.OccupantOf(r, n))))
  }

  /**
   In every state of an add, however it fails or dies, every account keeps its record, credential
   and config, except in the slots it may touch: where the added identity stands, and the slot that
   was asked for, once its occupant was confirmed.
   */
  lemma AddSparesEverybodyElse(w: World, slot: Option<Slot>, login: Spans.Login, alias: Option<string>,
                               confirmed: Option<Spans.Occupant>, assumeYes: bool, m: Material)
    ensures var p := Spans.PlanAdd(w.disk.roster, slot, login, alias, confirmed, assumeYes);
            && AllSince(AddRun(w, p, m).w, |w.seen|, OthersKept(w.disk, Touched(p)))
            && forall n :: n in Touched(p) ==>
                 MayTouch(w.disk.roster, n, login.email, login.org, slot, confirmed, assumeYes)
  {
    var r := w.disk.roster;
    var p := Spans.PlanAdd(r, slot, login, alias, confirmed, assumeYes);
    AddPlanned(r, slot, login, alias, confirmed, assumeYes);
    PlanSparesOthers(w, p, m);
  }

  lemma AddPlanned(r: Roster, slot: Option<Slot>, login: Spans.Login, alias: Option<string>,
                   confirmed: Option<Spans.Occupant>, assumeYes: bool)
    ensures var p := Spans.PlanAdd(r, slot, login, alias, confirmed, assumeYes);
            && Displaces(p)
            && (p.Refresh? ==> KeepsRecords(r, p.refreshed, {p.slot}))
            && forall n :: n in Touched(p) ==> MayTouch(r, n, login.email, login.org, slot, confirmed, assumeYes)
  {
    var p := Spans.PlanAdd(r, slot, login, alias, confirmed, assumeYes);
    Spans.LandDrops(r, slot, login.email, login.org, confirmed, assumeYes);
    if p.Place? { PlaceMayTouch(r, p, slot, login.email, login.org, confirmed, assumeYes); }
  }

  /** The same for add-token; without a slot and an email, the token is named after the next free slot. */
  lemma TokenSparesEverybodyElse(w: World, slot: Option<Slot>, email: string, apiKey: bool,
                                 confirmed: Option<Spans.Occupant>, assumeYes: bool, m: Material)
    ensures var p := Spans.PlanToken(w.disk.roster, slot, email, apiKey, confirmed, assumeYes);
            var named := Spans.TokenSlot(w.disk.roster, slot, email);
            && AllSince(AddRun(w, p, m).w, |w.seen|, OthersKept(w.disk, Touched(p)))
            && forall n :: n in Touched(p) ==>
                 MayTouch(w.disk.roster, n, Spans.TokenEmail(named, email, apiKey), "", slot, confirmed, assumeYes)
  {
    TokenPlanned(w.disk.roster, slot, email, apiKey, confirmed, assumeYes);
    PlanSparesOthers(w, Spans.PlanToken(w.disk.roster, slot, email, apiKey, confirmed, assumeYes), m);
  }

  lemma TokenPlanned(r: Roster, slot: Option<Slot>, email: string, apiKey: bool,
                     confirmed: Option<Spans.Occupant>, assumeYes: bool)
    ensures var p := Spans.PlanToken(r, slot, email, apiKey, confirmed, assumeYes);
            var named := Spans.TokenSlot(r, slot, email);
            && Displaces(p)
            && (p.Refresh? ==> KeepsRecords(r, p.refreshed, {p.slot}))
            && forall n :: n in Touched(p) ==>
                 MayTouch(r, n, Spans.TokenEmail(named, email, apiKey), "", slot, confirmed, assumeYes)
  {
    var p := Spans.PlanToken(r, slot, email, apiKey, confirmed, assumeYes);
    var named := Spans.TokenSlot(r, slot, email);
    var name := Spans.TokenEmail(named, email, apiKey);
    Spans.LandDrops(r, named, name, "", confirmed, assumeYes);
    if p.Place? { PlaceMayTouch(r, p, named, name, "", confirmed, assumeYes); }
    assert named != slot ==> named.value !in r.accounts;
  }

  lemma PlaceMayTouch(r: Roster, p: Spans.AddPlan, slot: Option<Slot>, email: string, org: string,
                      confirmed: Option<Spans.Occupant>, assumeYes: bool)
    requires p.Place? && Spans.LandsAt(r, slot, email, org, confirmed, assumeYes,
                                       Spans.At(p.slot, p.displaced, p.migrated))
    ensures Displaces(p) && forall n :: n in Touched(p) ==> MayTouch(r, n, email, org, slot, confirmed, assumeYes)
  {
  }

  // ---- the span ---------------------------------------------------------------------------

  /** The roster as it was, or one that the span commits. */
  ghost function OldOrCommitted(r: Roster, s: Spans.Span): Disk -> bool {
    (d: Disk) => d.roster == r || (s.Commit? && d.roster in s.rosters)
  }

  ghost predicate CommitsOnly(steps: seq<Step>, s: Spans.Span) {
    forall i :: 0 <= i < |steps| ==> (steps[i].CommitTo? ==> s.Commit? && steps[i].roster in s.rosters)
  }

  lemma CommitsHold(w: World, steps: seq<Step>, s: Spans.Span)
    requires CommitsOnly(steps, s)
    ensures AllSince(Exec(w, steps).w, |w.seen|, OldOrCommitted(w.disk.roster, s))
  {
    var q := OldOrCommitted(w.disk.roster, s);
    forall i | 0 <= i < |steps| ensures Keeps(q, steps[i]) {
      assert steps[i].CommitTo? ==> steps[i].roster in s.rosters;
    }
    ExecHolds(w, steps, |w.seen|, q);
  }

  lemma Joined(a: seq<Step>, b: seq<Step>, s: Spans.Span)
    requires CommitsOnly(a, s) && CommitsOnly(b, s)
    ensures CommitsOnly(a + b, s)
  {
  }

  lemma PlanRosters(r: Roster, p: Spans.AddPlan)
    requires p.Place?
    ensures var rosters := Spans.PlanCommits(r, p).rosters;
            && (p.displaced.Some? ==> Spans.AfterDisplace(r, p) in rosters)
            && (p.migrated.Some? ==> Spans.AfterMigrate(r, p) in rosters)
            && Spans.AfterInstall(r, p) in rosters
  {
    var rosters := Spans.PlanCommits(r, p).rosters;
    assert p.displaced.Some? ==> rosters[0] == Spans.AfterDisplace(r, p);
    assert p.migrated.Some? ==> rosters[|rosters| - 2] == Spans.AfterMigrate(r, p);
    assert rosters[|rosters| - 1] == Spans.AfterInstall(r, p);
  }

  lemma DropCommitsOnly(k: Key, x: Roster, s: Spans.Span)
    requires s.Commit? && x in s.rosters
    ensures CommitsOnly(Retire(k) + [CommitTo(x)], s)
  {
  }

  lemma PlaceCommitsOnly(r: Roster, p: Spans.AddPlan, m: Material)
    requires p.Place?
    ensures CommitsOnly(AddSteps(r, p, m), Spans.PlanCommits(r, p))
  {
    var s := Spans.PlanCommits(r, p);
    PlanRosters(r, p);
    var k := Key(p.slot, p.rec.email);
    var first, second: seq<Step> := [], [];
    if p.displaced.Some? {
      first := Retire(Key(p.displaced.value.slot, p.displaced.value.email)) + [CommitTo(Spans.AfterDisplace(r, p))];
      DropCommitsOnly(Key(p.displaced.value.slot, p.displaced.value.email), Spans.AfterDisplace(r, p), s);
    }
    if p.migrated.Some? && p.migrated.value in r.accounts {
      second := Retire(KeyOf(r, p.migrated.value)) + [CommitTo(Spans.AfterMigrate(r, p))];
      DropCommitsOnly(KeyOf(r, p.migrated.value), Spans.AfterMigrate(r, p), s);
    }
    var third := [SetCreds(k, m.creds), SetConfig(k, m.config), CommitTo(Spans.AfterInstall(r, p))];
    Joined(first, second, s);
    Joined(first + second, third, s);
    assert AddSteps(r, p, m) == first + second + third;
  }

  /**
   Every roster seen during an add is the one it found or one that its span commits, wherever it
   fails; a success ends with the last of them.
   */
  lemma AddCommitsItsSpan(w: World, p: Spans.AddPlan, m: Material)
    ensures var s := Spans.PlanCommits(w.disk.roster, p);
            && AllSince(AddRun(w, p, m).w, |w.seen|, OldOrCommitted(w.disk.roster, s))
            && (AddRun(w, p, m).ok ==>
                  s.Commit? && AddRun(w, p, m).w.disk.roster == Spans.SpanEnd(w.disk.roster, s))
  {
    var r := w.disk.roster;
    var s := Spans.PlanCommits(r, p);
    if p.Place? {
      PlaceCommitsOnly(r, p, m);
      CommitsHold(w, AddSteps(r, p, m), s);
      if AddRun(w, p, m).ok { AddLands(w, p, m); }
    } else if p.Refresh? && p.slot in r.accounts {
      var k := KeyOf(r, p.slot);
      CommitsHold(w, [SetCreds(k, m.creds), SetConfig(k, m.config), CommitTo(p.refreshed)], s);
      if AddRun(w, p, m).ok { InstallLands(w, k, m, p.refreshed); }
    }
  }

  lemma InstallLands(w: World, k: Key, m: Material, r: Roster)
    requires Exec(w, [SetCreds(k, m.creds), SetConfig(k, m.config), CommitTo(r)]).ok
    ensures var d := Exec(w, [SetCreds(k, m.creds), SetConfig(k, m.config), CommitTo(r)]).w.disk;
            d.roster == r && MaterialAt(d, k) == m
  {
    var steps := [SetCreds(k, m.creds), SetConfig(k, m.config), CommitTo(r)];
    ExecLands(w, steps);
    assert steps[1..][1..][1..] == [];
    var d1 := Effect(w.disk, steps[0]);
    var d2 := Effect(d1, steps[1]);
    assert Outcome(w.disk, steps) == Outcome(d1, steps[1..]) == Outcome(d2, steps[1..][1..]) == Effect(d2, steps[2]);
  }

  /** An add that reports success holds exactly the new material, under the roster its span commits. */
  lemma AddLands(w: World, p: Spans.AddPlan, m: Material)
    requires p.Place? && AddRun(w, p, m).ok
    ensures var d := AddRun(w, p, m).w.disk;
            && d.roster == Spans.AfterInstall(w.disk.roster, p)
            && MaterialAt(d, Key(p.slot, p.rec.email)) == m
  {
    var r := w.disk.roster;
    var k := Key(p.slot, p.rec.email);
    var steps := AddSteps(r, p, m);
    var last := [SetCreds(k, m.creds), SetConfig(k, m.config), CommitTo(Spans.AfterInstall(r, p))];
    var first := steps[..|steps| - 3];
    assert steps == first + last;
    ExecAppend(w, first, last);
    InstallLands(Exec(w, first).w, k, m, Spans.AfterInstall(r, p));
  }

  /** In every state of a removal everybody but the account the user was shown is as before. */
  lemma RemoveSparesEverybodyElse(w: World, shown: Spans.Occupant)
    ensures AllSince(RemoveRun(w, shown).w, |w.seen|, OthersKept(w.disk, {shown.slot}))
    ensures RemoveRun(w, shown).ok && shown.slot in w.disk.roster.accounts ==>
              && Spans.OccupantOf(w.disk.roster, shown.slot) == shown
              && RemoveRun(w, shown).w.disk.roster == DropSlot(w.disk.roster, shown.slot)
    ensures !RemoveRun(w, shown).ok ==> RemoveRun(w, shown).w.disk.roster == w.disk.roster
  {
    var s := Spans.RemoveSpan(w.disk.roster, shown);
    if s.Commit? && s.rosters != [] {
      var after := DropSlot(w.disk.roster, shown.slot);
      var first := [Guard] + Retire(Key(shown.slot, shown.email));
      var steps := first + [CommitTo(after)];
      WithinKeepsOthers(steps, w.disk, {shown.slot});
      ExecHolds(w, steps, |w.seen|, OthersKept(w.disk, {shown.slot}));
      RosterUntilCommit(w, first, after);
    }
  }

  lemma {:induction false} RosterUntilCommit(w: World, first: seq<Step>, after: Roster)
    requires forall i :: 0 <= i < |first| ==> !first[i].CommitTo?
    ensures var e := Exec(w, first + [CommitTo(after)]);
            e.w.disk.roster == if e.ok then after else w.disk.roster
    decreases |first|
  {
    if first == [] {
      assert first + [CommitTo(after)] == [CommitTo(after)] + [];
      ExecCons(w, CommitTo(after), []);
    } else {
      assert first + [CommitTo(after)] == [first[0]] + (first[1..] + [CommitTo(after)]);
      ExecCons(w, first[0], first[1..] + [CommitTo(after)]);
      EndIsHop(w, first[0]);
      RosterUntilCommit(Apply(w, first[0]).w, first[1..], after);
    }
  }

  // ---- nothing of what was dropped is left ---------------------------------------------------

  /**
   Nothing is left under the key of an account that was retired from fate `i` on: the config is
   gone, and so is the credential, unless the sweep of it failed.
   */
  predicate Deleted(d: Disk, k: Key, fates: seq<Fate>, i: nat) {
    Read(d.configs, k) == "" && (FateAt(fates, i + 1).ok ==> Read(d.creds, k) == "")
  }

  /** A retirement followed by the commit that drops the record. */
  lemma RetireAndCommit(w: World, k: Key, r: Roster, fates: seq<Fate>, i: nat)
    requires Exec(w, Retire(k) + [CommitTo(r)]).ok && w.fates == Later(fates, i)
    ensures var e := Exec(w, Retire(k) + [CommitTo(r)]);
            Deleted(e.w.disk, k, fates, i) && e.w.fates == Later(fates, i + 4)
  {
    ExecAppend(w, Retire(k), [CommitTo(r)]);
    RetireCleans(w, k);
    var t := Exec(w, Retire(k)).w;
    ExecSpares(t, [CommitTo(r)], k);
    ExecDraws(w, Retire(k) + [CommitTo(r)]);
    ExecDraws(w, Retire(k));
    RetiredByGuard(w, k);
    RetireShifts(w, k, fates, i);
    LaterOn(fates, i, 4);
  }

  lemma RetiredByGuard(w: World, k: Key)
    requires Exec(w, Retire(k)).ok
    ensures FateAt(w.fates, 0).ok
  {
    RetireUnfolds(w, k);
    ApplyDraws(w, Guard);
  }

  /** A removal that succeeded has deleted the files of the account shown, and its record. */
  lemma RemoveDeletesFiles(w: World, shown: Spans.Occupant)
    requires RemoveRun(w, shown).ok && shown.slot in w.disk.roster.accounts
    ensures Deleted(RemoveRun(w, shown).w.disk, Key(shown.slot, shown.email), w.fates, 1)
    ensures shown.slot !in RemoveRun(w, shown).w.disk.roster.accounts
    ensures RemoveRun(w, shown).w.disk.roster.active == w.disk.roster.active
  {
    var k := Key(shown.slot, shown.email);
    var after := DropSlot(w.disk.roster, shown.slot);
    RemoveSparesEverybodyElse(w, shown);
    assert [Guard] + Retire(k) + [CommitTo(after)] == [Guard] + (Retire(k) + [CommitTo(after)]);
    ExecCons(w, Guard, Retire(k) + [CommitTo(after)]);
    ApplyDraws(w, Guard);
    RetireAndCommit(Apply(w, Guard).w, k, after, w.fates, 1);
  }

  /** A removal is refused exactly when its slot holds somebody else, or is empty while the account stands elsewhere. */
  lemma UndisturbedRemove(w: World, shown: Spans.Occupant)
    requires Undisturbed(w.fates)
    ensures RemoveRun(w, shown).ok <==>
              if shown.slot in w.disk.roster.accounts then Spans.OccupantOf(w.disk.roster, shown.slot) == shown
              else forall n :: !Holds(w.disk.roster, n, shown.email, shown.org)
  {
    FindSlotFinds(w.disk.roster, shown.email, shown.org);
    var after := DropSlot(w.disk.roster, shown.slot);
    UndisturbedExec(w, [Guard] + Retire(Key(shown.slot, shown.email)) + [CommitTo(after)]);
  }

  /** A plan that displaces only from the slot it fills, and migrates only from another. */
  predicate Separate(p: Spans.AddPlan) {
    Displaces(p) && (p.Place? && p.migrated.Some? ==> p.migrated.value != p.slot)
  }

  predicate DisplacedDeleted(d: Disk, p: Spans.AddPlan, fates: seq<Fate>)
    requires p.Place?
  {
    p.displaced.Some? && p.displaced.value.email != p.rec.email ==>
      Deleted(d, Key(p.displaced.value.slot, p.displaced.value.email), fates, 0)
  }

  predicate MigratedDeleted(r: Roster, d: Disk, p: Spans.AddPlan, fates: seq<Fate>)
    requires p.Place?
  {
    p.migrated.Some? && p.migrated.value in r.accounts ==>
      Deleted(d, KeyOf(r, p.migrated.value), fates, if p.displaced.Some? then 4 else 0)
  }

  lemma DeletedStays(w: World, steps: seq<Step>, k: Key, fates: seq<Fate>, i: nat)
    requires Deleted(w.disk, k, fates, i) && AllAvoid(steps, k)
    ensures Deleted(Exec(w, steps).w.disk, k, fates, i)
  {
    ExecSpares(w, steps, k);
    assert MaterialAt(Exec(w, steps).w.disk, k) == MaterialAt(w.disk, k);
  }

  lemma AvoidJoined(a: seq<Step>, b: seq<Step>, k: Key)
    requires AllAvoid(a, k) && AllAvoid(b, k)
    ensures AllAvoid(a + b, k)
  {
  }

  lemma DropAvoids(k: Key, r: Roster, x: Key)
    requires k != x
    ensures AllAvoid(Retire(k) + [CommitTo(r)], x)
  {
  }

  lemma InstallAvoids(k: Key, m: Material, r: Roster, x: Key)
    requires k != x
    ensures AllAvoid([SetCreds(k, m.creds), SetConfig(k, m.config), CommitTo(r)], x)
  {
  }

  lemma AddInThree(w: World, p: Spans.AddPlan, m: Material)
    requires p.Place? && Exec(w, AddSteps(w.disk.roster, p, m)).ok
    ensures var r := w.disk.roster;
            var d := Exec(w, DisplaceSteps(r, p));
            && d.ok && Exec(d.w, MigrateSteps(r, p)).ok
            && Exec(d.w, MigrateSteps(r, p) + InstallSteps(r, p, m)) == Exec(w, AddSteps(r, p, m))
            && Exec(Exec(d.w, MigrateSteps(r, p)).w, InstallSteps(r, p, m)) == Exec(w, AddSteps(r, p, m))
  {
    var r := w.disk.roster;
    var first, second, third := DisplaceSteps(r, p), MigrateSteps(r, p), InstallSteps(r, p, m);
    assert AddSteps(r, p, m) == first + (second + third);
    ExecAppend(w, first, second + third);
    ExecAppend(Exec(w, first).w, second, third);
  }

  lemma PlaceDeletes(w: World, p: Spans.AddPlan, m: Material)
    requires p.Place? && Separate(p) && Exec(w, AddSteps(w.disk.roster, p, m)).ok
    ensures var d := Exec(w, AddSteps(w.disk.roster, p, m)).w.disk;
            DisplacedDeleted(d, p, w.fates) && MigratedDeleted(w.disk.roster, d, p, w.fates)
  {
    var r := w.disk.roster;
    AddInThree(w, p, m);
    var k := Key(p.slot, p.rec.email);
    var d := Exec(w, DisplaceSteps(r, p));
    LaterOn(w.fates, 0, 0);
    if p.displaced.Some? {
      var x := Key(p.displaced.value.slot, p.displaced.value.email);
      RetireAndCommit(w, x, Spans.AfterDisplace(r, p), w.fates, 0);
      if p.displaced.value.email != p.rec.email {
        if p.migrated.Some? && p.migrated.value in r.accounts {
          DropAvoids(KeyOf(r, p.migrated.value), Spans.AfterMigrate(r, p), x);
        }
        InstallAvoids(k, m, Spans.AfterInstall(r, p), x);
        AvoidJoined(MigrateSteps(r, p), InstallSteps(r, p, m), x);
        DeletedStays(d.w, MigrateSteps(r, p) + InstallSteps(r, p, m), x, w.fates, 0);
      }
    }
    if p.migrated.Some? && p.migrated.value in r.accounts {
      var y := KeyOf(r, p.migrated.value);
      var i := if p.displaced.Some? then 4 else 0;
      RetireAndCommit(d.w, y, Spans.AfterMigrate(r, p), w.fates, i);
      InstallAvoids(k, m, Spans.AfterInstall(r, p), y);
      DeletedStays(Exec(d.w, MigrateSteps(r, p)).w, InstallSteps(r, p, m), y, w.fates, i);
    }
  }

  lemma AddIsSeparate(r: Roster, slot: Option<Slot>, login: Spans.Login, alias: Option<string>,
                      confirmed: Option<Spans.Occupant>, assumeYes: bool)
    ensures Separate(Spans.PlanAdd(r, slot, login, alias, confirmed, assumeYes))
  {
    Spans.LandDrops(r, slot, login.email, login.org, confirmed, assumeYes);
  }

  lemma TokenIsSeparate(r: Roster, slot: Option<Slot>, email: string, apiKey: bool,
                        confirmed: Option<Spans.Occupant>, assumeYes: bool)
    ensures Separate(Spans.PlanToken(r, slot, email, apiKey, confirmed, assumeYes))
  {
    var named := Spans.TokenSlot(r, slot, email);
    Spans.LandDrops(r, named, Spans.TokenEmail(named, email, apiKey), "", confirmed, assumeYes);
  }

  /**
   An add that succeeded has deleted the files of the account it displaced, unless it has just
   written the new account's under that very key, and of the slot the identity came from.
   */
  lemma AddDeletesWhatItDrops(w: World, slot: Option<Slot>, login: Spans.Login, alias: Option<string>,
                              confirmed: Option<Spans.Occupant>, assumeYes: bool, m: Material)
    ensures var p := Spans.PlanAdd(w.disk.roster, slot, login, alias, confirmed, assumeYes);
            var e := AddRun(w, p, m);
            e.ok && p.Place? ==>
              DisplacedDeleted(e.w.disk, p, w.fates) && MigratedDeleted(w.disk.roster, e.w.disk, p, w.fates)
  {
    var p := Spans.PlanAdd(w.disk.roster, slot, login, alias, confirmed, assumeYes);
    AddIsSeparate(w.disk.roster, slot, login, alias, confirmed, assumeYes);
    if AddRun(w, p, m).ok && p.Place? { PlaceDeletes(w, p, m); }
  }

  lemma TokenDeletesWhatItDrops(w: World, slot: Option<Slot>, email: string, apiKey: bool,
                                confirmed: Option<Spans.Occupant>, assumeYes: bool, m: Material)
    ensures var p := Spans.PlanToken(w.disk.roster, slot, email, apiKey, confirmed, assumeYes);
            var e := AddRun(w, p, m);
            e.ok && p.Place? ==>
              DisplacedDeleted(e.w.disk, p, w.fates) && MigratedDeleted(w.disk.roster, e.w.disk, p, w.fates)
  {
    var p := Spans.PlanToken(w.disk.roster, slot, email, apiKey, confirmed, assumeYes);
    TokenIsSeparate(w.disk.roster, slot, email, apiKey, confirmed, assumeYes);
    if AddRun(w, p, m).ok && p.Place? { PlaceDeletes(w, p, m); }
  }

  /** When nothing fails, an add succeeds exactly if it was not refused and has a credential; if not, nothing changes. */
  lemma UndisturbedAdd(w: World, p: Spans.AddPlan, m: Material)
    requires Undisturbed(w.fates) && (p.Refresh? ==> p.slot in w.disk.roster.accounts)
    ensures AddRun(w, p, m).ok <==> !p.Refuse? && m.creds != ""
    ensures !AddRun(w, p, m).ok ==> AddRun(w, p, m).w == w
  {
    if m.creds == "" {
    } else if p.Place? {
      UndisturbedExec(w, AddSteps(w.disk.roster, p, m));
    } else if p.Refresh? {
      var k := KeyOf(w.disk.roster, p.slot);
      UndisturbedExec(w, [SetCreds(k, m.creds), SetConfig(k, m.config), CommitTo(p.refreshed)]);
    }
  }

  /** A refresh that succeeded holds exactly the new material under the key that was there. */
  lemma RefreshLands(w: World, p: Spans.AddPlan, m: Material)
    requires p.Refresh? && AddRun(w, p, m).ok
    ensures p.slot in w.disk.roster.accounts
    ensures AddRun(w, p, m).w.disk.roster == p.refreshed
    ensures MaterialAt(AddRun(w, p, m).w.disk, KeyOf(w.disk.roster, p.slot)) == m
  {
    InstallLands(w, KeyOf(w.disk.roster, p.slot), m, p.refreshed);
  }
}
