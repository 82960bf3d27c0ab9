/**
 Configs, unlike credentials, are truncated and rewritten in place, and the rollback rewrites a
 config that was never touched. This module settles exactly when a swap can lose one.
 */
module ConfigRisk {
  import opened Basics
  import opened Rosters
  import opened SlotStore
  import opened StoreSteps
  import opened MoveSwap
  import opened SwapSafety
  import opened SwapRuns
  import opened SwapTheorems
  import opened SwapRetries

  /** However the writes fail, the config is somewhere in every state. */
  ghost predicate ConfigSafe(d: Disk, a: Slot, b: Slot, first: bool)
    requires Swappable(d, a, b)
  {
    forall fates :: !Loses(d, a, b, first, fates)
  }

  /** Under this script some state of the swap has the config nowhere. */
  ghost predicate Loses(d: Disk, a: Slot, b: Slot, first: bool, fates: seq<Fate>)
    requires Swappable(d, a, b)
  {
    !AllSince(Swap(World(d, [d], fates), a, b).w, 1, ConfigHeld(PlanOf(d, a, b), first))
  }

  // ---- a script in which everything fails -------------------------------------------------

  function Torn(x: string): Fate {
    Fate(false, true, x)
  }

  ghost predicate Doomed(w: World, n: nat, x: string) {
    n <= |w.fates| && forall i :: 0 <= i < n ==> w.fates[i] == Torn(x)
  }

  lemma DoomedStep(w: World, step: Step, n: nat, x: string)
    requires Doomed(w, n, x) && n > 0
    ensures Doomed(Apply(w, step).w, n - 1, x)
    ensures Apply(w, step).ok <==> step.SweepCreds?
    ensures Apply(w, step).w.disk.configs
         == if step.SetConfig? && step.text != "" then w.disk.configs[step.key := x] else w.disk.configs
    ensures Apply(w, step).w.disk.staging
         == if step.Stage? then w.disk.staging[step.name := x] else w.disk.staging
  {
  }

  ghost predicate Rewrites(steps: seq<Step>, k: Key) {
    exists i :: 0 <= i < |steps| && steps[i].SetConfig? && steps[i].key == k && steps[i].text != ""
  }

  lemma {:induction false} DoomedRun(w: World, steps: seq<Step>, x: string, k: Key)
    requires Doomed(w, |steps|, x)
    requires forall i :: 0 <= i < |steps| ==> !steps[i].Stage? && !steps[i].Unstage?
    ensures ExecAll(w, steps).w.disk.staging == w.disk.staging
    ensures Read(ExecAll(w, steps).w.disk.configs, k) == if Rewrites(steps, k) then x else Read(w.disk.configs, k)
    decreases |steps|
  {
    if steps != [] {
      DoomedStep(w, steps[0], |steps|, x);
      DoomedRun(Apply(w, steps[0]).w, steps[1..], x, k);
      if Rewrites(steps, k) {
        var i :| 0 <= i < |steps| && steps[i].SetConfig? && steps[i].key == k && steps[i].text != "";
        assert i > 0 ==> steps[1..][i - 1] == steps[i];
      }
      if Rewrites(steps[1..], k) {
        var i :| 0 <= i < |steps[1..]| && steps[1..][i].SetConfig? && steps[1..][i].key == k && steps[1..][i].text != "";
        assert steps[i + 1] == steps[1..][i];
      }
    }
  }

  lemma {:induction false} DoomedStaging(w: World, items: seq<Item>, x: string, n: nat)
    requires Doomed(w, n, x) && n > 0
    requires exists i :: 0 <= i < |items| && items[i].text != ""
    ensures !StageAll(w, items, []).ok
    ensures Doomed(StageAll(w, items, []).w, n - 1, x)
    ensures StageAll(w, items, []).w.disk.configs == w.disk.configs
    ensures forall name :: Parked(StageAll(w, items, []).w.disk, name) in {Parked(w.disk, name), Some(x)}
    decreases |items|
  {
    if items[0].text == "" {
      DoomedStaging(w, items[1..], x, n);
    } else if items[0].name !in w.disk.staging {
      DoomedStep(w, Stage(items[0].name, items[0].text), n, x);
    }
  }

  lemma LastSeen(w: World, steps: seq<Step>)
    requires steps != []
    ensures ExecAll(w, steps).w.seen != []
    ensures ExecAll(w, steps).w.seen[|ExecAll(w, steps).w.seen| - 1] == ExecAll(w, steps).w.disk
    decreases |steps|
  {
    ApplyGoesThrough(w, steps[0]);
    if |steps| > 1 { LastSeen(Apply(w, steps[0]).w, steps[1..]); }
  }

  // ---- losing a config ----------------------------------------------------------------------

  function Other(p: Plan, first: bool): Party {
    PartyOf(p, !first)
  }

  lemma RestoresRewrite(p: Plan, first: bool)
    requires p.a != p.b && PartyOf(p, first).m.config != ""
    ensures Rewrites(Restores(p), PartyOf(p, first).was)
    ensures !p.Overlap() ==> !Rewrites(Restores(p), PartyOf(p, first).will)
    ensures Other(p, first).m.config != "" ==> Rewrites(Restores(p), Other(p, first).was)
    ensures Restores(p) != [] && |Restores(p)| <= 4
  {
    RestoresHold(p, first);
    if Other(p, first).m.config != "" { RestoresHold(p, !first); }
    if Rewrites(Restores(p), PartyOf(p, first).will) {
      var i :| 0 <= i < |Restores(p)| && Restores(p)[i].SetConfig? && Restores(p)[i].key == PartyOf(p, first).will;
      RestoresAre(p, i);
    }
  }

  lemma RestoresHold(p: Plan, first: bool)
    requires PartyOf(p, first).m.config != ""
    ensures exists i :: 0 <= i < |Restores(p)| && Restores(p)[i] == SetConfig(PartyOf(p, first).was, PartyOf(p, first).m.config)
  {
    var r1 := Restore(p, SetCreds(p.OldA(), p.ma.creds));
    var r2 := Restore(p, SetConfig(p.OldA(), p.ma.config));
    var r3 := Restore(p, SetCreds(p.OldB(), p.mb.creds));
    var i := if first then |r1| else |r1| + |r2| + |r3|;
    assert Restores(p)[i] == SetConfig(PartyOf(p, first).was, PartyOf(p, first).m.config);
  }

  lemma DoomedRestores(w: World, p: Plan, first: bool, x: string)
    requires p.a != p.b && Doomed(w, 4, x)
    requires PartyOf(p, first).m.config != "" && x != PartyOf(p, first).m.config
    requires Parked(w.disk, PartyOf(p, first).configName) != Some(PartyOf(p, first).m.config)
    requires Overlapping(p, first, w.disk) || Read(w.disk.configs, PartyOf(p, first).will) == x
    ensures !ConfigKept(ExecAll(w, Restores(p)).w.disk, PartyOf(p, first))
  {
    var y := PartyOf(p, first);
    RestoresRewrite(p, first);
    forall i | 0 <= i < |Restores(p)| ensures !Restores(p)[i].Stage? && !Restores(p)[i].Unstage? { RestoresAre(p, i); }
    assert Doomed(w, |Restores(p)|, x);
    DoomedRun(w, Restores(p), x, y.was);
    DoomedRun(w, Restores(p), x, y.will);
  }

  lemma AllGrows(w: World, steps: seq<Step>)
    requires steps != []
    ensures w.seen < ExecAll(w, steps).w.seen
  {
    ApplyGrowsHistory(w, steps[0]);
    ExecGrows(Apply(w, steps[0]).w, steps[1..]);
  }

  lemma AfterRestores(w: World, p: Plan, names: seq<StageName>)
    ensures ExecAll(w, Restores(p)).w.seen <= Rollback(w, p, names).w.seen
  {
    var t := ExecAll(w, Restores(p)).w;
    ExecGrows(t, Strays(p));
    DiscardGrows(ExecAll(t, Strays(p)).w, names);
  }

  /** The state after the restores is part of the rollback's history. */
  lemma RollbackPasses(w: World, p: Plan, names: seq<StageName>) returns (i: nat)
    requires Restores(p) != [] && w.seen != []
    ensures 1 <= i < |Rollback(w, p, names).w.seen|
    ensures Rollback(w, p, names).w.seen[i] == ExecAll(w, Restores(p)).w.disk
  {
    var t := ExecAll(w, Restores(p)).w;
    LastSeen(w, Restores(p));
    AllGrows(w, Restores(p));
    AfterRestores(w, p, names);
    i := |t.seen| - 1;
  }

  /** A rollback in which everything fails leaves the config nowhere. */
  lemma DoomedRollback(w: World, p: Plan, first: bool, x: string, names: seq<StageName>)
    requires p.a != p.b && Doomed(w, 4, x) && w.seen != []
    requires PartyOf(p, first).m.config != "" && x != PartyOf(p, first).m.config
    requires Parked(w.disk, PartyOf(p, first).configName) != Some(PartyOf(p, first).m.config)
    requires Overlapping(p, first, w.disk) || Read(w.disk.configs, PartyOf(p, first).will) == x
    ensures !AllSince(Rollback(w, p, names).w, 1, ConfigHeld(p, first))
  {
    DoomedRestores(w, p, first, x);
    RestoresRewrite(p, first);
    var i := RollbackPasses(w, p, names);
    assert !ConfigHeld(p, first)(Rollback(w, p, names).w.seen[i]);
  }

  /** The other account's config, if any, is what the restore tears at this one's new key. */
  predicate Overlapping(p: Plan, first: bool, d: Disk) {
    p.Overlap() && (Other(p, first).m.config == "" ==> Read(d.configs, PartyOf(p, first).will) == "")
  }

  function Smooth(n: nat): seq<Fate> {
    seq(n, i => SMOOTH)
  }

  /** The first `n` steps succeed; the next eight fail and leave `x` in whatever file they were writing. */
  function Script(n: nat, x: string): seq<Fate> {
    Smooth(n) + seq(8, i => Torn(x))
  }

  /** Under a smooth fate a step succeeds, and the script moves on. */
  lemma SmoothStep(w: World, step: Step, n: nat, x: string)
    requires n > 0 && w.fates == Script(n, x)
    ensures Apply(w, step).ok && Apply(w, step).w.fates == Script(n - 1, x)
    ensures !step.SweepCreds? ==> Apply(w, step).w.disk == Effect(w.disk, step)
  {
    assert w.fates[0] == SMOOTH;
    assert w.fates[1..] == Script(n - 1, x);
  }

  lemma GuardsSmooth(d: Disk, n: nat, x: string) returns (g: World)
    requires n >= 2
    ensures Exec(World(d, [d], Script(n, x)), [Guard, Guard]) == Done(true, g)
    ensures g.disk == d && g.fates == Script(n - 2, x) && |g.seen| > 0
  {
    var w := World(d, [d], Script(n, x));
    SmoothStep(w, Guard, n, x);
    SmoothStep(Apply(w, Guard).w, Guard, n - 1, x);
    assert [Guard, Guard][1..] == [Guard];
    ExecCons(w, Guard, [Guard]);
    assert [Guard] == [Guard] + [];
    ExecCons(Apply(w, Guard).w, Guard, []);
    assert [Guard] + [Guard] == [Guard, Guard];
    ExecGrows(w, [Guard, Guard]);
    g := Exec(w, [Guard, Guard]).w;
  }

  /** One email: the two guards pass, nothing can be staged, and the rollback's own rewrites tear. */
  lemma OverlapLoses(d: Disk, a: Slot, b: Slot, first: bool, x: string)
    requires Swappable(d, a, b) && PlanOf(d, a, b).Overlap()
    requires PartyOf(PlanOf(d, a, b), first).m.config != ""
    requires Parked(d, PartyOf(PlanOf(d, a, b), first).configName) != Some(PartyOf(PlanOf(d, a, b), first).m.config)
    requires x != PartyOf(PlanOf(d, a, b), first).m.config
    ensures Loses(d, a, b, first, Script(2, x))
  {
    var p := PlanOf(d, a, b);
    var y := PartyOf(p, first);
    var g := GuardsSmooth(d, 2, x);
    assert Doomed(g, 8, x);
    assert Items(p)[if first then 1 else 3].text != "";
    DoomedStaging(g, Items(p), x, 8);
    var st := StageAll(g, Items(p), []);
    assert Parked(st.w.disk, y.configName) in {Parked(d, y.configName), Some(x)};
    assert Overlapping(p, first, st.w.disk);
    StagingGrows(g, Items(p), []);
    DoomedRollback(st.w, p, first, x, []);
  }

  lemma {:induction false} CopiesTear(w: World, steps: seq<Step>, i: nat, x: string)
    requires i < |steps| && steps[i].SetConfig? && steps[i].text != ""
    requires w.fates == Script(i, x)
    requires forall j :: 0 <= j < i ==> !steps[j].SweepCreds? && !steps[j].Stage? && !steps[j].Unstage?
    ensures !Exec(w, steps).ok
    ensures Read(Exec(w, steps).w.disk.configs, steps[i].key) == x
    ensures Exec(w, steps).w.disk.staging == w.disk.staging
    ensures Doomed(Exec(w, steps).w, 4, x)
    decreases i
  {
    if i == 0 {
      assert Doomed(w, 8, x);
      DoomedStep(w, steps[0], 8, x);
    } else {
      SmoothStep(w, steps[0], i, x);
      CopiesTear(Apply(w, steps[0]).w, steps[1..], i - 1, x);
    }
  }

  /** The guards and the writes before an account's config pass; its write to the new key tears, and so does the restore. */
  function TearsConfigOf(first: bool, x: string): seq<Fate> {
    Script(if first then 3 else 5, x)
  }

  /** Two emails: the write to the new key tears, and then so does the rewrite of the old one. */
  lemma ApartLoses(d: Disk, a: Slot, b: Slot, first: bool, x: string)
    requires Swappable(d, a, b) && !PlanOf(d, a, b).Overlap()
    requires PartyOf(PlanOf(d, a, b), first).m.config != ""
    requires Parked(d, PartyOf(PlanOf(d, a, b), first).configName) != Some(PartyOf(PlanOf(d, a, b), first).m.config)
    requires x != PartyOf(PlanOf(d, a, b), first).m.config
    ensures Loses(d, a, b, first, TearsConfigOf(first, x))
  {
    var p := PlanOf(d, a, b);
    var y := PartyOf(p, first);
    var i := if first then 1 else 3;
    var g := GuardsSmooth(d, i + 2, x);
    assert Copies(p)[i] == SetConfig(y.will, y.m.config);
    CopiesTear(g, Copies(p), i, x);
    var c := Exec(g, Copies(p)).w;
    ExecGrows(g, Copies(p));
    DoomedRollback(c, p, first, x, []);
  }

  lemma LeftoverSaves(d: Disk, a: Slot, b: Slot, first: bool)
    requires Swappable(d, a, b)
    requires Parked(d, PartyOf(PlanOf(d, a, b), first).configName) == Some(PartyOf(PlanOf(d, a, b), first).m.config)
    ensures ConfigSafe(d, a, b, first)
  {
    var y := PartyOf(PlanOf(d, a, b), first);
    forall fates ensures !Loses(d, a, b, first, fates) {
      var w := World(d, [d], fates);
      if y.m.config != "" {
        SwapSparesLeftover(w, a, b, y.configName, y.m.config);
      } else {
        HistoryKept(d, a, b, fates);
      }
    }
  }

  /**
   A swap can lose an account's config, in some pattern of failures, exactly when the account has
   one and no earlier attempt left a staging copy of it.
   */
  lemma ConfigSafeExactly(d: Disk, a: Slot, b: Slot, first: bool)
    requires Swappable(d, a, b)
    ensures ConfigSafe(d, a, b, first)
       <==> (var y := PartyOf(PlanOf(d, a, b), first);
             y.m.config == "" || Parked(d, y.configName) == Some(y.m.config))
  {
    var p := PlanOf(d, a, b);
    var y := PartyOf(p, first);
    if Parked(d, y.configName) == Some(y.m.config) {
      LeftoverSaves(d, a, b, first);
    } else if y.m.config == "" {
      forall fates ensures !Loses(d, a, b, first, fates) {
        HistoryKept(d, a, b, fates);
      }
    } else if p.Overlap() {
      OverlapLoses(d, a, b, first, y.m.config + "x");
    } else {
      ApartLoses(d, a, b, first, y.m.config + "x");
    }
  }
}
