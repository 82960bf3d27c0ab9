/**
 What a swap and a move leave behind when they fail: with one failure on the way the rollback is
 complete, strays and staged copies included; over a leftover nothing is changed at all.
 */
module SwapUndo {
  import opened Basics
  import opened Rosters
  import opened SlotStore
  import opened StoreSteps
  import opened MoveSwap
  import opened SwapSafety
  import opened SwapRuns
  import opened SwapTheorems
  import opened MoveTheorems
  import opened SwapCleanup

  // ---- one failure -----------------------------------------------------------------------

  ghost predicate OneFailureAtMost(fates: seq<Fate>) {
    forall i, j :: 0 <= i < j < |fates| ==> fates[i].ok || fates[j].ok
  }

  /** Once the failure is drawn, nothing else fails. */
  lemma AfterFate(fates: seq<Fate>)
    requires OneFailureAtMost(fates)
    ensures OneFailureAtMost(Later(fates, 1))
    ensures !FateAt(fates, 0).ok ==> Undisturbed(Later(fates, 1))
  {
  }

  lemma {:induction false} ExecStops(w: World, steps: seq<Step>)
    requires OneFailureAtMost(w.fates) && NoSweeps(steps)
    ensures OneFailureAtMost(Exec(w, steps).w.fates)
    ensures !Exec(w, steps).ok ==> Undisturbed(Exec(w, steps).w.fates)
    decreases |steps|
  {
    if steps != [] {
      ApplyDraws(w, steps[0]);
      AfterFate(w.fates);
      if Apply(w, steps[0]).ok { ExecStops(Apply(w, steps[0]).w, steps[1..]); }
    }
  }

  lemma {:induction false} UndisturbedExecAll(w: World, steps: seq<Step>)
    requires Undisturbed(w.fates)
    ensures ExecAll(w, steps).failures == 0 && ExecAll(w, steps).w.disk == Outcome(w.disk, steps)
    ensures Undisturbed(ExecAll(w, steps).w.fates)
    decreases |steps|
  {
    if steps != [] {
      ApplyDraws(w, steps[0]);
      UndisturbedExecAll(Apply(w, steps[0]).w, steps[1..]);
    }
  }

  lemma StagingUnmovedByAll(w: World, steps: seq<Step>)
    requires NoStaging(steps)
    ensures ExecAll(w, steps).w.disk.staging == w.disk.staging
  {
    ExecAllHolds(w, steps, |w.seen|, StagingIs(w.disk.staging));
  }

  // ---- staging that fails ------------------------------------------------------------------

  /** The file of a staging write that failed half-way. */
  ghost predicate Torn(d: Disk, name: StageName, fates: seq<Fate>) {
    exists i :: 0 <= i < |fates| && !fates[i].ok && fates[i].applied && Parked(d, name) == Some(fates[i].junk)
  }

  lemma UndisturbedDiscard(w: World, names: seq<StageName>, name: StageName)
    requires Undisturbed(w.fates)
    ensures Parked(Discard(w, names).disk, name) == if name in names then None else Parked(w.disk, name)
    ensures Undisturbed(Discard(w, names).fates)
  {
    DiscardRemoves(w, names, name);
    UndisturbedLater(w.fates, 0);
    if name in names {
      var k :| 0 <= k < |names| && names[k] == name;
      assert FateAt(w.fates, 0 + k).ok;
    }
    UndisturbedExecAll(w, Unstages(names));
  }

  lemma TornEarlier(d: Disk, name: StageName, fates: seq<Fate>)
    requires Torn(d, name, Later(fates, 1))
    ensures Torn(d, name, fates)
  {
    var i :| 0 <= i < |Later(fates, 1)| && !Later(fates, 1)[i].ok && Later(fates, 1)[i].applied
             && Parked(d, name) == Some(Later(fates, 1)[i].junk);
    assert fates[i + 1] == Later(fates, 1)[i];
  }

  /** What is under the name once staging has failed: nothing of the copies, and the torn file of the failed write. */
  ghost predicate Unstaged(d0: Disk, d: Disk, names: seq<StageName>, fates: seq<Fate>, name: StageName) {
    || Parked(d, name) == (if name in names then None else Parked(d0, name))
    || Torn(d, name, fates)
  }

  lemma StagedOneMore(w: World, item: Item, names: seq<StageName>, d: Disk, name: StageName)
    requires item.name !in w.disk.staging && item.name !in names
    requires Unstaged(w.disk.(staging := w.disk.staging[item.name := item.text]), d, names + [item.name], Later(w.fates, 1), name)
    ensures Unstaged(w.disk, d, names, w.fates, name)
  {
    if Torn(d, name, Later(w.fates, 1)) { TornEarlier(d, name, w.fates); }
    assert name in names + [item.name] <==> name in names || name == item.name;
  }

  lemma FirstTorn(w: World, item: Item, names: seq<StageName>, name: StageName)
    requires !FateAt(w.fates, 0).ok && OneFailureAtMost(w.fates)
    requires item.name !in w.disk.staging && item.name !in names
    ensures var d := Apply(w, Stage(item.name, item.text)).w;
            && Unstaged(w.disk, Discard(d, names).disk, names, w.fates, name)
            && Undisturbed(Discard(d, names).fates)
  {
    var step := Stage(item.name, item.text);
    ApplyDraws(w, step);
    AfterFate(w.fates);
    EndIsHop(w, step);
    var d := Apply(w, step).w;
    UndisturbedDiscard(d, names, name);
    if name == item.name && w.fates[0].applied { assert Parked(d.disk, name) == Some(w.fates[0].junk); }
  }

  lemma {:induction false} FailedStaging(w: World, items: seq<Item>, names: seq<StageName>, name: StageName)
    requires OneFailureAtMost(w.fates) && DistinctNames(items)
    requires forall i :: 0 <= i < |items| ==> items[i].name !in w.disk.staging && items[i].name !in names
    ensures var st := StageAll(w, items, names);
            if st.ok then OneFailureAtMost(st.w.fates)
            else Undisturbed(st.w.fates) && Unstaged(w.disk, st.w.disk, names, w.fates, name)
    decreases |items|
  {
    if items != [] {
      var rest := items[1..];
      assert DistinctNames(rest);
      assert forall i :: 0 <= i < |rest| ==> rest[i] == items[i + 1];
      var x := items[0].name;
      assert x !in w.disk.staging && x !in names;
      if items[0].text == "" {
        FailedStaging(w, rest, names, name);
      } else {
        var d := Apply(w, Stage(x, items[0].text));
        ApplyDraws(w, Stage(x, items[0].text));
        AfterFate(w.fates);
        if d.ok {
          assert d.w.disk == w.disk.(staging := w.disk.staging[x := items[0].text]);
          FailedStaging(d.w, rest, names + [x], name);
          if !StageAll(d.w, rest, names + [x]).ok {
            StagedOneMore(w, items[0], names, StageAll(d.w, rest, names + [x]).w.disk, name);
          }
        } else {
          FirstTorn(w, items[0], names, name);
        }
      }
    }
  }

  // ---- rollback ------------------------------------------------------------------------------

  /** Both new keys are empty. */
  predicate StraysGone(d: Disk, p: Plan) {
    MaterialAt(d, p.NewA()) == Material("", "") && MaterialAt(d, p.NewB()) == Material("", "")
  }

  lemma StraysLand(d: Disk, p: Plan)
    requires p.a != p.b && !p.Overlap()
    ensures StraysGone(Outcome(d, Strays(p)), p)
  {
    var s1 := Effect(d, SweepCreds(p.NewA()));
    var s2 := Effect(s1, SetConfig(p.NewA(), ""));
    var s3 := Effect(s2, SweepCreds(p.NewB()));
    OutcomeCons(d, SweepCreds(p.NewA()), Strays(p)[1..]);
    OutcomeCons(s1, SetConfig(p.NewA(), ""), Strays(p)[2..]);
    OutcomeCons(s2, SweepCreds(p.NewB()), Strays(p)[3..]);
    OutcomeCons(s3, SetConfig(p.NewB(), ""), []);
  }

  lemma RestoresLeaveStaging(p: Plan)
    ensures NoStaging(Restores(p)) && NoStaging(Strays(p))
  {
    RestoresSpareStaging(p);
    assert NoStaging([]);
  }

  lemma RestoresSpareStaging(p: Plan)
    ensures NoStaging(Restores(p))
  {
    forall i | 0 <= i < |Restores(p)| ensures !Restores(p)[i].Stage? && !Restores(p)[i].Unstage? { RestoresAre(p, i); }
  }

  /** A rollback in which nothing fails clears the strays and discards every staged copy. */
  lemma UndisturbedRollback(w: World, p: Plan, names: seq<StageName>, name: StageName)
    requires p.a != p.b && Undisturbed(w.fates)
    ensures var e := Rollback(w, p, names);
            && e.failures == 0
            && Parked(e.w.disk, name) == (if name in names then None else Parked(w.disk, name))
            && (!p.Overlap() ==> StraysGone(e.w.disk, p))
  {
    UndisturbedExecAll(w, Restores(p));
    var t := ExecAll(w, Restores(p)).w;
    UndisturbedExecAll(t, Strays(p));
    var u := ExecAll(t, Strays(p)).w;
    RestoresLeaveStaging(p);
    StagingUnmovedByAll(w, Restores(p));
    StagingUnmovedByAll(t, Strays(p));
    UndisturbedDiscard(u, names, name);
    if !p.Overlap() { StraysLand(t.disk, p); }
    DiscardSpares(u, names);
  }

  /** As far as this name goes, staging is as it was, but for the torn file of a failed staging write. */
  ghost predicate StagingBack(d0: Disk, d: Disk, fates: seq<Fate>, name: StageName) {
    Parked(d, name) == Parked(d0, name) || Torn(d, name, fates)
  }

  lemma CopiesHaveNoSweeps(p: Plan)
    ensures NoSweeps(Copies(p)) && NoStaging(Copies(p))
  {
  }

  /** Where a run with one failure stopped, and what is staged there. */
  lemma StoppedOnce(w: World, p: Plan)
    requires p.a != p.b && OneFailureAtMost(w.fates) && !SwapRun(w, p).ok && AfterStaging(w, p).ok
    requires OneFailureAtMost(AfterStaging(w, p).w.fates)
    ensures Undisturbed(Stopped(w, p).fates)
    ensures Stopped(w, p).disk.staging == AfterStaging(w, p).w.disk.staging
  {
    var st := AfterStaging(w, p);
    CopiesHaveNoSweeps(p);
    ExecStops(st.w, Copies(p));
    StagingUnmoved(st.w, Copies(p));
    var d := Exec(st.w, Copies(p));
    if d.ok {
      ApplyDraws(d.w, CommitTo(p.after));
      AfterFate(d.w.fates);
    }
  }

  lemma UnstagedStop(w: World, p: Plan, name: StageName)
    requires p.a != p.b && OneFailureAtMost(w.fates) && !AfterStaging(w, p).ok && NoLeftover(w.disk, p.a, p.b)
    ensures Undisturbed(Stopped(w, p).fates) && StagingBack(w.disk, Stopped(w, p).disk, w.fates, name)
  {
    ItemsDistinct(p);
    FailedStaging(w, Items(p), [], name);
  }

  lemma FatesAfterStaging(w: World, p: Plan)
    requires p.a != p.b && OneFailureAtMost(w.fates) && (p.Overlap() ==> NoLeftover(w.disk, p.a, p.b))
    ensures AfterStaging(w, p).ok ==> OneFailureAtMost(AfterStaging(w, p).w.fates)
  {
    ItemsDistinct(p);
    if p.Overlap() { FailedStaging(w, Items(p), [], CredsOf(p.a)); }
  }

  lemma StagedStop(w: World, p: Plan, name: StageName)
    requires p.a != p.b && OneFailureAtMost(w.fates) && !SwapRun(w, p).ok && AfterStaging(w, p).ok
    requires p.Overlap() ==> NoLeftover(w.disk, p.a, p.b)
    ensures Undisturbed(Stopped(w, p).fates)
    ensures if name in AfterStaging(w, p).names then name !in w.disk.staging
            else Parked(Stopped(w, p).disk, name) == Parked(w.disk, name)
  {
    FatesAfterStaging(w, p);
    StoppedOnce(w, p);
    StagedBy(w, p);
    if p.Overlap() { StagedFilled(w, p); }
  }

  lemma StoppedStaged(w: World, p: Plan, name: StageName)
    requires p.a != p.b && OneFailureAtMost(w.fates) && !SwapRun(w, p).ok
    requires p.Overlap() ==> NoLeftover(w.disk, p.a, p.b)
    ensures Undisturbed(Stopped(w, p).fates)
    ensures var names := if AfterStaging(w, p).ok then AfterStaging(w, p).names else [];
            if name in names then name !in w.disk.staging else StagingBack(w.disk, Stopped(w, p).disk, w.fates, name)
  {
    if AfterStaging(w, p).ok { StagedStop(w, p, name); } else { UnstagedStop(w, p, name); }
  }

  lemma FailedRunIsUndone(w: World, p: Plan, name: StageName)
    requires p.a != p.b && OneFailureAtMost(w.fates) && !SwapRun(w, p).ok
    requires p.Overlap() ==> NoLeftover(w.disk, p.a, p.b)
    ensures var e := SwapRun(w, p);
            && e.failures == 0 && StagingBack(w.disk, e.w.disk, w.fates, name)
            && (!p.Overlap() ==> StraysGone(e.w.disk, p))
  {
    var names := if AfterStaging(w, p).ok then AfterStaging(w, p).names else [];
    FailedRunStops(w, p);
    StoppedStaged(w, p, name);
    UndisturbedRollback(Stopped(w, p), p, names, name);
  }

  lemma TornLater(d: Disk, name: StageName, fates: seq<Fate>, n: nat)
    requires Torn(d, name, Later(fates, n))
    ensures Torn(d, name, fates)
  {
    var i :| 0 <= i < |Later(fates, n)| && !Later(fates, n)[i].ok && Later(fates, n)[i].applied
             && Parked(d, name) == Some(Later(fates, n)[i].junk);
    assert fates[i + n] == Later(fates, n)[i];
  }

  /**
   A swap that fails, and in which nothing but that fails, is undone completely: every account reads
   what it had, no staged copy of this swap is left but the torn file of a staging write, and with
   two emails the new keys are empty, unless a live session had refused the swap at once.
   */
  lemma FailedSwapIsUndone(w: World, a: Slot, b: Slot, name: StageName)
    requires Swappable(w.disk, a, b) && OneFailureAtMost(w.fates) && !Swap(w, a, b).ok
    requires PlanOf(w.disk, a, b).Overlap() ==> NoLeftover(w.disk, a, b)
    ensures var p, e := PlanOf(w.disk, a, b), Swap(w, a, b);
            && e.failures == 0 && ServedAs(w.disk)(e.w.disk)
            && StagingBack(w.disk, e.w.disk, w.fates, name)
            && (!p.Overlap() ==> StraysGone(e.w.disk, p) || e.w.disk == w.disk)
  {
    var p := PlanOf(w.disk, a, b);
    ExecStops(w, [Guard, Guard]);
    GuardsPass(w, |w.seen|, (d: Disk) => d == w.disk);
    var g := Exec(w, [Guard, Guard]);
    if g.ok {
      GuardsDraw(w);
      FailedRunIsUndone(g.w, p, name);
      if Torn(SwapRun(g.w, p).w.disk, name, g.w.fates) { TornLater(SwapRun(g.w, p).w.disk, name, w.fates, 2); }
    }
    SwapFailureRestores(w, a, b);
  }

  // ---- refused over a leftover -----------------------------------------------------------------

  lemma {:induction false} RefusedStaging(w: World, items: seq<Item>, names: seq<StageName>, name: StageName)
    requires Undisturbed(w.fates) && DistinctNames(items) && !StageAll(w, items, names).ok
    requires forall i :: 0 <= i < |items| ==> items[i].name !in names
    ensures Undisturbed(StageAll(w, items, names).w.fates)
    ensures Parked(StageAll(w, items, names).w.disk, name) == if name in names then None else Parked(w.disk, name)
    decreases |items|
  {
    var rest := items[1..];
    assert DistinctNames(rest);
    assert forall i :: 0 <= i < |rest| ==> rest[i] == items[i + 1];
    if items[0].text == "" {
      RefusedStaging(w, rest, names, name);
    } else if items[0].name in w.disk.staging {
      UndisturbedDiscard(w, names, name);
    } else {
      var d := Apply(w, Stage(items[0].name, items[0].text));
      ApplyDraws(w, Stage(items[0].name, items[0].text));
      RefusedStaging(d.w, rest, names + [items[0].name], name);
      assert d.w.disk.staging == w.disk.staging[items[0].name := items[0].text];
    }
  }

  lemma RefusedRun(w: World, p: Plan, name: StageName)
    requires p.a != p.b && p.Overlap() && Undisturbed(w.fates) && !StageAll(w, Items(p), []).ok
    ensures var e := SwapRun(w, p);
            !e.ok && e.failures == 0 && Parked(e.w.disk, name) == Parked(w.disk, name)
  {
    ItemsDistinct(p);
    RefusedStaging(w, Items(p), [], name);
    UndisturbedRollback(StageAll(w, Items(p), []).w, p, [], name);
  }

  /** A swap refused over a leftover, when nothing fails, changes neither staging nor what anybody reads. */
  lemma RefusalChangesNothing(w: World, a: Slot, b: Slot)
    requires Swappable(w.disk, a, b) && Undisturbed(w.fates) && LeftoverInTheWay(w.disk, PlanOf(w.disk, a, b))
    ensures var e := Swap(w, a, b);
            !e.ok && ServedAs(w.disk)(e.w.disk) && e.w.disk.staging == w.disk.staging
  {
    var p := PlanOf(w.disk, a, b);
    LeftoverRefuses(w, a, b);
    UndisturbedExec(w, [Guard, Guard]);
    GuardsDraw(w);
    var g := Exec(w, [Guard, Guard]).w;
    ItemsDistinct(p);
    if StageAll(g, Items(p), []).ok { StagingFills(g, Items(p), []); }
    var d := Swap(w, a, b).w.disk;
    forall name ensures (name in d.staging <==> name in w.disk.staging)
                        && (name in d.staging ==> d.staging[name] == w.disk.staging[name])
    {
      RefusedRun(g, p, name);
      assert Parked(d, name) == Parked(w.disk, name);
    }
    RefusedRun(g, p, CredsOf(a));
    SameStaging(d.staging, w.disk.staging);
    SwapFailureRestores(w, a, b);
  }

  // ---- a move that fails ---------------------------------------------------------------------------

  /** A move that fails, and in which nothing but that fails, leaves nothing under the new key, unless a session refused it at once. */
  lemma FailedMoveIsUndone(w: World, src: Slot, target: Slot)
    requires Movable(w.disk, src, target) && OneFailureAtMost(w.fates) && !Relocate(w, src, target).ok
    ensures var e := Relocate(w, src, target);
            && e.failures == 0 && ServedAs(w.disk)(e.w.disk)
            && (MaterialAt(e.w.disk, Key(target, w.disk.roster.accounts[src].email)) == Material("", "") || e.w.disk == w.disk)
  {
    MoveServesThroughout(w, src, target);
    var from := KeyOf(w.disk.roster, src);
    var to := Key(target, from.email);
    ExecStops(w, [Guard]);
    ExecHolds(w, [Guard], |w.seen|, (d: Disk) => d == w.disk);
    var g := Exec(w, [Guard]);
    if g.ok {
      var copies := MoveCopies(to, MaterialAt(w.disk, from));
      ExecStops(g.w, copies);
      var d := Exec(g.w, copies);
      var c := if d.ok then Apply(d.w, CommitTo(Renumber(w.disk.roster, src, target))) else d;
      if d.ok {
        ApplyDraws(d.w, CommitTo(Renumber(w.disk.roster, src, target)));
        AfterFate(d.w.fates);
      }
      UndisturbedExecAll(c.w, [SweepCreds(to), SetConfig(to, "")]);
      UndoLands(c.w.disk, to);
    }
  }

  lemma UndoLands(d: Disk, k: Key)
    ensures MaterialAt(Outcome(d, [SweepCreds(k), SetConfig(k, "")]), k) == Material("", "")
  {
    OutcomeCons(d, SweepCreds(k), [SetConfig(k, "")]);
    OutcomeCons(Effect(d, SweepCreds(k)), SetConfig(k, ""), []);
    assert [SweepCreds(k)] + [SetConfig(k, "")] == [SweepCreds(k), SetConfig(k, "")];
    assert [SetConfig(k, "")] + [] == [SetConfig(k, "")];
  }
}
