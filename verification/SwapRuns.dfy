/**
 The shape of a swap run, once and for all: which facts carry it from phase to phase. A fact `q`
 holds of the original backups, `m` from the end of staging to the commit, `f` of the committed
 result; `r` is what follows from each of them.
 */
module SwapRuns {
  import opened Basics
  import opened Rosters
  import opened SlotStore
  import opened StoreSteps
  import opened MoveSwap
  import opened SwapSafety

  lemma ExecStretch(w: World, steps: seq<Step>, n: nat, p: Disk -> bool, r: Disk -> bool)
    requires AllSince(w, n, r) && p(w.disk) && AllKeep(p, steps) && Implies(p, r)
    ensures AllSince(Exec(w, steps).w, n, r) && p(Exec(w, steps).w.disk)
    ensures AllSince(ExecAll(w, steps).w, n, r) && p(ExecAll(w, steps).w.disk)
  {
    ExecHolds(w, steps, |w.seen|, p);
    ExecAllHolds(w, steps, |w.seen|, p);
    ExecGrows(w, steps);
    Extend(w, Exec(w, steps).w, n, p, r);
    Extend(w, ExecAll(w, steps).w, n, p, r);
  }

  lemma DiscardStretch(w: World, names: seq<StageName>, n: nat, p: Disk -> bool, r: Disk -> bool)
    requires AllSince(w, n, r) && p(w.disk) && StagingBlind(p) && Implies(p, r)
    ensures AllSince(Discard(w, names), n, r) && p(Discard(w, names).disk)
  {
    ExecStretch(w, Unstages(names), n, p, r);
  }

  lemma StagingStretch(w: World, p: Plan, n: nat, q: Disk -> bool, r: Disk -> bool)
    requires AllSince(w, n, r) && q(w.disk) && StagingBlind(q) && Implies(q, r)
    ensures AllSince(StageAll(w, Items(p), []).w, n, r) && q(StageAll(w, Items(p), []).w.disk)
  {
    StagingHolds(w, Items(p), [], |w.seen|, q);
    StagingGrows(w, Items(p), []);
    Extend(w, StageAll(w, Items(p), []).w, n, q, r);
  }

  lemma CommitStretch(w: World, roster: Roster, n: nat, m: Disk -> bool, f: Disk -> bool, r: Disk -> bool)
    requires AllSince(w, n, r) && m(w.disk) && f(w.disk.(roster := roster))
    requires Implies(m, r) && Implies(f, r)
    ensures AllSince(Apply(w, CommitTo(roster)).w, n, r)
    ensures if Apply(w, CommitTo(roster)).ok then f(Apply(w, CommitTo(roster)).w.disk)
            else Apply(w, CommitTo(roster)).w.disk == w.disk
  {
    ApplyGoesThrough(w, CommitTo(roster));
  }

  function AfterStaging(w: World, p: Plan): Staged {
    if p.Overlap() then StageAll(w, Items(p), []) else Staged(true, [], w)
  }

  /** Writing the new keys turns `m` into `f` at the commit. */
  ghost predicate Completes(p: Plan, m: Disk -> bool, f: Disk -> bool) {
    forall d, s :: m(d) && PutsBoth(d, s, p.NewA(), p.ma, p.NewB(), p.mb) ==> f(s.(roster := p.after))
  }

  lemma CopiesStretch(w: World, p: Plan, n: nat, m: Disk -> bool, f: Disk -> bool, r: Disk -> bool)
    requires p.a != p.b
    requires AllSince(w, n, r) && m(w.disk) && AllKeep(m, Copies(p)) && Implies(m, r)
    requires Completes(p, m, f)
    ensures AllSince(Exec(w, Copies(p)).w, n, r) && m(Exec(w, Copies(p)).w.disk)
    ensures Exec(w, Copies(p)).ok ==> f(Exec(w, Copies(p)).w.disk.(roster := p.after))
  {
    ExecStretch(w, Copies(p), n, m, r);
    if Exec(w, Copies(p)).ok {
      ExecLands(w, Copies(p));
      CopiesLand(w.disk, p);
      assert PutsBoth(w.disk, Exec(w, Copies(p)).w.disk, p.NewA(), p.ma, p.NewB(), p.mb);
    }
  }

  lemma TidyStretch(w: World, p: Plan, n: nat, f: Disk -> bool, r: Disk -> bool)
    requires AllSince(w, n, r) && f(w.disk) && Implies(f, r)
    requires p.Overlap() || (AllKeep(f, Retire(p.OldA())) && AllKeep(f, Retire(p.OldB())))
    ensures AllSince(Tidy(w, p), n, r) && f(Tidy(w, p).disk)
  {
    if !p.Overlap() {
      ExecStretch(w, Retire(p.OldA()), n, f, r);
      ExecStretch(Exec(w, Retire(p.OldA())).w, Retire(p.OldB()), n, f, r);
    }
  }

  ghost predicate Carries(w: World, p: Plan, q: Disk -> bool, m: Disk -> bool) {
    && StagingBlind(q)
    && (if p.Overlap() then StageAll(w, Items(p), []).ok ==> m(StageAll(w, Items(p), []).w.disk) else Implies(q, m))
  }

  lemma RunOk(w: World, p: Plan, n: nat, q: Disk -> bool, m: Disk -> bool, f: Disk -> bool, r: Disk -> bool)
    requires p.a != p.b && SwapRun(w, p).ok
    requires HeldSince(w, n, q) && Carries(w, p, q, m)
    requires AllKeep(m, Copies(p)) && Completes(p, m, f)
    requires StagingBlind(f)
    requires p.Overlap() || (AllKeep(f, Retire(p.OldA())) && AllKeep(f, Retire(p.OldB())))
    requires Implies(q, r) && Implies(m, r) && Implies(f, r)
    ensures AllSince(SwapRun(w, p).w, n, r) && f(SwapRun(w, p).w.disk)
  {
    if p.Overlap() { StagingStretch(w, p, n, q, r); }
    var st := AfterStaging(w, p);
    CopiesStretch(st.w, p, n, m, f, r);
    var d := Exec(st.w, Copies(p));
    CommitStretch(d.w, p.after, n, m, f, r);
    var c := Apply(d.w, CommitTo(p.after));
    TidyStretch(c.w, p, n, f, r);
    DiscardStretch(Tidy(c.w, p), st.names, n, f, r);
  }

  /** Putting the originals back turns `m` into `q` again. */
  ghost predicate Undoes(p: Plan, m: Disk -> bool, q: Disk -> bool) {
    forall d, s :: m(d) && PutsBoth(d, s, p.OldA(), p.ma, p.OldB(), p.mb) ==> q(s)
  }

  lemma RollbackStretch(w: World, p: Plan, names: seq<StageName>, n: nat, m: Disk -> bool, q: Disk -> bool,
                        r: Disk -> bool)
    requires p.a != p.b
    requires AllSince(w, n, r) && m(w.disk) && Implies(m, r) && Implies(q, r)
    requires AllKeep(m, Restores(p)) && AllKeep(m, Strays(p))
    requires StagingBlind(q)
    requires p.Overlap() || names == []
    requires p.Overlap() ==> Undoes(p, m, q)
    ensures AllSince(Rollback(w, p, names).w, n, r)
  {
    ExecStretch(w, Restores(p), n, m, r);
    var t := ExecAll(w, Restores(p));
    ExecStretch(t.w, Strays(p), n, m, r);
    var u := ExecAll(t.w, Strays(p));
    if p.Overlap() {
      assert u.w == t.w;
      if t.failures == 0 {
        assert NoSweeps(Restores(p));
        ExecAllLands(w, Restores(p));
        RestoresLand(w.disk, p);
        assert q(t.w.disk);
        DiscardStretch(t.w, names, n, q, r);
      }
    }
  }

  /** Where a failed run stopped before its rollback. */
  function Stopped(w: World, p: Plan): World {
    var st := AfterStaging(w, p);
    if !st.ok then st.w
    else
      var d := Exec(st.w, Copies(p));
      if !d.ok then d.w else Apply(d.w, CommitTo(p.after)).w
  }

  lemma RunFails(w: World, p: Plan, n: nat, q: Disk -> bool, m: Disk -> bool, f: Disk -> bool, r: Disk -> bool)
    requires p.a != p.b && !SwapRun(w, p).ok
    requires HeldSince(w, n, q) && Carries(w, p, q, m)
    requires AllKeep(m, Copies(p)) && AllKeep(m, Restores(p)) && AllKeep(m, Strays(p))
    requires AllKeep(q, Restores(p)) && AllKeep(q, Strays(p))
    requires Completes(p, m, f) && (p.Overlap() ==> Undoes(p, m, q))
    requires p.Overlap() ==> Undoes(p, q, q)
    requires Implies(q, r) && Implies(m, r) && Implies(f, r)
    ensures AllSince(SwapRun(w, p).w, n, r)
  {
    if p.Overlap() { StagingStretch(w, p, n, q, r); }
    var st := AfterStaging(w, p);
    if !st.ok {
      RollbackStretch(st.w, p, [], n, q, q, r);
    } else {
      CopiesStretch(st.w, p, n, m, f, r);
      var d := Exec(st.w, Copies(p));
      if d.ok {
        CommitStretch(d.w, p.after, n, m, f, r);
        RollbackStretch(Apply(d.w, CommitTo(p.after)).w, p, st.names, n, m, q, r);
      } else {
        RollbackStretch(d.w, p, st.names, n, m, q, r);
      }
    }
  }
}
