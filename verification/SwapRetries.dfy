/**
 Crashes and retries: a swap that dies anywhere and is attempted again, any number of times.
 */
module SwapRetries {
  import opened Basics
  import opened Rosters
  import opened SlotStore
  import opened StoreSteps
  import opened MoveSwap
  import opened SwapSafety
  import opened SwapRuns
  import opened SwapTheorems

  /** `e` is a state that an attempt started from `d` may leave behind, dying at any point. */
  ghost predicate LeftBehind(d: Disk, e: Disk, a: Slot, b: Slot, fates: seq<Fate>, i: nat) {
    && Swappable(d, a, b)
    && i < |Swap(World(d, [d], fates), a, b).w.seen|
    && e == Swap(World(d, [d], fates), a, b).w.seen[i]
  }

  ghost predicate Attempt(d: Disk, e: Disk, a: Slot, b: Slot) {
    exists fates, i :: LeftBehind(d, e, a, b, fates, i)
  }

  ghost predicate Attempts(run: seq<Disk>, a: Slot, b: Slot) {
    forall i, j :: 0 <= i < |run| && j == i + 1 && j < |run| ==> Attempt(run[i], run[j], a, b)
  }

  // ---- staging files left by earlier attempts --------------------------------------------

  lemma SwapStepsSpareStaging(p: Plan, name: StageName, c: string)
    ensures AllKeep(ParkedAs(name, c), Copies(p)) && AllKeep(ParkedAs(name, c), Restores(p))
    ensures AllKeep(ParkedAs(name, c), Strays(p))
    ensures AllKeep(ParkedAs(name, c), Retire(p.OldA())) && AllKeep(ParkedAs(name, c), Retire(p.OldB()))
  {
    forall i | 0 <= i < |Restores(p)| ensures !TouchesStage(Restores(p)[i], name) { RestoresAre(p, i); }
    SparingStage(Copies(p), name, c);
    SparingStage(Restores(p), name, c);
    SparingStage(Strays(p), name, c);
    SparingStage(Retire(p.OldA()), name, c);
    SparingStage(Retire(p.OldB()), name, c);
  }

  lemma RollbackSparesLeftover(w: World, p: Plan, names: seq<StageName>, n: nat, name: StageName, c: string)
    requires HeldSince(w, n, ParkedAs(name, c)) && name !in names
    ensures HeldSince(Rollback(w, p, names).w, n, ParkedAs(name, c))
  {
    SwapStepsSpareStaging(p, name, c);
    var q := ParkedAs(name, c);
    ExecAllHolds(w, Restores(p), n, q);
    var t := ExecAll(w, Restores(p)).w;
    ExecAllHolds(t, Strays(p), n, q);
    DiscardLeaves(ExecAll(t, Strays(p)).w, names, n, name, c);
  }

  lemma TidySparesLeftover(w: World, p: Plan, n: nat, name: StageName, c: string)
    requires HeldSince(w, n, ParkedAs(name, c))
    ensures HeldSince(Tidy(w, p), n, ParkedAs(name, c))
  {
    SwapStepsSpareStaging(p, name, c);
    if !p.Overlap() {
      ExecHolds(w, Retire(p.OldA()), n, ParkedAs(name, c));
      ExecHolds(Exec(w, Retire(p.OldA())).w, Retire(p.OldB()), n, ParkedAs(name, c));
    }
  }

  lemma RunSparesLeftover(w: World, p: Plan, n: nat, name: StageName, c: string)
    requires HeldSince(w, n, ParkedAs(name, c)) && c != ""
    ensures HeldSince(SwapRun(w, p).w, n, ParkedAs(name, c))
  {
    var q := ParkedAs(name, c);
    SwapStepsSpareStaging(p, name, c);
    LeftoverStays(w, Items(p), [], n, name, c);
    var st := AfterStaging(w, p);
    if !st.ok {
      RollbackSparesLeftover(st.w, p, [], n, name, c);
    } else {
      ExecHolds(st.w, Copies(p), n, q);
      var d := Exec(st.w, Copies(p));
      if !d.ok {
        RollbackSparesLeftover(d.w, p, st.names, n, name, c);
      } else {
        ApplyHolds(d.w, CommitTo(p.after), n, q);
        var k := Apply(d.w, CommitTo(p.after));
        RollbackSparesLeftover(k.w, p, st.names, n, name, c);
        TidySparesLeftover(k.w, p, n, name, c);
        DiscardLeaves(Tidy(k.w, p), st.names, n, name, c);
      }
    }
  }

  /** No swap overwrites or removes a staging file that an earlier one left behind. */
  lemma SwapSparesLeftover(w: World, a: Slot, b: Slot, name: StageName, c: string)
    requires Swappable(w.disk, a, b) && c != "" && Parked(w.disk, name) == Some(c)
    ensures HeldSince(Swap(w, a, b).w, |w.seen|, ParkedAs(name, c))
  {
    GuardsPass(w, |w.seen|, ParkedAs(name, c));
    var g := Exec(w, [Guard, Guard]);
    if g.ok { RunSparesLeftover(g.w, PlanOf(w.disk, a, b), |w.seen|, name, c); }
  }

  // ---- the roster ------------------------------------------------------------------------

  ghost function RosterIs(r: Roster): Disk -> bool {
    (d: Disk) => d.roster == r
  }

  ghost function RosterEither(r: Roster, s: Roster): Disk -> bool {
    (d: Disk) => d.roster == r || d.roster == s
  }

  lemma NoCommitKeepsRoster(steps: seq<Step>, r: Roster)
    requires forall i :: 0 <= i < |steps| ==> !steps[i].CommitTo?
    ensures AllKeep(RosterIs(r), steps)
  {
  }

  /** The roster is the old one or the exchanged one at every moment. */
  lemma SwapRosterIsEither(w: World, a: Slot, b: Slot)
    requires Swappable(w.disk, a, b)
    ensures AllSince(Swap(w, a, b).w, |w.seen|, RosterEither(w.disk.roster, Exchange(w.disk.roster, a, b)))
  {
    var p := PlanOf(w.disk, a, b);
    var q, f, r := RosterIs(p.before), RosterIs(p.after), RosterEither(p.before, p.after);
    GuardsPass(w, |w.seen|, q);
    var g := Exec(w, [Guard, Guard]);
    if g.ok {
      forall i | 0 <= i < |Restores(p)| ensures !Restores(p)[i].CommitTo? { RestoresAre(p, i); }
      NoCommitKeepsRoster(Copies(p), p.before);
      NoCommitKeepsRoster(Restores(p), p.before);
      NoCommitKeepsRoster(Strays(p), p.before);
      NoCommitKeepsRoster(Retire(p.OldA()), p.after);
      NoCommitKeepsRoster(Retire(p.OldB()), p.after);
      if p.Overlap() { StagingHolds(g.w, Items(p), [], |g.w.seen|, q); }
      if SwapRun(g.w, p).ok {
        RunOk(g.w, p, |w.seen|, q, q, f, r);
      } else {
        RunFails(g.w, p, |w.seen|, q, q, f, r);
      }
    }
  }

  // ---- one email -------------------------------------------------------------------------

  predicate SameEmail(d: Disk, a: Slot, b: Slot, e: string) {
    Swappable(d, a, b) && d.roster.accounts[a].email == e && d.roster.accounts[b].email == e
  }

  /** Some copy of the credential is under one of the two keys or in one of the two staging files. */
  predicate SomeCopy(d: Disk, a: Slot, b: Slot, e: string, c: string) {
    || Read(d.creds, Key(a, e)) == c
    || Read(d.creds, Key(b, e)) == c
    || Parked(d, CredsOf(a)) == Some(c)
    || Parked(d, CredsOf(b)) == Some(c)
  }

  lemma HistoryKept(d: Disk, a: Slot, b: Slot, fates: seq<Fate>)
    requires Swappable(d, a, b)
    ensures [d] <= Swap(World(d, [d], fates), a, b).w.seen
  {
    var w := World(d, [d], fates);
    var p := PlanOf(d, a, b);
    ExecGrows(w, [Guard, Guard]);
    var g := Exec(w, [Guard, Guard]);
    if g.ok { RunGrows(g.w, p); }
  }

  lemma RollbackGrows(w: World, p: Plan, names: seq<StageName>)
    ensures w.seen <= Rollback(w, p, names).w.seen
  {
    ExecGrows(w, Restores(p));
    ExecGrows(ExecAll(w, Restores(p)).w, Strays(p));
    DiscardGrows(ExecAll(ExecAll(w, Restores(p)).w, Strays(p)).w, names);
  }

  lemma RunGrows(w: World, p: Plan)
    ensures w.seen <= SwapRun(w, p).w.seen
  {
    StagingGrows(w, Items(p), []);
    var st := AfterStaging(w, p);
    RollbackGrows(st.w, p, []);
    ExecGrows(st.w, Copies(p));
    var d := Exec(st.w, Copies(p));
    RollbackGrows(d.w, p, st.names);
    ApplyGrowsHistory(d.w, CommitTo(p.after));
    var c := Apply(d.w, CommitTo(p.after)).w;
    RollbackGrows(c, p, st.names);
    ExecGrows(c, Retire(p.OldA()));
    ExecGrows(Exec(c, Retire(p.OldA())).w, Retire(p.OldB()));
    DiscardGrows(Tidy(c, p), st.names);
  }

  lemma AttemptKeepsACopy(d: Disk, s: Disk, a: Slot, b: Slot, e: string, c: string)
    requires SameEmail(d, a, b, e) && SomeCopy(d, a, b, e, c) && c != ""
    requires Attempt(d, s, a, b)
    ensures SomeCopy(s, a, b, e, c) && SameEmail(s, a, b, e)
  {
    var fates, i :| LeftBehind(d, s, a, b, fates, i);
    var w := World(d, [d], fates);
    HistoryKept(d, a, b, fates);
    SwapRosterIsEither(w, a, b);
    if i == 0 {
      assert s == d;
    } else if Parked(d, CredsOf(a)) == Some(c) {
      SwapSparesLeftover(w, a, b, CredsOf(a), c);
      assert ParkedAs(CredsOf(a), c)(s);
    } else if Parked(d, CredsOf(b)) == Some(c) {
      SwapSparesLeftover(w, a, b, CredsOf(b), c);
      assert ParkedAs(CredsOf(b), c)(s);
    } else {
      var first := Read(d.creds, Key(a, e)) == c;
      SwapNeverLosesCreds(w, a, b, first);
      assert CredsHeld(PlanOf(d, a, b), first)(s);
    }
    assert i > 0 ==> RosterEither(d.roster, Exchange(d.roster, a, b))(s);
  }

  /**
   Two accounts that share an email, any number of attempts to swap them, each dying anywhere:
   a credential that either of them had is still under one of the two keys or parked beside them.
   */
  lemma {:induction false} RetriesKeepACopy(run: seq<Disk>, a: Slot, b: Slot, e: string, c: string, i: nat)
    requires Attempts(run, a, b) && i < |run|
    requires SameEmail(run[0], a, b, e) && SomeCopy(run[0], a, b, e, c) && c != ""
    ensures SomeCopy(run[i], a, b, e, c) && SameEmail(run[i], a, b, e)
  {
    if i > 0 {
      RetriesKeepACopy(run, a, b, e, c, i - 1);
      AttemptKeepsACopy(run[i - 1], run[i], a, b, e, c);
    }
  }

  // ---- two emails ------------------------------------------------------------------------

  /** The account in slot `n` of `d` is in slot `m` of `s`, and reads the same credential there. */
  predicate Follows(d: Disk, s: Disk, n: Slot, m: Slot) {
    && n in d.roster.accounts && m in s.roster.accounts
    && s.roster.accounts[m] == d.roster.accounts[n]
    && Read(s.creds, KeyOf(s.roster, m)) == Read(d.creds, KeyOf(d.roster, n))
  }

  predicate TwoEmails(d: Disk, a: Slot, b: Slot) {
    Swappable(d, a, b) && d.roster.accounts[a].email != d.roster.accounts[b].email
  }

  lemma AttemptServes(d: Disk, s: Disk, a: Slot, b: Slot, n: Slot) returns (m: Slot)
    requires TwoEmails(d, a, b) && Attempt(d, s, a, b) && n in d.roster.accounts
    ensures Follows(d, s, n, m) && TwoEmails(s, a, b)
  {
    var fates, i :| LeftBehind(d, s, a, b, fates, i);
    var w := World(d, [d], fates);
    HistoryKept(d, a, b, fates);
    SwapServesThroughout(w, a, b);
    if i == 0 {
      m := n;
    } else {
      assert CredsServedEither(d, a, b)(s);
      m := if CredsServed(d)(s) then n else SwapSlot(n, a, b);
    }
  }

  lemma FollowsOn(d: Disk, s: Disk, t: Disk, n: Slot, k: Slot, m: Slot)
    requires Follows(d, s, n, k) && Follows(s, t, k, m)
    ensures Follows(d, t, n, m)
  {
  }

  /** Two accounts with different emails: after any such history every account is still served. */
  lemma {:induction false} RetriesServeEveryone(run: seq<Disk>, a: Slot, b: Slot, n: Slot, i: nat) returns (m: Slot)
    requires Attempts(run, a, b) && i < |run|
    requires TwoEmails(run[0], a, b) && n in run[0].roster.accounts
    ensures Follows(run[0], run[i], n, m) && TwoEmails(run[i], a, b)
  {
    if i == 0 {
      m := n;
    } else {
      var k := RetriesServeEveryone(run, a, b, n, i - 1);
      assert Attempt(run[i - 1], run[i], a, b);
      m := AttemptServes(run[i - 1], run[i], a, b, k);
      FollowsOn(run[0], run[i - 1], run[i], n, k, m);
    }
  }
}
