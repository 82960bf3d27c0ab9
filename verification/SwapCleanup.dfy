/**
 What a swap and a move leave behind once they have succeeded: no staged copy of theirs, and
 nothing under an old key, except what a removal of its own failed to remove.
 */
module SwapCleanup {
  import opened Basics
  import opened Rosters
  import opened SlotStore
  import opened StoreSteps
  import opened MoveSwap
  import opened SwapSafety
  import opened SwapRuns
  import opened SwapTheorems
  import opened MoveTheorems
  import Spans
  import opened Retiring

  ghost function StagingIs(staging: map<StageName, string>): Disk -> bool {
    (d: Disk) => d.staging == staging
  }

  /** None of these steps is about staging files. */
  ghost predicate NoStaging(steps: seq<Step>) {
    forall i :: 0 <= i < |steps| ==> !steps[i].Stage? && !steps[i].Unstage?
  }

  lemma StagingUnmoved(w: World, steps: seq<Step>)
    requires NoStaging(steps)
    ensures Exec(w, steps).w.disk.staging == w.disk.staging
  {
    ExecHolds(w, steps, |w.seen|, StagingIs(w.disk.staging));
  }

  // ---- staged copies ---------------------------------------------------------------------

  /** The names of the items that there is something to stage of, in order. */
  function StagedNames(items: seq<Item>): seq<StageName> {
    if items == [] then []
    else (if items[0].text == "" then [] else [items[0].name]) + StagedNames(items[1..])
  }

  lemma {:induction false} StagedNamesAre(items: seq<Item>, name: StageName)
    ensures name in StagedNames(items) <==> exists i :: 0 <= i < |items| && items[i].name == name && items[i].text != ""
  {
    if items != [] {
      StagedNamesAre(items[1..], name);
      if i :| 0 <= i < |items[1..]| && items[1..][i].name == name && items[1..][i].text != "" {
        assert items[i + 1].name == name && items[i + 1].text != "";
      }
      if i :| 0 <= i < |items| && items[i].name == name && items[i].text != "" {
        assert i > 0 ==> items[1..][i - 1].name == name && items[1..][i - 1].text != "";
      }
    }
  }

  lemma {:induction false} StagedNamesDistinct(items: seq<Item>)
    requires DistinctNames(items)
    ensures NoRepeats(StagedNames(items))
  {
    if items != [] {
      assert DistinctNames(items[1..]);
      StagedNamesDistinct(items[1..]);
      StagedNamesAre(items[1..], items[0].name);
    }
  }

  /** These names were free and are filled now; every other name is parked as before. */
  ghost predicate Filled(d: Disk, s: Disk, names: seq<StageName>) {
    && (forall name :: name in names ==> name !in d.staging && name in s.staging)
    && forall name :: name !in names ==> Parked(s, name) == Parked(d, name)
  }

  lemma FilledFirst(d: Disk, name: StageName, text: string, s: Disk, rest: seq<StageName>)
    requires name !in d.staging && name !in rest && Filled(d.(staging := d.staging[name := text]), s, rest)
    ensures Filled(d, s, [name] + rest)
  {
    var e := d.(staging := d.staging[name := text]);
    assert Parked(s, name) == Parked(e, name) == Some(text);
    assert forall x :: x in [name] + rest <==> x == name || x in rest;
  }

  /** A staging that succeeded found every name free, has filled it, and has drawn a fate for each. */
  lemma {:induction false} StagingFills(w: World, items: seq<Item>, names: seq<StageName>)
    requires StageAll(w, items, names).ok && DistinctNames(items)
    ensures var st := StageAll(w, items, names);
            && st.names == names + StagedNames(items)
            && st.w.fates == Later(w.fates, |StagedNames(items)|)
            && Filled(w.disk, st.w.disk, StagedNames(items))
    decreases |items|
  {
    if items != [] {
      var rest := items[1..];
      assert DistinctNames(rest);
      if items[0].text == "" {
        StagingFills(w, rest, names);
        assert StagedNames(items) == StagedNames(rest);
      } else {
        var x := items[0].name;
        var d := Apply(w, Stage(x, items[0].text));
        ApplyDraws(w, Stage(x, items[0].text));
        assert d.w.disk == w.disk.(staging := w.disk.staging[x := items[0].text]);
        StagingFills(d.w, rest, names + [x]);
        StagedNamesAre(rest, x);
        LaterOn(w.fates, 1, |StagedNames(rest)|);
        FilledFirst(w.disk, x, items[0].text, StageAll(d.w, rest, names + [x]).w.disk, StagedNames(rest));
        assert names + [x] + StagedNames(rest) == names + StagedNames(items);
      }
    }
  }

  /** The removal of this name, the first of which draws fate `i`, worked. */
  ghost predicate Removed(names: seq<StageName>, name: StageName, fates: seq<Fate>, i: nat) {
    exists k :: 0 <= k < |names| && names[k] == name && FateAt(fates, i + k).ok
  }

  lemma RemovedCons(names: seq<StageName>, name: StageName, fates: seq<Fate>)
    requires names != []
    ensures Removed(names, name, fates, 0)
       <==> (names[0] == name && FateAt(fates, 0).ok) || Removed(names[1..], name, Later(fates, 1), 0)
  {
    if k :| 0 <= k < |names| && names[k] == name && FateAt(fates, 0 + k).ok {
      if k > 0 {
        LaterOn(fates, 1, k - 1);
        assert names[1..][k - 1] == name && FateAt(Later(fates, 1), 0 + (k - 1)).ok;
      }
    }
    if k :| 0 <= k < |names[1..]| && names[1..][k] == name && FateAt(Later(fates, 1), 0 + k).ok {
      LaterOn(fates, 1, k);
      assert names[k + 1] == name && FateAt(fates, 0 + (k + 1)).ok;
    }
  }

  lemma {:induction false} DiscardRemoves(w: World, names: seq<StageName>, name: StageName)
    ensures Parked(Discard(w, names).disk, name) == if Removed(names, name, w.fates, 0) then None else Parked(w.disk, name)
    decreases |names|
  {
    if names != [] {
      var step := Unstage(names[0]);
      assert Unstages(names) == [step] + Unstages(names[1..]);
      ExecCons(w, step, Unstages(names[1..]));
      ApplyDraws(w, step);
      EndIsHop(w, step);
      DiscardRemoves(Apply(w, step).w, names[1..], name);
      RemovedCons(names, name, w.fates);
    }
  }

  lemma DiscardSpares(w: World, names: seq<StageName>)
    ensures Discard(w, names).disk == w.disk.(staging := Discard(w, names).disk.staging)
  {
    DiscardHolds(w, names, |w.seen|, (d: Disk) => d == w.disk.(staging := d.staging));
  }

  // ---- a swap that succeeded -----------------------------------------------------------------

  lemma RemovedShifts(names: seq<StageName>, name: StageName, fates: seq<Fate>, i: nat)
    ensures Removed(names, name, Later(fates, i), 0) <==> Removed(names, name, fates, i)
  {
    if k :| 0 <= k < |names| && names[k] == name && FateAt(Later(fates, i), 0 + k).ok {
      LaterOn(fates, i, k);
      assert FateAt(fates, i + k).ok;
    }
    if k :| 0 <= k < |names| && names[k] == name && FateAt(fates, i + k).ok {
      LaterOn(fates, i, k);
      assert FateAt(Later(fates, i), 0 + k).ok;
    }
  }

  /** A copy of this swap's own making, whose removal failed: two guards, the copies, four writes and the commit come first. */
  ghost predicate Stuck(p: Plan, fates: seq<Fate>, name: StageName) {
    var names := StagedNames(Items(p));
    p.Overlap() && name in names && !Removed(names, name, fates, 7 + |names|)
  }

  /** The end of the writes of a swap that succeeds: the commit is done, the clean-up is to come. */
  function Committed(w: World, p: Plan): World {
    Apply(Exec(AfterStaging(w, p).w, Copies(p)).w, CommitTo(p.after)).w
  }

  /** The four writes and the commit draw five fates and no staging file. */
  lemma WritesDraw(w: World, p: Plan)
    requires Exec(w, Copies(p)).ok && Apply(Exec(w, Copies(p)).w, CommitTo(p.after)).ok
    ensures var c := Apply(Exec(w, Copies(p)).w, CommitTo(p.after)).w;
            c.fates == Later(w.fates, 5) && c.disk.staging == w.disk.staging
  {
    ExecDraws(w, Copies(p));
    StagingUnmoved(w, Copies(p));
    ApplyDraws(Exec(w, Copies(p)).w, CommitTo(p.after));
    LaterOn(w.fates, 4, 1);
  }

  lemma RunUnfolds(w: World, p: Plan)
    requires SwapRun(w, p).ok
    ensures var st := AfterStaging(w, p);
            && st.ok && Exec(st.w, Copies(p)).ok && Apply(Exec(st.w, Copies(p)).w, CommitTo(p.after)).ok
            && SwapRun(w, p).w == Discard(Tidy(Committed(w, p), p), st.names)
  {
  }

  lemma StagedBy(w: World, p: Plan)
    requires p.a != p.b && AfterStaging(w, p).ok
    ensures var names := if p.Overlap() then StagedNames(Items(p)) else [];
            AfterStaging(w, p).names == names && AfterStaging(w, p).w.fates == Later(w.fates, |names|)
  {
    ItemsDistinct(p);
    if p.Overlap() {
      StagingFills(w, Items(p), []);
      assert [] + StagedNames(Items(p)) == StagedNames(Items(p));
    }
  }

  lemma SucceededRun(w: World, p: Plan)
    requires p.a != p.b && SwapRun(w, p).ok
    ensures var names := if p.Overlap() then StagedNames(Items(p)) else [];
            && AfterStaging(w, p).names == names
            && SwapRun(w, p).w == Discard(Tidy(Committed(w, p), p), names)
            && Committed(w, p).fates == Later(w.fates, 5 + |names|)
            && Committed(w, p).disk.staging == AfterStaging(w, p).w.disk.staging
  {
    RunUnfolds(w, p);
    StagedBy(w, p);
    WritesDraw(AfterStaging(w, p).w, p);
    LaterOn(w.fates, |AfterStaging(w, p).names|, 5);
  }

  lemma GuardsDraw(w: World)
    requires Exec(w, [Guard, Guard]).ok
    ensures Exec(w, [Guard, Guard]).w.fates == Later(w.fates, 2) && Exec(w, [Guard, Guard]).w.disk == w.disk
  {
    ExecDraws(w, [Guard, Guard]);
    GuardsPass(w, |w.seen|, (d: Disk) => d == w.disk);
  }

  ghost predicate ClearedBut(d0: Disk, d: Disk, name: StageName, stuck: bool) {
    && (name in d.staging <==> name in d0.staging || stuck)
    && (name in d0.staging ==> Parked(d, name) == Parked(d0, name))
  }

  lemma DiscardClears(d0: Disk, w: World, names: seq<StageName>, name: StageName)
    requires Filled(d0, w.disk, names)
    ensures ClearedBut(d0, Discard(w, names).disk, name, name in names && !Removed(names, name, w.fates, 0))
  {
    DiscardRemoves(w, names, name);
    assert Removed(names, name, w.fates, 0) ==> name in names;
    assert name !in names ==> Parked(w.disk, name) == Parked(d0, name);
  }

  lemma StagedFilled(w: World, p: Plan)
    requires p.a != p.b && p.Overlap() && AfterStaging(w, p).ok
    ensures Filled(w.disk, AfterStaging(w, p).w.disk, StagedNames(Items(p)))
  {
    ItemsDistinct(p);
    StagingFills(w, Items(p), []);
  }

  /** What the clean-up of a swap between two accounts of one email starts from. */
  lemma OverlapCommitted(w: World, p: Plan, names: seq<StageName>)
    requires p.a != p.b && p.Overlap() && SwapRun(w, p).ok && names == StagedNames(Items(p))
    ensures Filled(w.disk, Committed(w, p).disk, names)
    ensures SwapRun(w, p).w == Discard(Committed(w, p), names)
    ensures Committed(w, p).fates == Later(w.fates, 5 + |names|)
  {
    RunUnfolds(w, p);
    StagedFilled(w, p);
    SucceededRun(w, p);
    SameParked(w.disk, AfterStaging(w, p).w.disk, Committed(w, p).disk, names);
  }

  lemma OverlapClears(w: World, p: Plan, names: seq<StageName>, name: StageName)
    requires p.a != p.b && p.Overlap() && SwapRun(w, p).ok && names == StagedNames(Items(p))
    ensures ClearedBut(w.disk, SwapRun(w, p).w.disk, name, name in names && !Removed(names, name, w.fates, 5 + |names|))
  {
    OverlapCommitted(w, p, names);
    DiscardClears(w.disk, Committed(w, p), names, name);
    RemovedShifts(names, name, w.fates, 5 + |names|);
  }

  lemma SameParked(d0: Disk, d: Disk, s: Disk, names: seq<StageName>)
    requires Filled(d0, d, names) && s.staging == d.staging
    ensures Filled(d0, s, names)
  {
    forall name | name !in names ensures Parked(s, name) == Parked(d0, name) { assert Parked(s, name) == Parked(d, name); }
  }

  lemma ApartClears(w: World, p: Plan, name: StageName)
    requires p.a != p.b && !p.Overlap() && SwapRun(w, p).ok
    ensures ClearedBut(w.disk, SwapRun(w, p).w.disk, name, false)
  {
    SucceededRun(w, p);
    TidyLeavesStaging(Committed(w, p), p);
    DiscardRemoves(Tidy(Committed(w, p), p), [], name);
  }

  /**
   After a swap that succeeded, whatever failed on the way, a staging file is there exactly if it was
   there before or is a copy of this swap whose own removal failed; and what was there is unchanged.
   */
  lemma SwapClearsItsStaging(w: World, a: Slot, b: Slot, name: StageName)
    requires Swappable(w.disk, a, b) && Swap(w, a, b).ok
    ensures ClearedBut(w.disk, Swap(w, a, b).w.disk, name, Stuck(PlanOf(w.disk, a, b), w.fates, name))
  {
    var p := PlanOf(w.disk, a, b);
    GuardsDraw(w);
    var g := Exec(w, [Guard, Guard]).w;
    if p.Overlap() {
      var names := StagedNames(Items(p));
      OverlapClears(g, p, names, name);
      RemovedShifts(names, name, g.fates, 5 + |names|);
      LaterOn(w.fates, 2, 5 + |names|);
      RemovedShifts(names, name, w.fates, 7 + |names|);
    } else {
      ApartClears(g, p, name);
    }
  }

  lemma TidyLeavesStaging(c: World, p: Plan)
    ensures Tidy(c, p).disk.staging == c.disk.staging
  {
    if !p.Overlap() {
      StagingUnmoved(c, Retire(p.OldA()));
      StagingUnmoved(Exec(c, Retire(p.OldA())).w, Retire(p.OldB()));
    }
  }

  /** With two emails, a swap that succeeded has retired both old keys. */
  lemma SwapRetiresOldKeys(w: World, a: Slot, b: Slot)
    requires Swappable(w.disk, a, b) && Swap(w, a, b).ok && !PlanOf(w.disk, a, b).Overlap()
    ensures var p, d := PlanOf(w.disk, a, b), Swap(w, a, b).w.disk;
            && Retired(d, p.OldA(), w.fates, 7)
            && Retired(d, p.OldB(), w.fates, 7 + RetireDraws(w.fates, 7))
  {
    var p := PlanOf(w.disk, a, b);
    GuardsDraw(w);
    var g := Exec(w, [Guard, Guard]).w;
    SucceededRun(g, p);
    LaterOn(w.fates, 2, 5);
    BothRetired(Committed(g, p), p, w.fates);
    DiscardSpares(Tidy(Committed(g, p), p), []);
  }

  lemma BothRetired(c: World, p: Plan, fates: seq<Fate>)
    requires p.a != p.b && !p.Overlap() && c.fates == Later(fates, 7)
    ensures Retired(Tidy(c, p).disk, p.OldA(), fates, 7)
    ensures Retired(Tidy(c, p).disk, p.OldB(), fates, 7 + RetireDraws(fates, 7))
  {
    var t := Exec(c, Retire(p.OldA())).w;
    RetireCleans(c, p.OldA());
    RetireShifts(c, p.OldA(), fates, 7);
    LaterOn(fates, 7, 0);
    LaterOn(fates, 7, RetireDraws(fates, 7));
    RetireCleans(t, p.OldB());
    RetireShifts(t, p.OldB(), fates, 7 + RetireDraws(fates, 7));
    RetireSpares(t, p.OldB(), p.OldA());
  }

  // ---- nothing fails -----------------------------------------------------------------------------

  /** No earlier attempt left a staging file of either slot; it matters only between accounts of one email. */
  predicate NoLeftover(d: Disk, a: Slot, b: Slot) {
    CredsOf(a) !in d.staging && ConfigOf(a) !in d.staging && CredsOf(b) !in d.staging && ConfigOf(b) !in d.staging
  }

  /** An earlier attempt left a staging file that this swap would have to create. */
  ghost predicate LeftoverInTheWay(d: Disk, p: Plan) {
    p.Overlap() && exists name :: name in StagedNames(Items(p)) && name in d.staging
  }

  lemma NothingInTheWay(d: Disk, p: Plan)
    requires NoLeftover(d, p.a, p.b)
    ensures !LeftoverInTheWay(d, p)
  {
    forall name | name in StagedNames(Items(p)) ensures name !in d.staging { StagedNamesAre(Items(p), name); }
  }

  lemma {:induction false} UndisturbedStaging(w: World, items: seq<Item>, names: seq<StageName>)
    requires Undisturbed(w.fates) && DistinctNames(items)
    requires forall name :: name in StagedNames(items) ==> name !in w.disk.staging
    ensures StageAll(w, items, names).ok
    decreases |items|
  {
    if items != [] {
      var rest := items[1..];
      assert DistinctNames(rest);
      if items[0].text == "" {
        UndisturbedStaging(w, rest, names);
      } else {
        assert items[0].name in StagedNames(items);
        var d := Apply(w, Stage(items[0].name, items[0].text));
        ApplyDraws(w, Stage(items[0].name, items[0].text));
        StagedNamesAre(rest, items[0].name);
        forall name | name in StagedNames(rest) ensures name !in d.w.disk.staging {
          assert name in StagedNames(items) && name != items[0].name;
        }
        UndisturbedStaging(d.w, rest, names + [items[0].name]);
      }
    }
  }

  lemma UndisturbedLater(fates: seq<Fate>, n: nat)
    requires Undisturbed(fates)
    ensures Undisturbed(Later(fates, n)) && forall i: nat :: FateAt(fates, i).ok
  {
  }

  lemma UndisturbedRun(w: World, p: Plan)
    requires p.a != p.b && Undisturbed(w.fates) && !LeftoverInTheWay(w.disk, p)
    ensures SwapRun(w, p).ok
  {
    ItemsDistinct(p);
    if p.Overlap() {
      UndisturbedStaging(w, Items(p), []);
      StagingFills(w, Items(p), []);
    }
    var st := AfterStaging(w, p);
    UndisturbedLater(w.fates, |st.names|);
    UndisturbedExec(st.w, Copies(p));
    ApplyDraws(Exec(st.w, Copies(p)).w, CommitTo(p.after));
  }

  lemma SameStaging(s: map<StageName, string>, t: map<StageName, string>)
    requires forall name :: (name in s <==> name in t) && (name in s ==> s[name] == t[name])
    ensures s == t
  {
  }

  lemma ClearedStaging(w: World, a: Slot, b: Slot)
    requires Swappable(w.disk, a, b) && Undisturbed(w.fates) && Swap(w, a, b).ok
    ensures Swap(w, a, b).w.disk.staging == w.disk.staging
  {
    var d := Swap(w, a, b).w.disk;
    UndisturbedLater(w.fates, 0);
    forall name ensures (name in d.staging <==> name in w.disk.staging)
                        && (name in d.staging ==> d.staging[name] == w.disk.staging[name])
    {
      SwapClearsItsStaging(w, a, b, name);
      assert name in w.disk.staging ==> Parked(d, name) == Some(w.disk.staging[name]);
    }
    SameStaging(d.staging, w.disk.staging);
  }

  /** A swap between two accounts of one email is refused over any leftover in its way. */
  lemma LeftoverRefuses(w: World, a: Slot, b: Slot)
    requires Swappable(w.disk, a, b) && LeftoverInTheWay(w.disk, PlanOf(w.disk, a, b))
    ensures !Swap(w, a, b).ok
  {
    if Swap(w, a, b).ok {
      GuardsDraw(w);
      ItemsDistinct(PlanOf(w.disk, a, b));
      StagingFills(Exec(w, [Guard, Guard]).w, Items(PlanOf(w.disk, a, b)), []);
    }
  }

  /**
   When nothing fails, a swap succeeds exactly if no leftover is in its way, and then leaves neither a
   staged copy nor, with two emails, an old key.
   */
  lemma UndisturbedSwapIsClean(w: World, a: Slot, b: Slot)
    requires Swappable(w.disk, a, b) && Undisturbed(w.fates)
    ensures var p, e := PlanOf(w.disk, a, b), Swap(w, a, b);
            && (e.ok <==> !LeftoverInTheWay(w.disk, p))
            && (e.ok ==> e.w.disk.staging == w.disk.staging)
            && (e.ok && !p.Overlap() ==>
                  MaterialAt(e.w.disk, p.OldA()) == MaterialAt(e.w.disk, p.OldB()) == Material("", ""))
  {
    var p := PlanOf(w.disk, a, b);
    if LeftoverInTheWay(w.disk, p) {
      LeftoverRefuses(w, a, b);
    } else {
      UndisturbedExec(w, [Guard, Guard]);
      GuardsDraw(w);
      UndisturbedRun(Exec(w, [Guard, Guard]).w, p);
      ClearedStaging(w, a, b);
      UndisturbedLater(w.fates, 0);
      if !p.Overlap() { SwapRetiresOldKeys(w, a, b); }
    }
  }

  lemma {:induction false} UndisturbedAll(w: World, steps: seq<Step>)
    requires Undisturbed(w.fates)
    ensures Undisturbed(ExecAll(w, steps).w.fates)
    decreases |steps|
  {
    if steps != [] {
      ApplyDraws(w, steps[0]);
      UndisturbedAll(Apply(w, steps[0]).w, steps[1..]);
    }
  }

  lemma UndisturbedSwapDraws(w: World, a: Slot, b: Slot)
    requires Swappable(w.disk, a, b) && Undisturbed(w.fates) && Swap(w, a, b).ok
    ensures Undisturbed(Swap(w, a, b).w.fates)
  {
    var p := PlanOf(w.disk, a, b);
    GuardsDraw(w);
    var g := Exec(w, [Guard, Guard]).w;
    SucceededRun(g, p);
    var c := Committed(g, p);
    UndisturbedLater(w.fates, 2);
    UndisturbedLater(g.fates, 5 + |AfterStaging(g, p).names|);
    if !p.Overlap() {
      UndisturbedExec(c, Retire(p.OldA()));
      UndisturbedExec(Exec(c, Retire(p.OldA())).w, Retire(p.OldB()));
    }
    UndisturbedAll(Tidy(c, p), Unstages(AfterStaging(g, p).names));
  }

  lemma AccountsTwice(r: Roster, a: Slot, b: Slot)
    requires a in r.accounts && b in r.accounts && a != b
    ensures Exchange(Exchange(r, a, b), a, b).accounts == r.accounts
    ensures Exchange(Exchange(r, a, b), a, b).active == r.active
  {
  }

  lemma ExchangeTwice(r: Roster, a: Slot, b: Slot)
    requires Inv(r) && a in r.accounts && b in r.accounts && a != b
    ensures Exchange(Exchange(r, a, b), a, b) == r
  {
    ExchangeKeepsInv(r, a, b);
    ExchangeKeepsInv(Exchange(r, a, b), a, b);
    AccountsTwice(r, a, b);
    var t := Exchange(Exchange(r, a, b), a, b);
    assert t.sequence == r.sequence;
    assert t == Roster(t.active, t.sequence, t.accounts) && r == Roster(r.active, r.sequence, r.accounts);
  }

  lemma FollowsBack(d0: Disk, d1: Disk, d2: Disk, a: Slot, b: Slot, n: Slot)
    requires Swappable(d0, a, b) && ServedSwapped(d0, a, b)(d1) && n in d0.roster.accounts
    requires Swappable(d1, a, b) && ServedSwapped(d1, a, b)(d2)
    ensures MaterialAt(d2, KeyOf(d0.roster, n)) == MaterialAt(d0, KeyOf(d0.roster, n))
  {
    var m := SwapSlot(n, a, b);
    var email := d0.roster.accounts[n].email;
    assert m in d1.roster.accounts && d1.roster.accounts[m].email == email;
    assert MaterialAt(d1, Key(m, email)) == MaterialAt(d0, KeyOf(d0.roster, n));
    assert MaterialAt(d2, Key(SwapSlot(m, a, b), email)) == MaterialAt(d1, KeyOf(d1.roster, m));
  }

  /** Seen through the roster, swapping back what was swapped is what was there first. */
  lemma SwappedBackIsServed(d0: Disk, d1: Disk, d2: Disk, a: Slot, b: Slot)
    requires Swappable(d0, a, b) && Inv(d0.roster) && ServedSwapped(d0, a, b)(d1)
    requires Swappable(d1, a, b) && ServedSwapped(d1, a, b)(d2)
    ensures ServedAs(d0)(d2)
  {
    assert d2.roster == Exchange(Exchange(d0.roster, a, b), a, b);
    ExchangeTwice(d0.roster, a, b);
    forall n | n in d0.roster.accounts ensures MaterialAt(d2, KeyOf(d0.roster, n)) == MaterialAt(d0, KeyOf(d0.roster, n)) {
      FollowsBack(d0, d1, d2, a, b, n);
    }
  }

  lemma UndisturbedSwap(w: World, a: Slot, b: Slot)
    requires Swappable(w.disk, a, b) && Undisturbed(w.fates)
    requires PlanOf(w.disk, a, b).Overlap() ==> NoLeftover(w.disk, a, b)
    ensures var e := Swap(w, a, b);
            && e.ok && Undisturbed(e.w.fates) && e.w.disk.staging == w.disk.staging
            && ServedSwapped(w.disk, a, b)(e.w.disk)
  {
    if PlanOf(w.disk, a, b).Overlap() { NothingInTheWay(w.disk, PlanOf(w.disk, a, b)); }
    UndisturbedSwapIsClean(w, a, b);
    UndisturbedSwapDraws(w, a, b);
    SwapRenumbers(w, a, b);
  }

  /**
   When nothing fails, two swaps in a row both succeed and give every account back its record, its
   number, its credential and its config.
   */
  lemma SwapTwiceRestores(w: World, a: Slot, b: Slot)
    requires Swappable(w.disk, a, b) && Inv(w.disk.roster) && Undisturbed(w.fates)
    requires PlanOf(w.disk, a, b).Overlap() ==> NoLeftover(w.disk, a, b)
    ensures var e := Swap(w, a, b);
            && e.ok && Swappable(e.w.disk, a, b)
            && Swap(e.w, a, b).ok && ServedAs(w.disk)(Swap(e.w, a, b).w.disk)
            && Swap(e.w, a, b).w.disk.staging == w.disk.staging
  {
    UndisturbedSwap(w, a, b);
    var v := Swap(w, a, b).w;
    assert v.disk.roster == Exchange(w.disk.roster, a, b);
    UndisturbedSwap(v, a, b);
    SwappedBackIsServed(w.disk, v.disk, Swap(v, a, b).w.disk, a, b);
  }

  // ---- a move that succeeded -----------------------------------------------------------------------

  lemma GuardDraws(w: World)
    requires Exec(w, [Guard]).ok
    ensures Exec(w, [Guard]).w.fates == Later(w.fates, 1) && Exec(w, [Guard]).w.disk == w.disk
  {
    ExecDraws(w, [Guard]);
    ExecHolds(w, [Guard], |w.seen|, (d: Disk) => d == w.disk);
  }

  /** A move that succeeded has retired the old key. */
  lemma MoveRetiresOldKey(w: World, src: Slot, target: Slot)
    requires Movable(w.disk, src, target) && Relocate(w, src, target).ok
    ensures Retired(Relocate(w, src, target).w.disk, KeyOf(w.disk.roster, src), w.fates, 4)
  {
    var from := KeyOf(w.disk.roster, src);
    var g := Exec(w, [Guard]);
    GuardDraws(w);
    var copies := MoveCopies(Key(target, from.email), MaterialAt(w.disk, from));
    var d := Exec(g.w, copies);
    ExecDraws(g.w, copies);
    var c := Apply(d.w, CommitTo(Renumber(w.disk.roster, src, target)));
    ApplyDraws(d.w, CommitTo(Renumber(w.disk.roster, src, target)));
    LaterOn(w.fates, 1, 2);
    LaterOn(w.fates, 3, 1);
    RetireCleans(c.w, from);
    RetireShifts(c.w, from, w.fates, 4);
  }

  /** When nothing fails, a move into an empty slot succeeds and nothing is left under the old key. */
  lemma UndisturbedMoveIsClean(w: World, src: Slot, target: Slot)
    requires Movable(w.disk, src, target) && Undisturbed(w.fates)
    ensures Relocate(w, src, target).ok
    ensures MaterialAt(Relocate(w, src, target).w.disk, KeyOf(w.disk.roster, src)) == Material("", "")
  {
    var from := KeyOf(w.disk.roster, src);
    UndisturbedExec(w, [Guard]);
    GuardDraws(w);
    var g := Exec(w, [Guard]).w;
    var copies := MoveCopies(Key(target, from.email), MaterialAt(w.disk, from));
    UndisturbedExec(g, copies);
    ApplyDraws(Exec(g, copies).w, CommitTo(Renumber(w.disk.roster, src, target)));
    UndisturbedLater(w.fates, 0);
    MoveRetiresOldKey(w, src, target);
  }

  // ---- the commands ------------------------------------------------------------------------------------

  /** When nothing fails, the swap command succeeds exactly if it names two accounts and no leftover is in the way. */
  lemma SwapCommandSucceeds(w: World, first: Ident, second: Ident, a: Slot, b: Slot)
    requires Undisturbed(w.fates) && Names(w.disk.roster, first, a) && Names(w.disk.roster, second, b)
    ensures a in w.disk.roster.accounts && b in w.disk.roster.accounts
    ensures SwapAccounts(w, first, second).ok <==> a != b && !LeftoverInTheWay(w.disk, PlanOf(w.disk, a, b))
    ensures SwapAccounts(w, first, second).ok ==> ServedSwapped(w.disk, a, b)(SwapAccounts(w, first, second).w.disk)
  {
    ResolveExactly(w.disk.roster, first);
    ResolveExactly(w.disk.roster, second);
    ResolveFinds(w.disk.roster, first);
    ResolveFinds(w.disk.roster, second);
    if a != b {
      UndisturbedSwapIsClean(w, a, b);
      if Swap(w, a, b).ok { SwapRenumbers(w, a, b); }
    }
  }

  /** So does the move command, if it names an account and a target in range; an occupant is swapped with. */
  lemma MoveCommandSucceeds(w: World, id: Ident, src: Slot, target: Slot)
    requires Undisturbed(w.fates) && Names(w.disk.roster, id, src)
    ensures var d0, e := w.disk, MoveAccount(w, id, target);
            && (e.ok <==> && !Spans.OutOfRange(d0.roster, target)
                          && (target in d0.roster.accounts && src != target ==> !LeftoverInTheWay(d0, PlanOf(d0, src, target))))
            && (e.ok ==> if src == target then e.w == w
                         else if target in d0.roster.accounts then ServedSwapped(d0, src, target)(e.w.disk)
                         else ServedMoved(d0, src, target)(e.w.disk))
  {
    ResolveExactly(w.disk.roster, id);
    ResolveFinds(w.disk.roster, id);
    Spans.RangeExactly(w.disk.roster, target);
    if src != target {
      if target in w.disk.roster.accounts {
        UndisturbedSwapIsClean(w, src, target);
        if Swap(w, src, target).ok { SwapRenumbers(w, src, target); }
      } else {
        UndisturbedMoveIsClean(w, src, target);
        MoveServesThroughout(w, src, target);
      }
    }
  }
}
