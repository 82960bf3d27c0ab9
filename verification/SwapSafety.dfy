/**
 What a swap keeps in every state it passes through, however its writes fail.
 */
module SwapSafety {
  import opened Basics
  import opened Rosters
  import opened SlotStore
  import opened StoreSteps
  import opened MoveSwap

  // ---- where a credential can be ----------------------------------------------------

  ghost function CredsAt(k: Key, c: string): Disk -> bool {
    (d: Disk) => c != "" ==> Read(d.creds, k) == c
  }

  ghost function ParkedAs(name: StageName, c: string): Disk -> bool {
    (d: Disk) => c != "" ==> Parked(d, name) == Some(c)
  }

  /** The credential is under its old key, its new key, or its own staging file. */
  predicate CredsKept(d: Disk, before: Key, after: Key, name: StageName, c: string) {
    c != "" ==> Read(d.creds, before) == c || Read(d.creds, after) == c || Parked(d, name) == Some(c)
  }

  ghost function Kept(before: Key, after: Key, name: StageName, c: string): Disk -> bool {
    (d: Disk) => CredsKept(d, before, after, name, c)
  }

  // ---- what the steps of a swap leave alone -------------------------------------------

  predicate TouchesCreds(step: Step, k: Key, c: string) {
    (step.SetCreds? && step.key == k && step.text != c) || (step.SweepCreds? && step.key == k)
  }

  predicate TouchesStage(step: Step, name: StageName) {
    (step.Stage? || step.Unstage?) && step.name == name
  }

  ghost predicate SparesCreds(steps: seq<Step>, k: Key, c: string) {
    forall i :: 0 <= i < |steps| ==> !TouchesCreds(steps[i], k, c)
  }

  ghost predicate SparesStage(steps: seq<Step>, name: StageName) {
    forall i :: 0 <= i < |steps| ==> !TouchesStage(steps[i], name)
  }

  lemma SparingCreds(steps: seq<Step>, k: Key, c: string)
    requires SparesCreds(steps, k, c)
    ensures AllKeep(CredsAt(k, c), steps)
  {
  }

  lemma SparingStage(steps: seq<Step>, name: StageName, c: string)
    requires SparesStage(steps, name)
    ensures AllKeep(ParkedAs(name, c), steps)
  {
  }

  // ---- staging --------------------------------------------------------------------------

  /** A property of the backups and the roster alone. */
  ghost predicate StagingBlind(p: Disk -> bool) {
    forall d: Disk, s: Disk :: p(d) && s == d.(staging := s.staging) ==> p(s)
  }

  lemma DiscardHolds(w: World, names: seq<StageName>, n: nat, p: Disk -> bool)
    requires HeldSince(w, n, p) && StagingBlind(p)
    ensures HeldSince(Discard(w, names), n, p)
  {
    ExecAllHolds(w, Unstages(names), n, p);
  }

  lemma DiscardGrows(w: World, names: seq<StageName>)
    ensures w.seen <= Discard(w, names).seen
  {
    ExecGrows(w, Unstages(names));
  }

  lemma DiscardLeaves(w: World, names: seq<StageName>, n: nat, name: StageName, c: string)
    requires HeldSince(w, n, ParkedAs(name, c)) && name !in names
    ensures HeldSince(Discard(w, names), n, ParkedAs(name, c))
  {
    SparingStage(Unstages(names), name, c);
    ExecAllHolds(w, Unstages(names), n, ParkedAs(name, c));
  }

  /** Staging touches no backup and no roster. */
  lemma {:induction false} StagingHolds(w: World, items: seq<Item>, names: seq<StageName>, n: nat, p: Disk -> bool)
    requires HeldSince(w, n, p) && StagingBlind(p)
    ensures HeldSince(StageAll(w, items, names).w, n, p)
    decreases |items|
  {
    if items == [] {
    } else if items[0].text == "" {
      StagingHolds(w, items[1..], names, n, p);
    } else if items[0].name in w.disk.staging {
      DiscardHolds(w, names, n, p);
    } else {
      var step := Stage(items[0].name, items[0].text);
      assert Keeps(p, step);
      ApplyHolds(w, step, n, p);
      var d := Apply(w, step);
      if d.ok {
        StagingHolds(d.w, items[1..], names + [items[0].name], n, p);
      } else {
        DiscardHolds(d.w, names, n, p);
      }
    }
  }

  lemma {:induction false} StagingGrows(w: World, items: seq<Item>, names: seq<StageName>)
    ensures w.seen <= StageAll(w, items, names).w.seen
    decreases |items|
  {
    if items == [] {
    } else if items[0].text == "" {
      StagingGrows(w, items[1..], names);
    } else if items[0].name in w.disk.staging {
      DiscardGrows(w, names);
    } else {
      var step := Stage(items[0].name, items[0].text);
      ApplyGrowsHistory(w, step);
      StagingGrows(Apply(w, step).w, items[1..], names + [items[0].name]);
      DiscardGrows(Apply(w, step).w, names);
    }
  }

  /** A staging file that was there before is never overwritten and never discarded. */
  lemma {:induction false} LeftoverStays(w: World, items: seq<Item>, names: seq<StageName>, n: nat, name: StageName,
                                         c: string)
    requires HeldSince(w, n, ParkedAs(name, c)) && c != "" && name !in names
    ensures HeldSince(StageAll(w, items, names).w, n, ParkedAs(name, c))
    ensures name !in StageAll(w, items, names).names
    decreases |items|
  {
    if items == [] {
    } else if items[0].text == "" {
      LeftoverStays(w, items[1..], names, n, name, c);
    } else if items[0].name in w.disk.staging {
      DiscardLeaves(w, names, n, name, c);
    } else {
      var step := Stage(items[0].name, items[0].text);
      SparingStage([step], name, c);
      assert Keeps(ParkedAs(name, c), [step][0]);
      ApplyHolds(w, step, n, ParkedAs(name, c));
      var d := Apply(w, step);
      if d.ok {
        LeftoverStays(d.w, items[1..], names + [items[0].name], n, name, c);
      } else {
        DiscardLeaves(d.w, names, n, name, c);
      }
    }
  }

  ghost predicate DistinctNames(items: seq<Item>) {
    forall i, j :: 0 <= i < j < |items| ==> items[i].name != items[j].name
  }

  /** What is staged stays staged while the rest is. */
  lemma {:induction false} StagedStays(w: World, items: seq<Item>, names: seq<StageName>, name: StageName, c: string)
    requires forall i :: 0 <= i < |items| ==> items[i].name != name
    requires Parked(w.disk, name) == Some(c)
    requires StageAll(w, items, names).ok
    ensures Parked(StageAll(w, items, names).w.disk, name) == Some(c)
    decreases |items|
  {
    if items != [] {
      if items[0].text == "" {
        StagedStays(w, items[1..], names, name, c);
      } else {
        var step := Stage(items[0].name, items[0].text);
        EndIsHop(w, step);
        StagedStays(Apply(w, step).w, items[1..], names + [items[0].name], name, c);
      }
    }
  }

  /** When staging succeeds, every non-empty item has its copy. */
  lemma {:induction false} StagingParks(w: World, items: seq<Item>, names: seq<StageName>, i: nat)
    requires DistinctNames(items) && i < |items| && items[i].text != ""
    requires StageAll(w, items, names).ok
    ensures Parked(StageAll(w, items, names).w.disk, items[i].name) == Some(items[i].text)
    decreases |items|
  {
    var rest := items[1..];
    assert DistinctNames(rest);
    if items[0].text == "" {
      StagingParks(w, rest, names, i - 1);
    } else {
      var step := Stage(items[0].name, items[0].text);
      ApplyLands(w, step);
      var v := Apply(w, step).w;
      if i == 0 {
        StagedStays(v, rest, names + [items[0].name], items[0].name, items[0].text);
      } else {
        StagingParks(v, rest, names + [items[0].name], i - 1);
      }
    }
  }

  // ---- what a finished stretch leaves ---------------------------------------------------

  lemma OutcomeCons(d: Disk, step: Step, rest: seq<Step>)
    ensures Outcome(d, [step] + rest) == Outcome(Effect(d, step), rest)
  {
    assert ([step] + rest)[1..] == rest;
  }

  lemma {:induction false} OutcomeAppend(d: Disk, s: seq<Step>, t: seq<Step>)
    ensures Outcome(d, s + t) == Outcome(Outcome(d, s), t)
    decreases |s|
  {
    if s == [] {
      assert s + t == t;
    } else {
      OutcomeAppend(Effect(d, s[0]), s[1..], t);
      assert (s + t)[1..] == s[1..] + t;
    }
  }

  /** Material `m` is under `k`, and every other key reads as it did in `d`. */
  ghost predicate Puts(d: Disk, s: Disk, k: Key, m: Material) {
    && s == d.(creds := s.creds, configs := s.configs)
    && MaterialAt(s, k) == m
    && forall x :: x != k ==> MaterialAt(s, x) == MaterialAt(d, x)
  }

  lemma PairLands(d: Disk, k: Key, m: Material)
    ensures Puts(d, Outcome(d, [SetCreds(k, m.creds), SetConfig(k, m.config)]), k, m)
  {
    OutcomeCons(d, SetCreds(k, m.creds), [SetConfig(k, m.config)]);
    OutcomeCons(Effect(d, SetCreds(k, m.creds)), SetConfig(k, m.config), []);
    assert [SetCreds(k, m.creds)] + [SetConfig(k, m.config)] == [SetCreds(k, m.creds), SetConfig(k, m.config)];
    assert [SetConfig(k, m.config)] + [] == [SetConfig(k, m.config)];
  }

  /** The two accounts' material under two keys, and nothing else changed. */
  ghost predicate PutsBoth(d: Disk, s: Disk, k: Key, m: Material, l: Key, o: Material) {
    && s == d.(creds := s.creds, configs := s.configs)
    && MaterialAt(s, k) == m && MaterialAt(s, l) == o
    && forall x :: x != k && x != l ==> MaterialAt(s, x) == MaterialAt(d, x)
  }

  lemma CopiesLand(d: Disk, p: Plan)
    requires p.a != p.b
    ensures PutsBoth(d, Outcome(d, Copies(p)), p.NewA(), p.ma, p.NewB(), p.mb)
  {
    var first := [SetCreds(p.NewA(), p.ma.creds), SetConfig(p.NewA(), p.ma.config)];
    var second := [SetCreds(p.NewB(), p.mb.creds), SetConfig(p.NewB(), p.mb.config)];
    assert Copies(p) == first + second;
    OutcomeAppend(d, first, second);
    PairLands(d, p.NewA(), p.ma);
    PairLands(Outcome(d, first), p.NewB(), p.mb);
  }

  lemma RestoreLands(d: Disk, p: Plan, k: Key, m: Material)
    requires p.Overlap() || MaterialAt(d, k) == m
    ensures Puts(d, Outcome(d, Restore(p, SetCreds(k, m.creds)) + Restore(p, SetConfig(k, m.config))), k, m)
  {
    var x, y := SetCreds(k, m.creds), SetConfig(k, m.config);
    OutcomeAppend(d, Restore(p, x), Restore(p, y));
    forall z: Step, e: Disk | z.SetCreds? || z.SetConfig?
      ensures Outcome(e, Restore(p, z)) == if Restore(p, z) == [] then e else Effect(e, z)
    {
      OutcomeCons(e, z, []);
      assert [z] + [] == [z];
    }
  }

  lemma RestoresLand(d: Disk, p: Plan)
    requires p.a != p.b
    requires p.Overlap() || (MaterialAt(d, p.OldA()) == p.ma && MaterialAt(d, p.OldB()) == p.mb)
    ensures PutsBoth(d, Outcome(d, Restores(p)), p.OldA(), p.ma, p.OldB(), p.mb)
  {
    var first := Restore(p, SetCreds(p.OldA(), p.ma.creds)) + Restore(p, SetConfig(p.OldA(), p.ma.config));
    var second := Restore(p, SetCreds(p.OldB(), p.mb.creds)) + Restore(p, SetConfig(p.OldB(), p.mb.config));
    assert Restores(p) == first + second;
    OutcomeAppend(d, first, second);
    RestoreLands(d, p, p.OldA(), p.ma);
    RestoreLands(Outcome(d, first), p, p.OldB(), p.mb);
  }
}
