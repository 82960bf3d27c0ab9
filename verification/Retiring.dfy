/** Retiring a key: what the one sequence that takes an account's files off the disk achieves, fate by fate. */
module Retiring {
  import opened Basics
  import opened Rosters
  import opened SlotStore
  import opened StoreSteps
  import opened MoveSwap

  /**
   Under the key nothing is left of what the retirement starting with fate `i` could remove: unless
   a live session refused it, the credential is gone if its sweep worked, and the config if its
   removal did.
   */
  predicate Retired(d: Disk, k: Key, fates: seq<Fate>, i: nat) {
    FateAt(fates, i).ok ==>
      && (FateAt(fates, i + 1).ok ==> Read(d.creds, k) == "")
      && (FateAt(fates, i + 2).ok ==> Read(d.configs, k) == "")
  }

  /** How many fates a retirement draws. */
  function RetireDraws(fates: seq<Fate>, i: nat): nat {
    if FateAt(fates, i).ok then 3 else 1
  }

  lemma RetireUnfolds(w: World, k: Key)
    ensures var g := Apply(w, Guard);
            Exec(w, Retire(k)) == if g.ok then Apply(Apply(g.w, SweepCreds(k)).w, SetConfig(k, "")) else g
  {
    var sweep, clear := [SweepCreds(k)] + [SetConfig(k, "")], [SetConfig(k, "")];
    assert Retire(k) == [Guard] + sweep && clear == [SetConfig(k, "")] + [];
    ExecCons(w, Guard, sweep);
    ExecCons(Apply(w, Guard).w, SweepCreds(k), clear);
    ExecCons(Apply(Apply(w, Guard).w, SweepCreds(k)).w, SetConfig(k, ""), []);
  }

  lemma RetireCleans(w: World, k: Key)
    ensures var e := Exec(w, Retire(k));
            && Retired(e.w.disk, k, w.fates, 0)
            && e.w.fates == Later(w.fates, RetireDraws(w.fates, 0))
            && (e.ok ==> Read(e.w.disk.configs, k) == "")
  {
    RetireUnfolds(w, k);
    var g := Apply(w, Guard);
    ApplyDraws(w, Guard);
    ApplyDraws(g.w, SweepCreds(k));
    var t := Apply(g.w, SweepCreds(k)).w;
    ApplyDraws(t, SetConfig(k, ""));
    EndIsHop(t, SetConfig(k, ""));
    LaterOn(w.fates, 1, 0);
    LaterOn(w.fates, 1, 1);
    LaterOn(w.fates, 2, 0);
    LaterOn(w.fates, 2, 1);
  }

  lemma RetireSpares(w: World, k: Key, x: Key)
    requires x != k
    ensures MaterialAt(Exec(w, Retire(k)).w.disk, x) == MaterialAt(w.disk, x)
  {
    ExecSpares(w, Retire(k), x);
  }

  lemma RetireShifts(w: World, k: Key, fates: seq<Fate>, i: nat)
    requires w.fates == Later(fates, i)
    ensures forall d :: Retired(d, k, w.fates, 0) <==> Retired(d, k, fates, i)
    ensures RetireDraws(w.fates, 0) == RetireDraws(fates, i)
  {
    LaterOn(fates, i, 0);
    LaterOn(fates, i, 1);
    LaterOn(fates, i, 2);
  }
}
