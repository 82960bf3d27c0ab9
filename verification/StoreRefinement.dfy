/**
 The slot store's view of credential writes is what the two-backend store provides: each backend
 operation, whatever the Keychain and the files do, is one of the outcomes that the slot store
 allows. So everything proved of moves, swaps, adds and removals holds over either.
 */
module StoreRefinement {
  import opened Basics
  import Rosters
  import S = SlotStore
  import T = StoreSteps
  import C = CredStore

  function ItemOf(k: Rosters.Key): C.Item {
    C.Item(C.Numbered(k.slot), k.email, false)
  }

  /** Every slot's backup reads the same in both. */
  ghost predicate Agrees(c: C.St, d: S.Disk) {
    forall k :: S.Read(d.creds, k) == C.View(c, ItemOf(k))
  }

  /** The backend state `c` is an allowed outcome of the slot-store step. */
  ghost predicate Allows(d: S.Disk, step: T.Step, c: C.St, ok: bool) {
    exists f: S.Fate :: AllowsWith(d, step, c, ok, f)
  }

  ghost predicate AllowsWith(d: S.Disk, step: T.Step, c: C.St, ok: bool, f: S.Fate) {
    var r := T.Apply(S.World(d, [], [f]), step);
    r.ok == ok && Agrees(c, r.w.disk)
  }

  lemma ViewOfUntouched(s: C.St, t: C.St, x: C.Item)
    requires C.Untouched(s, t, x)
    ensures C.View(t, x) == C.View(s, x)
  {
  }

  /** The key the step is about reads as the step left it, and every other key as before. */
  lemma OutcomeAgrees(d: S.Disk, e: S.Disk, c: C.St, t: C.St, k: Rosters.Key)
    requires Agrees(c, d) && S.Read(e.creds, k) == C.View(t, ItemOf(k))
    requires forall x :: x != k ==> S.Read(e.creds, x) == S.Read(d.creds, x)
    requires forall x: Rosters.Key :: x != k ==> C.View(t, ItemOf(x)) == C.View(c, ItemOf(x))
    ensures Agrees(t, e)
  {
    forall x ensures S.Read(e.creds, x) == C.View(t, ItemOf(x)) {
      if x != k {
        assert S.Read(d.creds, x) == C.View(c, ItemOf(x));
      }
    }
  }

  lemma WriteRefines(d: S.Disk, c: C.St, k: Rosters.Key, text: string)
    requires Agrees(c, d) && text != ""
    ensures var r := C.WriteBackup(c, ItemOf(k), text);
            Allows(d, T.SetCreds(k, text), r.s, r.ok)
  {
    var r := C.WriteBackup(c, ItemOf(k), text);
    C.WriteIsAtomic(c, ItemOf(k), text);
    var f := S.Fate(r.ok, C.View(r.s, ItemOf(k)) == text, "");
    var e := T.Apply(S.World(d, [], [f]), T.SetCreds(k, text)).w.disk;
    assert S.Read(d.creds, k) == C.View(c, ItemOf(k));
    forall x: Rosters.Key | x != k ensures C.View(r.s, ItemOf(x)) == C.View(c, ItemOf(x)) {
      C.WriteTouchesItsKeyOnly(c, ItemOf(k), text, ItemOf(x));
      ViewOfUntouched(c, r.s, ItemOf(x));
    }
    OutcomeAgrees(d, e, c, r.s, k);
    assert AllowsWith(d, T.SetCreds(k, text), r.s, r.ok, f);
  }

  lemma StrictDeleteRefines(d: S.Disk, c: C.St, k: Rosters.Key)
    requires Agrees(c, d)
    ensures var r := C.DeleteBackupStrict(c, ItemOf(k));
            Allows(d, T.SetCreds(k, ""), r.s, r.ok)
  {
    var r := C.DeleteBackupStrict(c, ItemOf(k));
    if r.ok { C.StrictDeleteEmptiesBoth(c, ItemOf(k)); }
    var f := S.Fate(r.ok, true, C.View(r.s, ItemOf(k)));
    var e := T.Apply(S.World(d, [], [f]), T.SetCreds(k, "")).w.disk;
    forall x: Rosters.Key | x != k ensures C.View(r.s, ItemOf(x)) == C.View(c, ItemOf(x)) {
      C.StrictDeleteTouchesRelatedOnly(c, ItemOf(k), ItemOf(x));
      ViewOfUntouched(c, r.s, ItemOf(x));
    }
    OutcomeAgrees(d, e, c, r.s, k);
    assert AllowsWith(d, T.SetCreds(k, ""), r.s, r.ok, f);
  }

  lemma SweepRefines(d: S.Disk, c: C.St, k: Rosters.Key)
    requires Agrees(c, d)
    ensures Allows(d, T.SweepCreds(k), C.DeleteBackup(c, ItemOf(k)), true)
  {
    var t := C.DeleteBackup(c, ItemOf(k));
    var f := S.Fate(false, true, C.View(t, ItemOf(k)));
    var e := T.Apply(S.World(d, [], [f]), T.SweepCreds(k)).w.disk;
    forall x: Rosters.Key | x != k ensures C.View(t, ItemOf(x)) == C.View(c, ItemOf(x)) {
      C.DeleteTouchesRelatedOnly(c, ItemOf(k), ItemOf(x));
      ViewOfUntouched(c, t, ItemOf(x));
    }
    OutcomeAgrees(d, e, c, t, k);
    assert AllowsWith(d, T.SweepCreds(k), t, true, f);
  }
}
