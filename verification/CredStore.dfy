/**
 The two-backend credential store: `.enc` files everywhere and, on macOS, the Keychain while it
 is usable. Reads prefer the file; a write goes to one backend and clears the other.

 File reads and existence checks are reliable. Every Keychain call, file write and file removal
 may fail, and a failed call may still have taken effect. Base64 is an inverse pair and does not
 appear: a file holds a text, or garbage that does not decode.
 */
module CredStore {
  import opened Basics

  /** `NoSlot` is the legacy "account-None" alias. */
  datatype Owner = Numbered(slot: Slot) | NoSlot

  /** One backup, or the retained previous generation of it. */
  datatype Item = Item(owner: Owner, email: string, prev: bool)

  datatype Enc = Text(text: string) | Garbage

  datatype KcOutcome = Works | Unusable(applied: bool) | Bug(applied: bool)

  /** What the environment does to the next call. */
  datatype Event = Event(now: int, kc: KcOutcome, fileOk: bool, fileApplied: bool)

  const SMOOTH := Event(0, Works, true, true)

  /** Seconds after which an unusable Keychain is probed again. */
  const RECHECK_COOLDOWN := 60

  datatype St = St(mac: bool, cache: Option<bool>, disabledUntil: Option<int>,
                   kc: map<Item, string>, enc: map<Item, Enc>, script: seq<Event>)

  function Next(s: St): Event {
    if s.script == [] then SMOOTH else s.script[0]
  }

  function Spent(s: St): St {
    if s.script == [] then s else s.(script := s.script[1..])
  }

  /** Folds a Keychain call's outcome into the usability cache. */
  function Learned(s: St, e: Event): St {
    match e.kc
    case Works => if s.cache.None? then s.(cache := Some(true)) else s
    case Unusable(_) => s.(cache := Some(false), disabledUntil := Some(e.now + RECHECK_COOLDOWN))
    case Bug(_) => s
  }

  datatype Use = Use(keychain: bool, s: St)

  /** Whether to try the Keychain; an elapsed deadline forgets that it was unusable. */
  function UseKeychain(s: St): Use {
    if !s.mac then Use(false, s)
    else
      var e := Next(s);
      var t := Spent(s);
      if t.cache == Some(false) && t.disabledUntil.Some? && t.disabledUntil.value <= e.now
      then Use(true, t.(cache := None, disabledUntil := None))
      else Use(t.cache != Some(false), t)
  }

  datatype Call = Call(outcome: KcOutcome, s: St)

  predicate TookEffect(o: KcOutcome) {
    o.Works? || o.applied
  }

  function KcSet(s: St, k: Item, c: string): Call {
    var e := Next(s);
    var t := Learned(Spent(s), e);
    Call(e.kc, if TookEffect(e.kc) then t.(kc := t.kc[k := c]) else t)
  }

  function KcDelete(s: St, k: Item): Call {
    var e := Next(s);
    var t := Learned(Spent(s), e);
    Call(e.kc, if TookEffect(e.kc) then t.(kc := t.kc - {k}) else t)
  }

  datatype Seen = Got(text: string, s: St)

  function Stored(s: St, k: Item): string {
    if k in s.kc then s.kc[k] else ""
  }

  /** A failed Keychain read is logged and reads as absent. */
  function KcRead(s: St, k: Item): Seen {
    var e := Next(s);
    Got(if e.kc.Works? then Stored(s, k) else "", Learned(Spent(s), e))
  }

  datatype Filed = Filed(ok: bool, s: St)

  /** Atomic: a failure leaves the old text or the new one. */
  function WriteEnc(s: St, k: Item, c: string): Filed {
    var e := Next(s);
    Filed(e.fileOk, if e.fileOk || e.fileApplied then Spent(s).(enc := s.enc[k := Text(c)]) else Spent(s))
  }

  function RemoveEnc(s: St, k: Item): Filed {
    var e := Next(s);
    Filed(e.fileOk, if e.fileOk then Spent(s).(enc := s.enc - {k}) else Spent(s))
  }

  /** What the file serves; absent, corrupt and empty all fall through. */
  function FromFile(s: St, k: Item): string {
    if k in s.enc && s.enc[k].Text? then s.enc[k].text else ""
  }

  function ReadBackup(s: St, k: Item): Seen {
    if FromFile(s, k) != "" then Got(FromFile(s, k), s)
    else if s.mac then KcRead(s, k)
    else Got("", s)
  }

  function PrevOf(k: Item): Item {
    k.(prev := true)
  }

  /** Keeps the generation about to be replaced, unless it is empty or the same. Best-effort. */
  function RetainPrevious(s: St, k: Item, c: string): St {
    var r := ReadBackup(s, k);
    if r.text == "" || r.text == c then r.s
    else
      var u := UseKeychain(r.s);
      if u.keychain then KcSet(u.s, PrevOf(k), r.text).s else WriteEnc(u.s, PrevOf(k), r.text).s
  }

  /** After a Keychain write no older file may stay in front of it. */
  function Reconcile(s: St, k: Item, c: string): Filed {
    if k !in s.enc then Filed(true, s)
    else
      var d := RemoveEnc(s, k);
      if d.ok then d else WriteEnc(d.s, k, c)
  }

  function WriteToFile(s: St, k: Item, c: string): Filed {
    var f := WriteEnc(s, k, c);
    if f.ok && f.s.mac then Filed(true, KcDelete(f.s, k).s) else f
  }

  /** The Keychain first; unusable, it gives way to the file. Any other error is the caller's. */
  function WriteToKeychain(s: St, k: Item, c: string): Filed {
    var w := KcSet(s, k, c);
    match w.outcome
    case Works => Reconcile(w.s, k, c)
    case Bug(_) => Filed(false, w.s)
    case Unusable(_) => WriteToFile(w.s, k, c)
  }

  function WriteBackup(s: St, k: Item, c: string): Filed {
    var u := UseKeychain(RetainPrevious(s, k, c));
    if u.keychain then WriteToKeychain(u.s, k, c) else WriteToFile(u.s, k, c)
  }

  /** Best-effort removal of one item from both backends. */
  function Sweep(s: St, k: Item): St {
    var f := if k in s.enc then RemoveEnc(s, k).s else s;
    if f.mac then KcDelete(f, k).s else f
  }

  /** The best-effort delete: the key and the legacy alias, each with its previous generation. */
  function DeleteBackup(s: St, k: Item): St {
    var t := Sweep(Sweep(s, k), PrevOf(k));
    if k.owner.NoSlot? then t
    else Sweep(Sweep(t, k.(owner := NoSlot)), PrevOf(k.(owner := NoSlot)))
  }

  /** The fail-closed delete: sweep, then insist. */
  function DeleteBackupStrict(s: St, k: Item): Filed {
    Insist(DeleteBackup(s, k), k)
  }

  function Insist(t: St, k: Item): Filed {
    var f := if k in t.enc then RemoveEnc(t, k) else Filed(true, t);
    if !f.ok then f
    else if !f.s.mac then ReadsEmpty(f.s, k)
    else
      var d := KcDelete(f.s, k);
      if d.outcome.Works? then ReadsEmpty(d.s, k) else Filed(false, d.s)
  }

  /** The last belt: a read that still serves something is an error. */
  function ReadsEmpty(s: St, k: Item): Filed {
    var r := ReadBackup(s, k);
    Filed(r.text == "", r.s)
  }

  // ---- what a reader can see --------------------------------------------------------------

  /** The value a read returns when the Keychain answers. */
  function View(s: St, k: Item): string {
    if FromFile(s, k) != "" then FromFile(s, k) else if s.mac then Stored(s, k) else ""
  }

  /** Every read, now and whatever the Keychain does, returns `c` or nothing. */
  predicate Serves(s: St, k: Item, c: string) {
    View(s, k) == c || View(s, k) == ""
  }

  lemma ReadsWhatIsServed(s: St, k: Item)
    ensures ReadBackup(s, k).text in {View(s, k), ""}
    ensures Next(s).kc.Works? ==> ReadBackup(s, k).text == View(s, k)
    ensures ReadBackup(s, k).s.kc == s.kc && ReadBackup(s, k).s.enc == s.enc && ReadBackup(s, k).s.mac == s.mac
  {
  }

  datatype Cell = Cell(kc: Option<string>, enc: Option<Enc>)

  function CellOf(s: St, k: Item): Cell {
    Cell(if k in s.kc then Some(s.kc[k]) else None, if k in s.enc then Some(s.enc[k]) else None)
  }

  /** The step leaves this item alone in both backends. */
  predicate Untouched(s: St, t: St, k: Item) {
    t.mac == s.mac && CellOf(t, k) == CellOf(s, k)
  }

  lemma CallsTouchTheirItemOnly(s: St, k: Item, c: string, x: Item)
    requires x != k
    ensures Untouched(s, KcSet(s, k, c).s, x) && Untouched(s, KcDelete(s, k).s, x)
    ensures Untouched(s, WriteEnc(s, k, c).s, x) && Untouched(s, RemoveEnc(s, k).s, x)
  {
    KcCallsTouchTheirItemOnly(s, k, c, x);
  }

  lemma KcCallsTouchTheirItemOnly(s: St, k: Item, c: string, x: Item)
    requires x != k
    ensures Untouched(s, KcSet(s, k, c).s, x) && Untouched(s, KcDelete(s, k).s, x)
  {
  }

  lemma RetainTouchesPrevOnly(s: St, k: Item, c: string, x: Item)
    requires x != PrevOf(k)
    ensures Untouched(s, RetainPrevious(s, k, c), x)
  {
    ReadsWhatIsServed(s, k);
    var r := ReadBackup(s, k);
    assert Untouched(s, r.s, x);
    UseTouchesNothing(r.s, x);
    CallsTouchTheirItemOnly(UseKeychain(r.s).s, PrevOf(k), r.text, x);
  }

  lemma UseTouchesNothing(s: St, x: Item)
    ensures Untouched(s, UseKeychain(s).s, x)
  {
  }

  lemma ReconcileLands(s: St, k: Item, c: string)
    requires !k.prev && c != "" && s.mac && Stored(s, k) == c
    ensures var r := Reconcile(s, k, c);
            && (r.ok ==> View(r.s, k) == c)
            && View(r.s, k) in {View(s, k), c}
  {
  }

  lemma WriteToFileLands(s: St, k: Item, c: string)
    requires !k.prev && c != ""
    ensures var r := WriteToFile(s, k, c);
            && (r.ok ==> View(r.s, k) == c)
            && View(r.s, k) in {View(s, k), c}
  {
  }

  /**
   One key of the store behaves as a map entry with an atomic write, for every pattern of Keychain
   and file failures: a success leaves exactly the new credential in front, a failure the old one
   or the new one.
   */
  lemma WriteIsAtomic(s: St, k: Item, c: string)
    requires !k.prev && c != ""
    ensures var r := WriteBackup(s, k, c);
            && (r.ok ==> View(r.s, k) == c)
            && View(r.s, k) in {View(s, k), c}
  {
    RetainTouchesPrevOnly(s, k, c, k);
    UseTouchesNothing(RetainPrevious(s, k, c), k);
    var u := UseKeychain(RetainPrevious(s, k, c));
    assert View(u.s, k) == View(s, k);
    if u.keychain { KeychainLands(u.s, k, c); } else { WriteToFileLands(u.s, k, c); }
  }

  lemma KeychainLands(s: St, k: Item, c: string)
    requires !k.prev && c != "" && s.mac
    ensures var r := WriteToKeychain(s, k, c);
            && (r.ok ==> View(r.s, k) == c)
            && View(r.s, k) in {View(s, k), c}
  {
    var w := KcSet(s, k, c);
    assert View(w.s, k) in {View(s, k), c};
    if w.outcome.Works? {
      ReconcileLands(w.s, k, c);
    } else if w.outcome.Unusable? {
      WriteToFileLands(w.s, k, c);
    }
  }

  lemma FileTouchesItsKeyOnly(s: St, k: Item, c: string, x: Item)
    requires x != k
    ensures Untouched(s, WriteToFile(s, k, c).s, x) && Untouched(s, Reconcile(s, k, c).s, x)
  {
    CallsTouchTheirItemOnly(s, k, c, x);
    CallsTouchTheirItemOnly(WriteEnc(s, k, c).s, k, c, x);
    CallsTouchTheirItemOnly(RemoveEnc(s, k).s, k, c, x);
  }

  /** A write touches no key but its own and that key's previous generation. */
  lemma WriteTouchesItsKeyOnly(s: St, k: Item, c: string, x: Item)
    requires x != k && x != PrevOf(k)
    ensures Untouched(s, WriteBackup(s, k, c).s, x)
  {
    RetainTouchesPrevOnly(s, k, c, x);
    UseTouchesNothing(RetainPrevious(s, k, c), x);
    var u := UseKeychain(RetainPrevious(s, k, c));
    CallsTouchTheirItemOnly(u.s, k, c, x);
    FileTouchesItsKeyOnly(u.s, k, c, x);
    FileTouchesItsKeyOnly(KcSet(u.s, k, c).s, k, c, x);
  }

  lemma SweepTouchesItsKeyOnly(s: St, k: Item, x: Item)
    requires x != k
    ensures Untouched(s, Sweep(s, k), x)
  {
    CallsTouchTheirItemOnly(s, k, "", x);
    CallsTouchTheirItemOnly(RemoveEnc(s, k).s, k, "", x);
  }

  predicate Related(k: Item, x: Item) {
    x.email == k.email && (x.owner == k.owner || x.owner == NoSlot)
  }

  lemma DeleteTouchesRelatedOnly(s: St, k: Item, x: Item)
    requires !Related(k, x)
    ensures Untouched(s, DeleteBackup(s, k), x)
  {
    var t1 := Sweep(s, k);
    var t2 := Sweep(t1, PrevOf(k));
    SweepTouchesItsKeyOnly(s, k, x);
    SweepTouchesItsKeyOnly(t1, PrevOf(k), x);
    var alias := k.(owner := NoSlot);
    SweepTouchesItsKeyOnly(t2, alias, x);
    SweepTouchesItsKeyOnly(Sweep(t2, alias), PrevOf(alias), x);
  }

  lemma ReadsEmptyTouchesNothing(s: St, k: Item, x: Item)
    ensures Untouched(s, ReadsEmpty(s, k).s, x)
  {
    ReadsWhatIsServed(s, k);
  }

  lemma StrictDeleteTouchesRelatedOnly(s: St, k: Item, x: Item)
    requires !Related(k, x)
    ensures Untouched(s, DeleteBackupStrict(s, k).s, x)
  {
    DeleteTouchesRelatedOnly(s, k, x);
    var t := DeleteBackup(s, k);
    CallsTouchTheirItemOnly(t, k, "", x);
    var f := if k in t.enc then RemoveEnc(t, k) else Filed(true, t);
    CallsTouchTheirItemOnly(f.s, k, "", x);
    ReadsEmptyTouchesNothing(f.s, k, x);
    ReadsEmptyTouchesNothing(KcDelete(f.s, k).s, k, x);
  }

  lemma InsistEmpties(t: St, k: Item)
    requires Insist(t, k).ok
    ensures k !in Insist(t, k).s.enc && (t.mac ==> k !in Insist(t, k).s.kc)
    ensures Insist(t, k).s.mac == t.mac
  {
    var f := if k in t.enc then RemoveEnc(t, k) else Filed(true, t);
    ReadsWhatIsServed(f.s, k);
    ReadsWhatIsServed(KcDelete(f.s, k).s, k);
  }

  /** A strict delete that reports success has emptied both backends for the key. */
  lemma StrictDeleteEmptiesBoth(s: St, k: Item)
    requires DeleteBackupStrict(s, k).ok
    ensures var t := DeleteBackupStrict(s, k).s;
            k !in t.enc && (t.mac ==> k !in t.kc) && View(t, k) == ""
  {
    InsistEmpties(DeleteBackup(s, k), k);
  }

  // ---- nothing fails --------------------------------------------------------------------------

  predicate Undisturbed(script: seq<Event>) {
    forall i :: 0 <= i < |script| ==> script[i].kc.Works? && script[i].fileOk
  }

  /** Neither backend has the item. */
  predicate Gone(s: St, k: Item) {
    k !in s.enc && (s.mac ==> k !in s.kc)
  }

  lemma EventsStayUndisturbed(s: St)
    requires Undisturbed(s.script)
    ensures Next(s).kc.Works? && Next(s).fileOk && Undisturbed(Spent(s).script)
  {
  }

  lemma UndisturbedSweep(s: St, k: Item)
    requires Undisturbed(s.script)
    ensures Gone(Sweep(s, k), k) && Undisturbed(Sweep(s, k).script)
  {
    EventsStayUndisturbed(s);
    EventsStayUndisturbed(Spent(s));
  }

  lemma StaysGone(s: St, k: Item, x: Item)
    requires Gone(s, x)
    ensures x != k ==> Gone(Sweep(s, k), x)
  {
    if x != k { SweepTouchesItsKeyOnly(s, k, x); }
  }

  /** A best-effort delete in which nothing fails empties the key and the legacy alias, previous generations included. */
  lemma UndisturbedDeleteEmpties(s: St, k: Item)
    requires Undisturbed(s.script) && !k.prev
    ensures var t := DeleteBackup(s, k);
            && Gone(t, k) && Gone(t, PrevOf(k)) && Undisturbed(t.script)
            && Gone(t, k.(owner := NoSlot)) && Gone(t, PrevOf(k.(owner := NoSlot)))
  {
    var alias := k.(owner := NoSlot);
    var t1 := Sweep(s, k);
    var t2 := Sweep(t1, PrevOf(k));
    UndisturbedSweep(s, k);
    UndisturbedSweep(t1, PrevOf(k));
    StaysGone(t1, PrevOf(k), k);
    if !k.owner.NoSlot? {
      var t3 := Sweep(t2, alias);
      UndisturbedSweep(t2, alias);
      UndisturbedSweep(t3, PrevOf(alias));
      StaysGone(t2, alias, k);
      StaysGone(t2, alias, PrevOf(k));
      StaysGone(t3, PrevOf(alias), k);
      StaysGone(t3, PrevOf(alias), PrevOf(k));
      StaysGone(t3, PrevOf(alias), alias);
    }
  }

  lemma UndisturbedInsist(t: St, k: Item)
    requires Undisturbed(t.script) && Gone(t, k)
    ensures Insist(t, k).ok
  {
    EventsStayUndisturbed(t);
  }

  lemma UndisturbedRetain(s: St, k: Item, c: string)
    requires Undisturbed(s.script)
    ensures Undisturbed(RetainPrevious(s, k, c).script)
  {
    EventsStayUndisturbed(s);
    var r := ReadBackup(s, k);
    EventsStayUndisturbed(r.s);
    EventsStayUndisturbed(UseKeychain(r.s).s);
  }

  lemma UndisturbedFile(s: St, k: Item, c: string)
    requires Undisturbed(s.script)
    ensures WriteToFile(s, k, c).ok && Reconcile(s, k, c).ok
  {
    EventsStayUndisturbed(s);
  }

  lemma UndisturbedWriteLands(s: St, k: Item, c: string)
    requires Undisturbed(s.script)
    ensures WriteBackup(s, k, c).ok
  {
    UndisturbedRetain(s, k, c);
    var r := RetainPrevious(s, k, c);
    EventsStayUndisturbed(r);
    var u := UseKeychain(r);
    EventsStayUndisturbed(u.s);
    UndisturbedFile(u.s, k, c);
    UndisturbedFile(KcSet(u.s, k, c).s, k, c);
  }

  lemma UndisturbedToFile(s: St, k: Item, c: string)
    requires Undisturbed(s.script)
    ensures InOneBackend(WriteToFile(s, k, c).s, k) && (s.mac ==> InOneBackend(Reconcile(s, k, c).s, k))
  {
    EventsStayUndisturbed(s);
    EventsStayUndisturbed(Spent(s));
  }

  /** No stale copy is left in the other backend. */
  predicate InOneBackend(s: St, k: Item) {
    s.mac ==> !(k in s.enc && k in s.kc)
  }

  lemma UndisturbedWriteIsSole(s: St, k: Item, c: string)
    requires Undisturbed(s.script)
    ensures InOneBackend(WriteBackup(s, k, c).s, k)
  {
    UndisturbedRetain(s, k, c);
    var r := RetainPrevious(s, k, c);
    EventsStayUndisturbed(r);
    var u := UseKeychain(r);
    EventsStayUndisturbed(u.s);
    UndisturbedToFile(u.s, k, c);
    UndisturbedToFile(KcSet(u.s, k, c).s, k, c);
  }

  /** When nothing fails, a write and a strict delete succeed: the new credential is served, by one backend, or nothing is. */
  lemma UndisturbedSucceeds(s: St, k: Item, c: string)
    requires Undisturbed(s.script) && !k.prev && c != ""
    ensures WriteBackup(s, k, c).ok && View(WriteBackup(s, k, c).s, k) == c && InOneBackend(WriteBackup(s, k, c).s, k)
    ensures DeleteBackupStrict(s, k).ok && View(DeleteBackupStrict(s, k).s, k) == ""
  {
    UndisturbedWriteLands(s, k, c);
    UndisturbedWriteIsSole(s, k, c);
    WriteIsAtomic(s, k, c);
    UndisturbedDeleteEmpties(s, k);
    UndisturbedInsist(DeleteBackup(s, k), k);
    StrictDeleteEmptiesBoth(s, k);
  }

  // ---- the previous generation ---------------------------------------------------------------

  lemma WriteLeavesPrev(s: St, k: Item, c: string)
    requires !k.prev
    ensures CellOf(WriteBackup(s, k, c).s, PrevOf(k)) == CellOf(RetainPrevious(s, k, c), PrevOf(k))
    ensures WriteBackup(s, k, c).s.mac == RetainPrevious(s, k, c).mac
  {
    var r := RetainPrevious(s, k, c);
    var u := UseKeychain(r);
    UseTouchesNothing(r, PrevOf(k));
    FileTouchesItsKeyOnly(u.s, k, c, PrevOf(k));
    KcCallsTouchTheirItemOnly(u.s, k, c, PrevOf(k));
    FileTouchesItsKeyOnly(KcSet(u.s, k, c).s, k, c, PrevOf(k));
  }

  /** Whether the generation about to be replaced would be kept in the Keychain. */
  predicate KeptInKeychain(s: St, k: Item) {
    UseKeychain(ReadBackup(s, k).s).keychain
  }

  lemma UseShows(s: St, x: Item)
    ensures var u := UseKeychain(s);
            && View(u.s, x) == View(s, x) && FromFile(u.s, x) == FromFile(s, x)
            && u.s.enc == s.enc && u.s.mac == s.mac && (u.keychain ==> s.mac)
  {
  }

  lemma SetShows(s: St, x: Item, c: string)
    requires s.mac
    ensures var t := KcSet(s, x, c).s;
            && t.enc == s.enc && View(t, x) in {View(s, x), c}
            && (Next(s).kc.Works? ==> View(t, x) == if FromFile(s, x) != "" then FromFile(s, x) else c)
  {
  }

  lemma EncShows(s: St, x: Item, c: string)
    requires c != ""
    ensures var t := WriteEnc(s, x, c).s;
            View(t, x) in {View(s, x), c} && (Next(s).fileOk ==> View(t, x) == c)
  {
  }

  lemma ReadShows(s: St, k: Item, x: Item)
    ensures var r := ReadBackup(s, k);
            && View(r.s, x) == View(s, x) && r.s.enc == s.enc && r.s.mac == s.mac && r.text in {"", View(s, k)}
            && (Next(s).kc.Works? ==> r.text == View(s, k))
  {
  }

  lemma RetainIsEither(s: St, k: Item, c: string)
    ensures var t := RetainPrevious(s, k, c);
            View(t, PrevOf(k)) in {View(s, k), View(s, PrevOf(k))}
            && (KeptInKeychain(s, k) ==> t.enc == s.enc)
  {
    var r := ReadBackup(s, k);
    ReadShows(s, k, PrevOf(k));
    UseShows(r.s, PrevOf(k));
    var u := UseKeychain(r.s);
    if u.keychain { SetShows(u.s, PrevOf(k), r.text); }
    else if r.text != "" { EncShows(u.s, PrevOf(k), r.text); }
  }

  /** However a write goes, the previous generation is the one just replaced, or the one before; a Keychain in use grows no file for it. */
  lemma PreviousIsEither(s: St, k: Item, c: string)
    requires !k.prev
    ensures var t := WriteBackup(s, k, c).s;
            View(t, PrevOf(k)) in {View(s, k), View(s, PrevOf(k))}
            && (KeptInKeychain(s, k) ==> CellOf(t, PrevOf(k)).enc == CellOf(s, PrevOf(k)).enc)
  {
    WriteLeavesPrev(s, k, c);
    RetainIsEither(s, k, c);
  }

  lemma UndisturbedRetainKeeps(s: St, k: Item, c: string)
    requires Undisturbed(s.script)
    ensures var t, was := RetainPrevious(s, k, c), View(s, k);
            if was in {"", c} then View(t, PrevOf(k)) == View(s, PrevOf(k))
            else (View(t, PrevOf(k)) == was <==> !KeptInKeychain(s, k) || FromFile(s, PrevOf(k)) in {"", was})
  {
    var r := ReadBackup(s, k);
    EventsStayUndisturbed(s);
    EventsStayUndisturbed(r.s);
    ReadShows(s, k, PrevOf(k));
    UseShows(r.s, PrevOf(k));
    var u := UseKeychain(r.s);
    EventsStayUndisturbed(u.s);
    if u.keychain { SetShows(u.s, PrevOf(k), r.text); }
    else if r.text != "" { EncShows(u.s, PrevOf(k), r.text); }
  }

  /**
   When nothing fails, a write that changes a stored credential leaves it readable as the previous
   generation, except exactly this: it is kept in the Keychain, and a file from a time when the
   Keychain was not used stands in front of it with an older one. A write that changes nothing leaves
   the previous generation alone.
   */
  lemma PreviousExactly(s: St, k: Item, c: string)
    requires Undisturbed(s.script) && !k.prev
    ensures var t, was := WriteBackup(s, k, c).s, View(s, k);
            if was in {"", c} then View(t, PrevOf(k)) == View(s, PrevOf(k))
            else (View(t, PrevOf(k)) == was <==> !KeptInKeychain(s, k) || FromFile(s, PrevOf(k)) in {"", was})
  {
    WriteLeavesPrev(s, k, c);
    UndisturbedRetainKeeps(s, k, c);
  }

  /** Such a run: "a" was kept in a file, and "b", kept in the Keychain, is not read back. */
  lemma PreviousCanBeOlder(k: Item)
    requires !k.prev
    ensures var s := St(true, Some(true), None, map[k := "b"], map[PrevOf(k) := Text("a")], []);
            var w := WriteBackup(s, k, "c");
            w.ok && View(s, k) == "b" && View(w.s, k) == "c" && View(w.s, PrevOf(k)) == "a"
  {
    var s := St(true, Some(true), None, map[k := "b"], map[PrevOf(k) := Text("a")], []);
    UndisturbedSucceeds(s, k, "c");
    PreviousExactly(s, k, "c");
    PreviousIsEither(s, k, "c");
  }

  // ---- histories ----------------------------------------------------------------------------

  datatype Op = Read(k: Item) | Write(k: Item, c: string) | Delete(k: Item) | DeleteStrict(k: Item)

  function Do(s: St, op: Op): Seen {
    match op
    case Read(k) => ReadBackup(s, k)
    case Write(k, c) => Got("", WriteBackup(s, k, c).s)
    case Delete(k) => Got("", DeleteBackup(s, k))
    case DeleteStrict(k) => Got("", DeleteBackupStrict(s, k).s)
  }

  /** Every state of a history, the first included. */
  function Trace(s: St, ops: seq<Op>): (r: seq<St>)
    ensures |r| == |ops| + 1 && r[0] == s
    decreases |ops|
  {
    if ops == [] then [s] else [s] + Trace(Do(s, ops[0]).s, ops[1..])
  }

  /** The operation neither writes nor deletes this key. */
  predicate LeavesAlone(op: Op, k: Item) {
    match op
    case Read(_) => true
    case Write(x, _) => k != x && k != PrevOf(x)
    case Delete(x) => !Related(x, k)
    case DeleteStrict(x) => !Related(x, k)
  }

  lemma DoLeavesAlone(s: St, op: Op, k: Item)
    requires LeavesAlone(op, k)
    ensures Untouched(s, Do(s, op).s, k)
  {
    match op {
      case Read(x) => ReadsWhatIsServed(s, x);
      case Write(x, c) => WriteTouchesItsKeyOnly(s, x, c, k);
      case Delete(x) => DeleteTouchesRelatedOnly(s, x, k);
      case DeleteStrict(x) => StrictDeleteTouchesRelatedOnly(s, x, k);
    }
  }

  lemma {:induction false} ServedThroughout(s: St, ops: seq<Op>, k: Item, i: nat)
    requires forall j :: 0 <= j < |ops| ==> LeavesAlone(ops[j], k)
    requires i <= |ops|
    ensures Untouched(s, Trace(s, ops)[i], k)
    decreases i
  {
    if i > 0 {
      assert LeavesAlone(ops[0], k);
      DoLeavesAlone(s, ops[0], k);
      ServedThroughout(Do(s, ops[0]).s, ops[1..], k, i - 1);
    }
  }

  /**
   Once a write of a non-empty credential has succeeded, every read of that key until its next
   write or delete returns that credential or nothing, never an older generation, whatever the
   Keychain does and whatever happens to other keys in between.
   */
  lemma ReadYourWrite(s: St, k: Item, c: string, ops: seq<Op>, i: nat)
    requires !k.prev && c != "" && WriteBackup(s, k, c).ok
    requires forall j :: 0 <= j < |ops| ==> LeavesAlone(ops[j], k)
    requires i < |ops| && ops[i] == Read(k)
    ensures Do(Trace(WriteBackup(s, k, c).s, ops)[i], ops[i]).text in {c, ""}
  {
    var t := WriteBackup(s, k, c).s;
    WriteIsAtomic(s, k, c);
    ServedThroughout(t, ops, k, i);
    ReadsWhatIsServed(Trace(t, ops)[i], k);
  }

  // ---- the usability cache ------------------------------------------------------------------

  /** The Keychain counts as unusable, and until `t` it will not be probed again. */
  predicate Shut(s: St, t: int) {
    s.cache == Some(false) && (s.disabledUntil.Some? ==> t <= s.disabledUntil.value)
  }

  /** The clock of these events is short of `t`, by no more than the cooldown. */
  predicate ShortOf(script: seq<Event>, t: int) {
    forall i :: 0 <= i < |script| ==> t - RECHECK_COOLDOWN <= script[i].now < t
  }

  /** Nothing was added to the Keychain, or replaced in it. */
  predicate OnlyDeleted(before: map<Item, string>, after: map<Item, string>) {
    forall k :: k in after ==> k in before && after[k] == before[k]
  }

  /** As long as the script lasts, the Keychain is shut and nothing was written to it. */
  predicate LeftAlone(s: St, t: int, kc: map<Item, string>) {
    s.script == [] || (Shut(s, t) && ShortOf(s.script, t) && OnlyDeleted(kc, s.kc))
  }

  lemma CallsLeaveAlone(s: St, t: int, kc: map<Item, string>, k: Item, c: string)
    requires LeftAlone(s, t, kc)
    ensures LeftAlone(KcDelete(s, k).s, t, kc) && LeftAlone(KcRead(s, k).s, t, kc)
    ensures LeftAlone(WriteEnc(s, k, c).s, t, kc) && LeftAlone(RemoveEnc(s, k).s, t, kc)
  {
    KcCallsLeaveAlone(s, t, kc, k);
    if s.script != [] { EventsGoOn(s, t); }
  }

  lemma EventsGoOn(s: St, t: int)
    requires ShortOf(s.script, t)
    ensures ShortOf(Spent(s).script, t)
  {
  }

  lemma KcCallsLeaveAlone(s: St, t: int, kc: map<Item, string>, k: Item)
    requires LeftAlone(s, t, kc)
    ensures LeftAlone(KcDelete(s, k).s, t, kc) && LeftAlone(KcRead(s, k).s, t, kc)
  {
    if s.script != [] { EventsGoOn(s, t); }
  }

  lemma UseLeavesAlone(s: St, t: int, kc: map<Item, string>)
    requires LeftAlone(s, t, kc)
    ensures LeftAlone(UseKeychain(s).s, t, kc)
    ensures UseKeychain(s).keychain ==> UseKeychain(s).s.script == []
  {
  }

  lemma RetainLeavesAlone(s: St, t: int, kc: map<Item, string>, k: Item, c: string)
    requires LeftAlone(s, t, kc)
    ensures LeftAlone(RetainPrevious(s, k, c), t, kc)
  {
    CallsLeaveAlone(s, t, kc, k, c);
    var r := ReadBackup(s, k);
    UseLeavesAlone(r.s, t, kc);
    CallsLeaveAlone(UseKeychain(r.s).s, t, kc, PrevOf(k), r.text);
  }

  lemma FileLeavesAlone(s: St, t: int, kc: map<Item, string>, k: Item, c: string)
    requires LeftAlone(s, t, kc)
    ensures LeftAlone(WriteToFile(s, k, c).s, t, kc)
  {
    CallsLeaveAlone(s, t, kc, k, c);
    CallsLeaveAlone(WriteEnc(s, k, c).s, t, kc, k, c);
  }

  lemma NothingLeft(s: St, k: Item, c: string)
    requires s.script == []
    ensures WriteToKeychain(s, k, c).s.script == []
  {
  }

  lemma WriteLeavesAlone(s: St, t: int, kc: map<Item, string>, k: Item, c: string)
    requires LeftAlone(s, t, kc)
    ensures LeftAlone(WriteBackup(s, k, c).s, t, kc)
  {
    RetainLeavesAlone(s, t, kc, k, c);
    var r := RetainPrevious(s, k, c);
    UseLeavesAlone(r, t, kc);
    var u := UseKeychain(r);
    if u.keychain { NothingLeft(u.s, k, c); } else { FileLeavesAlone(u.s, t, kc, k, c); }
  }

  lemma SweepLeavesAlone(s: St, t: int, kc: map<Item, string>, k: Item)
    requires LeftAlone(s, t, kc)
    ensures LeftAlone(Sweep(s, k), t, kc)
  {
    CallsLeaveAlone(s, t, kc, k, "");
    CallsLeaveAlone(RemoveEnc(s, k).s, t, kc, k, "");
  }

  lemma DeleteLeavesAlone(s: St, t: int, kc: map<Item, string>, k: Item)
    requires LeftAlone(s, t, kc)
    ensures LeftAlone(DeleteBackup(s, k), t, kc)
  {
    var alias := k.(owner := NoSlot);
    SweepLeavesAlone(s, t, kc, k);
    SweepLeavesAlone(Sweep(s, k), t, kc, PrevOf(k));
    var u := Sweep(Sweep(s, k), PrevOf(k));
    SweepLeavesAlone(u, t, kc, alias);
    SweepLeavesAlone(Sweep(u, alias), t, kc, PrevOf(alias));
  }

  lemma InsistLeavesAlone(s: St, t: int, kc: map<Item, string>, k: Item)
    requires LeftAlone(s, t, kc)
    ensures LeftAlone(Insist(s, k).s, t, kc)
  {
    CallsLeaveAlone(s, t, kc, k, "");
    var f := if k in s.enc then RemoveEnc(s, k) else Filed(true, s);
    CallsLeaveAlone(f.s, t, kc, k, "");
    CallsLeaveAlone(KcDelete(f.s, k).s, t, kc, k, "");
  }

  lemma DoLeavesKeychainAlone(s: St, t: int, kc: map<Item, string>, op: Op)
    requires LeftAlone(s, t, kc)
    ensures LeftAlone(Do(s, op).s, t, kc)
  {
    match op {
      case Read(k) => CallsLeaveAlone(s, t, kc, k, "");
      case Write(k, c) => WriteLeavesAlone(s, t, kc, k, c);
      case Delete(k) => DeleteLeavesAlone(s, t, kc, k);
      case DeleteStrict(k) =>
        DeleteLeavesAlone(s, t, kc, k);
        InsistLeavesAlone(DeleteBackup(s, k), t, kc, k);
    }
  }

  lemma {:induction false} HistoryLeavesAlone(s: St, t: int, kc: map<Item, string>, ops: seq<Op>, i: nat)
    requires LeftAlone(s, t, kc) && i <= |ops|
    ensures LeftAlone(Trace(s, ops)[i], t, kc)
    decreases i
  {
    if i > 0 {
      DoLeavesKeychainAlone(s, t, kc, ops[0]);
      HistoryLeavesAlone(Do(s, ops[0]).s, t, kc, ops[1..], i - 1);
    }
  }

  /**
   A Keychain call that finds the Keychain unusable shuts it for a minute: whatever is read,
   written or deleted until then, and whatever fails, no state of the history has written to the
   Keychain or opened it again, and further failures only move the end of the minute later.
   */
  lemma FailureShutsTheKeychain(s: St, k: Item, c: string, failed: St, ops: seq<Op>, i: nat)
    requires failed in {KcRead(s, k).s, KcSet(s, k, c).s, KcDelete(s, k).s}
    requires Next(s).kc.Unusable? && ShortOf(failed.script, Next(s).now + RECHECK_COOLDOWN)
    requires i <= |ops|
    ensures LeftAlone(Trace(failed, ops)[i], Next(s).now + RECHECK_COOLDOWN, failed.kc)
  {
    HistoryLeavesAlone(failed, Next(s).now + RECHECK_COOLDOWN, failed.kc, ops, i);
  }

  /** The Keychain works again, and the clock has reached `t` for as long as a first decision takes. */
  predicate Recovered(script: seq<Event>, t: int) {
    |script| >= 2 && script[0].now >= t && script[1].now >= t && AllWork(script)
  }

  predicate AllWork(script: seq<Event>) {
    forall i :: 0 <= i < |script| ==> script[i].kc.Works?
  }

  lemma RetainAfterDeadline(s: St, k: Item, c: string, t: int)
    requires s.mac && s.cache == Some(false) && s.disabledUntil == Some(t) && Recovered(s.script, t)
    ensures UseKeychain(RetainPrevious(s, k, c)).keychain && AllWork(RetainPrevious(s, k, c).script)
  {
    var r := ReadBackup(s, k);
    assert r.s.cache == Some(false) && r.s.disabledUntil == Some(t) && r.s.mac;
    assert r.s.script != [] && r.s.script[0].now >= t;
    assert AllWork(r.s.script);
  }

  lemma WorkingWriteLands(s: St, k: Item, c: string)
    requires Next(s).kc.Works? && s.cache != Some(false)
    ensures var after := WriteToKeychain(s, k, c).s;
            after.cache == Some(true) && k in after.kc && after.kc[k] == c
  {
    var w := KcSet(s, k, c);
    assert s.cache.Some? ==> s.cache.value;
    assert w.outcome.Works? && w.s.cache == Some(true) && w.s.kc[k] == c;
  }

  /** Once the minute is over and the Keychain works, the next write is back in it. */
  lemma ElapsedDeadlineHeals(s: St, k: Item, c: string, t: int)
    requires s.mac && s.cache == Some(false) && s.disabledUntil == Some(t) && Recovered(s.script, t)
    ensures var after := WriteBackup(s, k, c).s;
            after.cache == Some(true) && k in after.kc && after.kc[k] == c
  {
    RetainAfterDeadline(s, k, c, t);
    var r := RetainPrevious(s, k, c);
    UsedIsOpen(r);
    WorkingWriteLands(UseKeychain(r).s, k, c);
  }

  lemma UsedIsOpen(s: St)
    requires UseKeychain(s).keychain && AllWork(s.script)
    ensures UseKeychain(s).s.cache != Some(false) && Next(UseKeychain(s).s).kc.Works?
  {
  }

  // ---- the empty credential --------------------------------------------------------------------

  /** After any successful write of `c`, whatever the failures, no older generation is served. */
  ghost predicate NeverStale(s: St, k: Item, c: string) {
    forall script :: WriteBackup(s.(script := script), k, c).ok ==> Serves(WriteBackup(s.(script := script), k, c).s, k, c)
  }

  /** The Keychain refuses everything while files work. */
  function Refusing(now: int): seq<Event> {
    var e := Event(now, Unusable(false), true, true);
    [e, e, e, e, e, e, e, e]
  }

  /** With the Keychain refusing, a file write of the empty text succeeds and uncovers the Keychain's item. */
  lemma FallBackExposes(s: St, k: Item)
    requires s.mac && Stored(s, k) != "" && RefusesOn(s, 2)
    ensures WriteToFile(s, k, "").ok && View(WriteToFile(s, k, "").s, k) == Stored(s, k)
  {
  }

  lemma RefusedSetKeepsItem(s: St, k: Item)
    requires s.mac && RefusesOn(s, 3)
    ensures var w := KcSet(s, k, "");
            w.outcome == Unusable(false) && w.s.mac && Stored(w.s, k) == Stored(s, k) && RefusesOn(w.s, 2)
  {
  }

  lemma EmptyWriteCanExpose(s: St, k: Item)
    requires !k.prev && s.mac && Stored(s, k) != ""
    ensures !NeverStale(s, k, "")
  {
    var t := s.(script := Refusing(0));
    var r := RetainPrevious(t, k, "");
    RetainTouchesPrevOnly(t, k, "", k);
    RetainSpends(t, k);
    UseTouchesNothing(r, k);
    var u := UseKeychain(r);
    assert RefusesOn(u.s, 4) && Stored(u.s, k) == Stored(s, k);
    if u.keychain {
      RefusedSetKeepsItem(u.s, k);
      FallBackExposes(KcSet(u.s, k, "").s, k);
    } else {
      FallBackExposes(u.s, k);
    }
    assert !Serves(WriteBackup(s.(script := Refusing(0)), k, "").s, k, "");
  }

  ghost predicate RefusesOn(s: St, n: nat) {
    n <= |s.script| && forall i :: 0 <= i < n ==> s.script[i] == Event(0, Unusable(false), true, true)
  }

  lemma RetainSpends(t: St, k: Item)
    requires t.script == Refusing(0)
    ensures RefusesOn(RetainPrevious(t, k, ""), 5)
  {
    var r := ReadBackup(t, k);
    assert RefusesOn(r.s, 7);
    var u := UseKeychain(r.s);
    assert RefusesOn(u.s, 6);
  }

  lemma EmptyWriteIsSafeWithoutStale(s: St, k: Item, script: seq<Event>)
    requires !k.prev && (!s.mac || Stored(s, k) == "")
    requires WriteBackup(s.(script := script), k, "").ok
    ensures Serves(WriteBackup(s.(script := script), k, "").s, k, "")
  {
    var t := s.(script := script);
    RetainTouchesPrevOnly(t, k, "", k);
    var r := RetainPrevious(t, k, "");
    UseTouchesNothing(r, k);
    var u := UseKeychain(r);
    assert Untouched(s, u.s, k);
    EmptyWritesLand(u.s, k);
  }

  lemma EmptyWritesLand(s: St, k: Item)
    requires !s.mac || Stored(s, k) == ""
    ensures WriteToFile(s, k, "").ok ==> View(WriteToFile(s, k, "").s, k) == ""
    ensures WriteToKeychain(s, k, "").ok ==> View(WriteToKeychain(s, k, "").s, k) == ""
  {
    EmptyLands(s, k);
    EmptyLands(KcSet(s, k, "").s, k);
  }

  lemma EmptyLands(s: St, k: Item)
    requires !s.mac || Stored(s, k) == ""
    ensures WriteToFile(s, k, "").ok ==> View(WriteToFile(s, k, "").s, k) == ""
    ensures Reconcile(s, k, "").ok ==> View(Reconcile(s, k, "").s, k) == ""
  {
  }

  /**
   The empty credential is the exception, and exactly this one: on macOS, with a non-empty Keychain
   item left under the key, a write that falls back to a file can report success and expose it.
   */
  lemma NeverStaleExactly(s: St, k: Item, c: string)
    requires !k.prev
    ensures NeverStale(s, k, c) <==> c != "" || !s.mac || Stored(s, k) == ""
  {
    if c != "" {
      forall script | WriteBackup(s.(script := script), k, c).ok
        ensures Serves(WriteBackup(s.(script := script), k, c).s, k, c)
      {
        WriteIsAtomic(s.(script := script), k, c);
      }
    } else if s.mac && Stored(s, k) != "" {
      EmptyWriteCanExpose(s, k);
    } else {
      forall script | WriteBackup(s.(script := script), k, c).ok
        ensures Serves(WriteBackup(s.(script := script), k, c).s, k, c)
      {
        EmptyWriteIsSafeWithoutStale(s, k, script);
      }
    }
  }
}
