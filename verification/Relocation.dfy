/**
 Moving backups out of a legacy keyring: write, read back, and only then delete the source.

 Two migrations share the loop. The macOS one first drops the accounts that the new store already
 has; the Windows one takes every account each time it runs. A run may fail for any account and die
 anywhere; it is repeated until one in which nothing failed has been recorded as applied.
 */
module Relocation {
  import opened Basics
  import opened Rosters

  datatype User = Canonical(num: Slot, email: string) | NoSlot(email: string)

  /** `applied`: the migration is recorded as done and will not run again. */
  datatype St = St(legacy: map<User, string>, next: map<Key, string>, applied: bool)

  datatype ReadBack = Exact | Blank | ReadError

  /** What goes wrong for one account in one run. `written` is what a bad write leaves, if it leaves anything. */
  datatype Luck = Luck(readCanonical: bool, readNoSlot: bool, write: bool, written: Option<string>, readBack: ReadBack,
                       discard: bool, deleteSource: bool, deleteNoSlot: bool)

  const SMOOTH := Luck(true, true, true, None, Exact, true, true, true)

  type Accounts = map<Slot, string>

  function Legacy(s: St, u: User): string {
    if u in s.legacy then s.legacy[u] else ""
  }

  function New(s: St, k: Key): string {
    if k in s.next then s.next[k] else ""
  }

  /** Exactly one managed account has this email. */
  ghost predicate UniqueEmail(accounts: Accounts, n: Slot) {
    n in accounts && forall m :: m in accounts && m != n ==> accounts[m] != accounts[n]
  }

  /** The credential the old program would find for the slot. */
  ghost function Resolved(s: St, accounts: Accounts, n: Slot): string
    requires n in accounts
  {
    var c := Legacy(s, Canonical(n, accounts[n]));
    if c != "" || !UniqueEmail(accounts, n) then c else Legacy(s, NoSlot(accounts[n]))
  }

  /** Where the credential is taken from, or nothing to do, or a read that failed. */
  datatype Source = Nothing | Unreadable | From(user: User, creds: string)

  ghost function Choose(s: St, accounts: Accounts, n: Slot, l: Luck): Source
    requires n in accounts
  {
    var u := Canonical(n, accounts[n]);
    if !l.readCanonical then Unreadable
    else if Legacy(s, u) != "" then From(u, Legacy(s, u))
    else if !UniqueEmail(accounts, n) then Nothing
    else if !l.readNoSlot then Unreadable
    else if Legacy(s, NoSlot(accounts[n])) != "" then From(NoSlot(accounts[n]), Legacy(s, NoSlot(accounts[n])))
    else Nothing
  }

  function Written(s: St, k: Key, c: string, l: Luck): St {
    if l.write && l.written.None? then s.(next := s.next[k := c])
    else if l.written.Some? then s.(next := s.next[k := l.written.value])
    else s
  }

  /** The write was reported good and reads back byte for byte. */
  predicate Verified(s: St, k: Key, c: string, l: Luck) {
    l.write && l.readBack.Exact? && New(s, k) == c
  }

  function Discarded(s: St, k: Key, l: Luck): St {
    if l.discard then s.(next := s.next - {k}) else s
  }

  function Dropped(s: St, u: User, ok: bool): St {
    if ok then s.(legacy := s.legacy - {u}) else s
  }

  /** The states after the source is known: written, then discarded, or verified and its sources deleted. */
  function Move(s: St, k: Key, u: User, c: string, l: Luck): (r: seq<St>)
    ensures r != []
  {
    var w := Written(s, k, c, l);
    if !Verified(w, k, c, l) then [w, Discarded(w, k, l)]
    else
      var d := Dropped(w, u, l.deleteSource);
      if u.NoSlot? then [w, d] else [w, d, Dropped(d, NoSlot(k.email), l.deleteNoSlot)]
  }

  /** The states that one account's relocation goes through, in order. */
  ghost function Body(s: St, accounts: Accounts, n: Slot, l: Luck): (r: seq<St>)
    requires n in accounts
    ensures r != [] && r[0] == s
  {
    match Choose(s, accounts, n, l)
    case From(u, c) => [s] + Move(s, Key(n, accounts[n]), u, c, l)
    case _ => [s]
  }

  function Last<T>(s: seq<T>): T
    requires s != []
  {
    s[|s| - 1]
  }

  function LuckOf(lucks: map<Slot, Luck>, n: Slot): Luck {
    if n in lucks then lucks[n] else SMOOTH
  }

  /** The states of a run over the pending slots. */
  ghost function Relocate(s: St, accounts: Accounts, pending: seq<Slot>, lucks: map<Slot, Luck>): (r: seq<St>)
    requires forall n :: n in pending ==> n in accounts
    ensures r != [] && r[0] == s
    decreases |pending|
  {
    if pending == [] then [s]
    else
      var n := pending[0];
      var b := Body(s, accounts, n, LuckOf(lucks, n));
      b + Relocate(Last(b), accounts, pending[1..], lucks)
  }

  /** The account counts as failed: a read failed, or the write could not be verified. Failed deletions do not count. */
  ghost predicate Fails(s: St, accounts: Accounts, n: Slot, l: Luck)
    requires n in accounts
  {
    match Choose(s, accounts, n, l)
    case Nothing => false
    case Unreadable => true
    case From(u, c) => !Verified(Written(s, Key(n, accounts[n]), c, l), Key(n, accounts[n]), c, l)
  }

  ghost function Failures(s: St, accounts: Accounts, pending: seq<Slot>, lucks: map<Slot, Luck>): nat
    requires forall n :: n in pending ==> n in accounts
    decreases |pending|
  {
    if pending == [] then 0
    else
      var n := pending[0];
      (if Fails(s, accounts, n, LuckOf(lucks, n)) then 1 else 0)
      + Failures(Last(Body(s, accounts, n, LuckOf(lucks, n))), accounts, pending[1..], lucks)
  }

  // ---- one account ---------------------------------------------------------------------

  /** The credential is still found the old way, or is byte for byte in the new store. */
  ghost predicate Conserved(s: St, accounts: Accounts, n: Slot, c: string)
    requires n in accounts
  {
    Resolved(s, accounts, n) == c || New(s, Key(n, accounts[n])) == c
  }

  lemma BodyConserves(s: St, accounts: Accounts, n: Slot, l: Luck, c: string, i: nat)
    requires n in accounts && c != "" && Resolved(s, accounts, n) == c
    requires i < |Body(s, accounts, n, l)|
    ensures Conserved(Body(s, accounts, n, l)[i], accounts, n, c)
  {
  }

  /** Neither the item nor the entry changed. */
  ghost predicate SameThere(s: St, t: St, x: Key, v: User) {
    New(t, x) == New(s, x) && Legacy(t, v) == Legacy(s, v)
  }

  lemma StepsTouch(s: St, k: Key, u: User, c: string, l: Luck, ok: bool, x: Key, v: User)
    ensures x != k ==> SameThere(s, Written(s, k, c, l), x, v) && SameThere(s, Discarded(s, k, l), x, v)
    ensures v != u ==> SameThere(s, Dropped(s, u, ok), x, v)
    ensures Legacy(Written(s, k, c, l), v) == Legacy(s, v) && Legacy(Discarded(s, k, l), v) == Legacy(s, v)
    ensures New(Dropped(s, u, ok), x) == New(s, x)
  {
  }

  lemma MoveTouches(s: St, k: Key, u: User, c: string, l: Luck, i: nat, x: Key, v: User)
    requires i < |Move(s, k, u, c, l)|
    ensures x != k ==> New(Move(s, k, u, c, l)[i], x) == New(s, x)
    ensures v != u && v != NoSlot(k.email) ==> Legacy(Move(s, k, u, c, l)[i], v) == Legacy(s, v)
  {
    var w := Written(s, k, c, l);
    StepsTouch(s, k, u, c, l, true, x, v);
    StepsTouch(w, k, u, c, l, l.deleteSource, x, v);
    StepsTouch(Dropped(w, u, l.deleteSource), k, NoSlot(k.email), c, l, l.deleteNoSlot, x, v);
  }

  lemma BodyTouches(s: St, accounts: Accounts, m: Slot, l: Luck, i: nat, k: Key, u: User)
    requires m in accounts && i < |Body(s, accounts, m, l)|
    ensures k != Key(m, accounts[m]) ==> New(Body(s, accounts, m, l)[i], k) == New(s, k)
    ensures u != Canonical(m, accounts[m]) && u != NoSlot(accounts[m]) ==>
              Legacy(Body(s, accounts, m, l)[i], u) == Legacy(s, u)
  {
    var source := Choose(s, accounts, m, l);
    if source.From? && i > 0 {
      assert source.user in {Canonical(m, accounts[m]), NoSlot(accounts[m])};
      MoveTouches(s, Key(m, accounts[m]), source.user, source.creds, l, i - 1, k, u);
    }
  }

  /** The two states agree on everything this slot reads. */
  ghost predicate Alike(s: St, t: St, accounts: Accounts, n: Slot)
    requires n in accounts
  {
    && New(t, Key(n, accounts[n])) == New(s, Key(n, accounts[n]))
    && Legacy(t, Canonical(n, accounts[n])) == Legacy(s, Canonical(n, accounts[n]))
    && (UniqueEmail(accounts, n) ==> Legacy(t, NoSlot(accounts[n])) == Legacy(s, NoSlot(accounts[n])))
  }

  lemma AlikeResolve(s: St, t: St, accounts: Accounts, n: Slot)
    requires n in accounts && Alike(s, t, accounts, n)
    ensures Resolved(t, accounts, n) == Resolved(s, accounts, n)
  {
  }

  /** Relocating one slot leaves what another slot reads alone. */
  lemma BodyIsLocal(s: St, accounts: Accounts, m: Slot, l: Luck, n: Slot, i: nat)
    requires m in accounts && n in accounts && m != n
    requires i < |Body(s, accounts, m, l)|
    ensures Alike(s, Body(s, accounts, m, l)[i], accounts, n)
    ensures Resolved(Body(s, accounts, m, l)[i], accounts, n) == Resolved(s, accounts, n)
  {
    BodyTouches(s, accounts, m, l, i, Key(n, accounts[n]), Canonical(n, accounts[n]));
    BodyTouches(s, accounts, m, l, i, Key(n, accounts[n]), NoSlot(accounts[n]));
    assert UniqueEmail(accounts, n) ==> accounts[m] != accounts[n];
    AlikeResolve(s, Body(s, accounts, m, l)[i], accounts, n);
  }

  // ---- one run ---------------------------------------------------------------------------

  lemma RunIndex(s: St, accounts: Accounts, pending: seq<Slot>, lucks: map<Slot, Luck>, i: nat)
    requires forall m :: m in pending ==> m in accounts
    requires pending != [] && i < |Relocate(s, accounts, pending, lucks)|
    ensures var b := Body(s, accounts, pending[0], LuckOf(lucks, pending[0]));
            var rest := Relocate(Last(b), accounts, pending[1..], lucks);
            && Relocate(s, accounts, pending, lucks)[i] == (if i < |b| then b[i] else rest[i - |b|])
            && (i >= |b| ==> i - |b| < |rest|)
  {
    RunSplits(s, accounts, pending, lucks);
    var b := Body(s, accounts, pending[0], LuckOf(lucks, pending[0]));
    InJoin(b, Relocate(Last(b), accounts, pending[1..], lucks), i);
  }

  lemma RunSplits(s: St, accounts: Accounts, pending: seq<Slot>, lucks: map<Slot, Luck>)
    requires pending != [] && forall m :: m in pending ==> m in accounts
    ensures var b := Body(s, accounts, pending[0], LuckOf(lucks, pending[0]));
            Relocate(s, accounts, pending, lucks) == b + Relocate(Last(b), accounts, pending[1..], lucks)
  {
  }

  lemma InJoin<T>(a: seq<T>, b: seq<T>, i: nat)
    requires i < |a + b|
    ensures (a + b)[i] == (if i < |a| then a[i] else b[i - |a|])
  {
  }

  lemma AlikeChains(s: St, t: St, u: St, accounts: Accounts, n: Slot)
    requires n in accounts && Alike(s, t, accounts, n) && Alike(t, u, accounts, n)
    ensures Alike(s, u, accounts, n)
  {
  }

  /** A run that does not concern the slot changes nothing for it. */
  lemma {:induction false} RunIsAlike(s: St, accounts: Accounts, pending: seq<Slot>, lucks: map<Slot, Luck>,
                                      n: Slot, i: nat)
    requires forall m :: m in pending ==> m in accounts
    requires n in accounts && n !in pending && i < |Relocate(s, accounts, pending, lucks)|
    ensures Alike(s, Relocate(s, accounts, pending, lucks)[i], accounts, n)
    decreases |pending|
  {
    if pending != [] {
      RunIndex(s, accounts, pending, lucks, i);
      var l := LuckOf(lucks, pending[0]);
      var b := Body(s, accounts, pending[0], l);
      if i < |b| {
        BodyIsLocal(s, accounts, pending[0], l, n, i);
      } else {
        BodyIsLocal(s, accounts, pending[0], l, n, |b| - 1);
        RunIsAlike(Last(b), accounts, pending[1..], lucks, n, i - |b|);
        AlikeChains(s, Last(b), Relocate(s, accounts, pending, lucks)[i], accounts, n);
      }
    }
  }

  lemma RunIsLocal(s: St, accounts: Accounts, pending: seq<Slot>, lucks: map<Slot, Luck>, n: Slot, i: nat)
    requires forall m :: m in pending ==> m in accounts
    requires n in accounts && n !in pending && i < |Relocate(s, accounts, pending, lucks)|
    ensures Alike(s, Relocate(s, accounts, pending, lucks)[i], accounts, n)
    ensures Resolved(Relocate(s, accounts, pending, lucks)[i], accounts, n) == Resolved(s, accounts, n)
  {
    RunIsAlike(s, accounts, pending, lucks, n, i);
    AlikeResolve(s, Relocate(s, accounts, pending, lucks)[i], accounts, n);
  }

  lemma RunTail(s: St, accounts: Accounts, pending: seq<Slot>, lucks: map<Slot, Luck>)
    requires pending != [] && forall m :: m in pending ==> m in accounts
    ensures Last(Relocate(s, accounts, pending, lucks))
         == Last(Relocate(Last(Body(s, accounts, pending[0], LuckOf(lucks, pending[0]))), accounts, pending[1..], lucks))
  {
  }

  lemma AlikeConserves(s: St, t: St, accounts: Accounts, n: Slot, c: string)
    requires n in accounts && Alike(s, t, accounts, n) && Conserved(s, accounts, n, c)
    ensures Conserved(t, accounts, n, c)
  {
    AlikeResolve(s, t, accounts, n);
  }

  lemma TailHasNoRepeats(s: seq<Slot>)
    requires s != [] && NoRepeats(s)
    ensures NoRepeats(s[1..]) && s[0] !in s[1..]
  {
  }

  /** The run once the slot's own turn has come. */
  lemma TurnConserves(s: St, accounts: Accounts, pending: seq<Slot>, lucks: map<Slot, Luck>, n: Slot, c: string, i: nat)
    requires NoRepeats(pending) && pending != [] && pending[0] == n && forall m :: m in pending ==> m in accounts
    requires c != "" && Resolved(s, accounts, n) == c && i < |Relocate(s, accounts, pending, lucks)|
    ensures Conserved(Relocate(s, accounts, pending, lucks)[i], accounts, n, c)
  {
    RunIndex(s, accounts, pending, lucks, i);
    var l := LuckOf(lucks, n);
    var b := Body(s, accounts, n, l);
    if i < |b| {
      BodyConserves(s, accounts, n, l, c, i);
    } else {
      BodyConserves(s, accounts, n, l, c, |b| - 1);
      TailHasNoRepeats(pending);
      RunIsAlike(Last(b), accounts, pending[1..], lucks, n, i - |b|);
      AlikeConserves(Last(b), Relocate(s, accounts, pending, lucks)[i], accounts, n, c);
    }
  }

  /** While it is another slot's turn, nothing changes for this one. */
  lemma OtherTurnConserves(s: St, accounts: Accounts, m: Slot, l: Luck, n: Slot, c: string, j: nat)
    requires m in accounts && n in accounts && m != n && Resolved(s, accounts, n) == c
    requires j < |Body(s, accounts, m, l)|
    ensures Resolved(Body(s, accounts, m, l)[j], accounts, n) == c
    ensures Conserved(Body(s, accounts, m, l)[j], accounts, n, c)
  {
    BodyIsLocal(s, accounts, m, l, n, j);
  }

  /** Whatever fails and wherever it dies, a run conserves the credential each slot resolves to. */
  lemma {:induction false} RunConserves(s: St, accounts: Accounts, pending: seq<Slot>, lucks: map<Slot, Luck>,
                                        n: Slot, c: string, i: nat)
    requires NoRepeats(pending) && forall m :: m in pending ==> m in accounts
    requires n in accounts && c != "" && Resolved(s, accounts, n) == c
    requires i < |Relocate(s, accounts, pending, lucks)|
    ensures Conserved(Relocate(s, accounts, pending, lucks)[i], accounts, n, c)
    decreases |pending|
  {
    if pending == [] {
      assert Relocate(s, accounts, pending, lucks) == [s];
    } else if pending[0] == n {
      TurnConserves(s, accounts, pending, lucks, n, c, i);
    } else {
      RunIndex(s, accounts, pending, lucks, i);
      var l := LuckOf(lucks, pending[0]);
      var b := Body(s, accounts, pending[0], l);
      OtherTurnConserves(s, accounts, pending[0], l, n, c, if i < |b| then i else |b| - 1);
      if i >= |b| {
        TailHasNoRepeats(pending);
        RunConserves(Last(b), accounts, pending[1..], lucks, n, c, i - |b|);
      }
    }
  }

  // ---- the two migrations -------------------------------------------------------------------

  function SlotsOf(accounts: Accounts): seq<Slot> {
    Ascending(accounts.Keys)
  }

  lemma SlotsAre(accounts: Accounts)
    ensures NoRepeats(SlotsOf(accounts)) && forall n :: n in SlotsOf(accounts) <==> n in accounts
  {
    assert forall n :: n in SlotsOf(accounts) <==> n in Elements(SlotsOf(accounts));
  }

  /** A run in which nothing failed is recorded as applied, if recording works. */
  ghost function Recorded(run: seq<St>, completed: bool, marks: bool): (r: seq<St>)
    requires run != []
    ensures r != [] && r[0] == run[0]
  {
    if completed && marks then run + [Last(run).(applied := true)] else run
  }

  /** Windows: every account, every time, until a run is recorded. */
  ghost function WindowsRun(s: St, accounts: Accounts, lucks: map<Slot, Luck>, marks: bool): (r: seq<St>)
    ensures r != [] && r[0] == s
  {
    SlotsAre(accounts);
    var slots := SlotsOf(accounts);
    if s.applied then [s]
    else Recorded(Relocate(s, accounts, slots, lucks), Failures(s, accounts, slots, lucks) == 0, marks)
  }

  /** The accounts that the new store does not have yet. */
  function Missing(s: St, accounts: Accounts, slots: seq<Slot>): seq<Slot>
    requires forall n :: n in slots ==> n in accounts
  {
    if slots == [] then []
    else if New(s, Key(slots[0], accounts[slots[0]])) == "" then [slots[0]] + Missing(s, accounts, slots[1..])
    else Missing(s, accounts, slots[1..])
  }

  lemma {:induction false} MissingAre(s: St, accounts: Accounts, slots: seq<Slot>)
    requires NoRepeats(slots) && forall n :: n in slots ==> n in accounts
    ensures NoRepeats(Missing(s, accounts, slots))
    ensures forall n :: n in Missing(s, accounts, slots) <==> n in slots && New(s, Key(n, accounts[n])) == ""
  {
    if slots != [] {
      MissingAre(s, accounts, slots[1..]);
      assert forall n :: n in slots <==> n == slots[0] || n in slots[1..];
      assert slots[0] !in slots[1..];
    }
  }

  function MacPending(s: St, accounts: Accounts): (r: seq<Slot>)
    ensures NoRepeats(r)
    ensures forall n :: n in r <==> n in accounts && New(s, Key(n, accounts[n])) == ""
  {
    SlotsAre(accounts);
    MissingAre(s, accounts, SlotsOf(accounts));
    Missing(s, accounts, SlotsOf(accounts))
  }

  /** macOS: what the new store lacks, until a run is recorded; an unreadable Keychain defers the whole run. */
  ghost function MacRun(s: St, accounts: Accounts, lucks: map<Slot, Luck>, readable: bool, marks: bool): (r: seq<St>)
    ensures r != [] && r[0] == s
  {
    var slots := MacPending(s, accounts);
    if s.applied || (!readable && accounts != map[]) then [s]
    else Recorded(Relocate(s, accounts, slots, lucks), Failures(s, accounts, slots, lucks) == 0, marks)
  }

  ghost predicate WindowsReaches(s: St, t: St, accounts: Accounts) {
    exists lucks: map<Slot, Luck>, marks: bool, i: nat :: WindowsReachesBy(s, t, accounts, lucks, marks, i)
  }

  ghost predicate WindowsReachesBy(s: St, t: St, accounts: Accounts, lucks: map<Slot, Luck>, marks: bool, i: nat) {
    i < |WindowsRun(s, accounts, lucks, marks)| && t == WindowsRun(s, accounts, lucks, marks)[i]
  }

  ghost predicate MacReaches(s: St, t: St, accounts: Accounts) {
    exists lucks: map<Slot, Luck>, readable: bool, marks: bool, i: nat ::
      MacReachesBy(s, t, accounts, lucks, readable, marks, i)
  }

  ghost predicate MacReachesBy(s: St, t: St, accounts: Accounts, lucks: map<Slot, Luck>, readable: bool, marks: bool,
                               i: nat) {
    i < |MacRun(s, accounts, lucks, readable, marks)| && t == MacRun(s, accounts, lucks, readable, marks)[i]
  }

  /** Each run starts where the one before it stopped, at its end or dead half-way. */
  ghost predicate WindowsRetries(trace: seq<St>, accounts: Accounts) {
    forall i, j :: 0 <= i < |trace| && j == i + 1 && j < |trace| ==> WindowsReaches(trace[i], trace[j], accounts)
  }

  ghost predicate MacRetries(trace: seq<St>, accounts: Accounts) {
    forall i, j :: 0 <= i < |trace| && j == i + 1 && j < |trace| ==> MacReaches(trace[i], trace[j], accounts)
  }

  /** A slot that the new store already has is not pending. */
  lemma PendingConserves(s: St, accounts: Accounts, pending: seq<Slot>, lucks: map<Slot, Luck>, n: Slot, c: string,
                         i: nat)
    requires NoRepeats(pending) && forall m :: m in pending ==> m in accounts && New(s, Key(m, accounts[m])) == ""
    requires n in accounts && c != "" && Conserved(s, accounts, n, c) && i < |Relocate(s, accounts, pending, lucks)|
    ensures Conserved(Relocate(s, accounts, pending, lucks)[i], accounts, n, c)
  {
    if Resolved(s, accounts, n) == c {
      RunConserves(s, accounts, pending, lucks, n, c, i);
    } else {
      RunIsAlike(s, accounts, pending, lucks, n, i);
      AlikeConserves(s, Relocate(s, accounts, pending, lucks)[i], accounts, n, c);
    }
  }

  ghost predicate AllConserved(run: seq<St>, accounts: Accounts, n: Slot, c: string)
    requires n in accounts
  {
    forall k :: 0 <= k < |run| ==> Conserved(run[k], accounts, n, c)
  }

  lemma PendingAllConserved(s: St, accounts: Accounts, pending: seq<Slot>, lucks: map<Slot, Luck>, n: Slot, c: string)
    requires NoRepeats(pending) && forall m :: m in pending ==> m in accounts && New(s, Key(m, accounts[m])) == ""
    requires n in accounts && c != "" && Conserved(s, accounts, n, c)
    ensures AllConserved(Relocate(s, accounts, pending, lucks), accounts, n, c)
  {
    var run := Relocate(s, accounts, pending, lucks);
    forall k | 0 <= k < |run| ensures Conserved(run[k], accounts, n, c) {
      PendingConserves(s, accounts, pending, lucks, n, c, k);
    }
  }

  lemma RecordingConserves(run: seq<St>, completed: bool, marks: bool, accounts: Accounts, n: Slot, c: string)
    requires n in accounts && run != [] && AllConserved(run, accounts, n, c)
    ensures AllConserved(Recorded(run, completed, marks), accounts, n, c)
  {
    assert Conserved(run[|run| - 1], accounts, n, c);
    assert Conserved(Last(run).(applied := true), accounts, n, c);
  }

  lemma MacRunConserves(s: St, accounts: Accounts, lucks: map<Slot, Luck>, readable: bool, marks: bool, n: Slot,
                        c: string)
    requires n in accounts && c != "" && Conserved(s, accounts, n, c)
    ensures AllConserved(MacRun(s, accounts, lucks, readable, marks), accounts, n, c)
  {
    var slots := MacPending(s, accounts);
    PendingAllConserved(s, accounts, slots, lucks, n, c);
    RecordingConserves(Relocate(s, accounts, slots, lucks), Failures(s, accounts, slots, lucks) == 0, marks, accounts, n, c);
  }

  lemma MacStepConserves(s: St, t: St, accounts: Accounts, n: Slot, c: string)
    requires n in accounts && c != "" && Conserved(s, accounts, n, c) && MacReaches(s, t, accounts)
    ensures Conserved(t, accounts, n, c)
  {
    var lucks, readable, marks, i :| MacReachesBy(s, t, accounts, lucks, readable, marks, i);
    MacRunConserves(s, accounts, lucks, readable, marks, n, c);
  }

  /** On macOS a credential survives any number of failed, interrupted and repeated runs. */
  lemma {:induction false} MacRetriesConserve(trace: seq<St>, accounts: Accounts, n: Slot, c: string, i: nat)
    requires MacRetries(trace, accounts) && i < |trace|
    requires n in accounts && c != "" && Resolved(trace[0], accounts, n) == c
    ensures Conserved(trace[i], accounts, n, c)
  {
    if i > 0 {
      MacRetriesConserve(trace, accounts, n, c, i - 1);
      MacStepConserves(trace[i - 1], trace[i], accounts, n, c);
    }
  }

  // ---- Windows, exactly ------------------------------------------------------------------------

  /** The slot has an entry of its own and, under its email alone, a different one in the shared alias. */
  ghost predicate TwoVersions(s: St, accounts: Accounts, n: Slot)
    requires n in accounts
  {
    && UniqueEmail(accounts, n)
    && Legacy(s, Canonical(n, accounts[n])) != ""
    && Legacy(s, NoSlot(accounts[n])) !in {"", Legacy(s, Canonical(n, accounts[n]))}
  }

  /** No sequence of runs loses the credential. */
  ghost predicate AlwaysConserved(s: St, accounts: Accounts, n: Slot)
    requires n in accounts
  {
    forall trace, i :: WindowsTrace(trace, accounts, s) && 0 <= i < |trace| ==>
      Conserved(trace[i], accounts, n, Resolved(s, accounts, n))
  }

  ghost predicate WindowsTrace(trace: seq<St>, accounts: Accounts, s: St) {
    trace != [] && trace[0] == s && WindowsRetries(trace, accounts)
  }

  /** One version at most is ever around, in the places this slot may read. */
  ghost predicate OneVersion(s: St, accounts: Accounts, n: Slot, c: string)
    requires n in accounts
  {
    && Legacy(s, Canonical(n, accounts[n])) in {c, ""}
    && (UniqueEmail(accounts, n) ==> Legacy(s, NoSlot(accounts[n])) in {c, ""})
    && Conserved(s, accounts, n, c)
  }

  lemma BodyKeepsOneVersion(s: St, accounts: Accounts, n: Slot, l: Luck, c: string, i: nat)
    requires n in accounts && c != "" && OneVersion(s, accounts, n, c)
    requires i < |Body(s, accounts, n, l)|
    ensures OneVersion(Body(s, accounts, n, l)[i], accounts, n, c)
  {
    var source := Choose(s, accounts, n, l);
    if source.From? && i > 0 {
      assert source.creds == c;
      MoveKeepsOneVersion(s, accounts, n, source.user, c, l, i - 1);
    }
  }

  lemma MoveKeepsOneVersion(s: St, accounts: Accounts, n: Slot, u: User, c: string, l: Luck, i: nat)
    requires n in accounts && c != "" && OneVersion(s, accounts, n, c)
    requires || u == Canonical(n, accounts[n])
             || (u == NoSlot(accounts[n]) && UniqueEmail(accounts, n) && Legacy(s, Canonical(n, accounts[n])) == "")
    requires Legacy(s, u) == c && i < |Move(s, Key(n, accounts[n]), u, c, l)|
    ensures OneVersion(Move(s, Key(n, accounts[n]), u, c, l)[i], accounts, n, c)
  {
  }

  lemma AlikeKeepsOneVersion(s: St, t: St, accounts: Accounts, n: Slot, c: string)
    requires n in accounts && Alike(s, t, accounts, n) && OneVersion(s, accounts, n, c)
    ensures OneVersion(t, accounts, n, c)
  {
    AlikeResolve(s, t, accounts, n);
  }

  lemma {:induction false} RunKeepsOneVersion(s: St, accounts: Accounts, pending: seq<Slot>, lucks: map<Slot, Luck>,
                                              n: Slot, c: string, i: nat)
    requires NoRepeats(pending) && forall m :: m in pending ==> m in accounts
    requires n in accounts && c != "" && OneVersion(s, accounts, n, c)
    requires i < |Relocate(s, accounts, pending, lucks)|
    ensures OneVersion(Relocate(s, accounts, pending, lucks)[i], accounts, n, c)
    decreases |pending|
  {
    if pending != [] {
      var m := pending[0];
      var l := LuckOf(lucks, m);
      var b := Body(s, accounts, m, l);
      var j := if i < |b| then i else |b| - 1;
      RunIndex(s, accounts, pending, lucks, i);
      if m == n {
        BodyKeepsOneVersion(s, accounts, n, l, c, j);
      } else {
        BodyIsLocal(s, accounts, m, l, n, j);
        AlikeKeepsOneVersion(s, b[j], accounts, n, c);
      }
      if i >= |b| {
        TailHasNoRepeats(pending);
        RunKeepsOneVersion(Last(b), accounts, pending[1..], lucks, n, c, i - |b|);
      }
    }
  }

  lemma WindowsRunIndex(s: St, accounts: Accounts, lucks: map<Slot, Luck>, marks: bool, i: nat) returns (j: nat)
    requires !s.applied && i < |WindowsRun(s, accounts, lucks, marks)|
    ensures forall n :: n in SlotsOf(accounts) ==> n in accounts
    ensures var run := Relocate(s, accounts, SlotsOf(accounts), lucks);
            j < |run| && WindowsRun(s, accounts, lucks, marks)[i] in {run[j], run[j].(applied := true)}
  {
    SlotsAre(accounts);
    var run := Relocate(s, accounts, SlotsOf(accounts), lucks);
    j := if i < |run| then i else |run| - 1;
  }

  lemma MarkKeepsOneVersion(s: St, accounts: Accounts, n: Slot, c: string)
    requires n in accounts && OneVersion(s, accounts, n, c)
    ensures OneVersion(s.(applied := true), accounts, n, c)
  {
    AlikeResolve(s, s.(applied := true), accounts, n);
  }

  lemma WindowsRunKeepsOneVersion(s: St, accounts: Accounts, lucks: map<Slot, Luck>, marks: bool, n: Slot, c: string,
                                  i: nat)
    requires n in accounts && c != "" && OneVersion(s, accounts, n, c)
    requires i < |WindowsRun(s, accounts, lucks, marks)|
    ensures OneVersion(WindowsRun(s, accounts, lucks, marks)[i], accounts, n, c)
  {
    if !s.applied {
      SlotsAre(accounts);
      var j := WindowsRunIndex(s, accounts, lucks, marks, i);
      RunKeepsOneVersion(s, accounts, SlotsOf(accounts), lucks, n, c, j);
      MarkKeepsOneVersion(Relocate(s, accounts, SlotsOf(accounts), lucks)[j], accounts, n, c);
    }
  }

  lemma {:induction false} RetriesKeepOneVersion(trace: seq<St>, accounts: Accounts, n: Slot, c: string, i: nat)
    requires WindowsRetries(trace, accounts) && i < |trace|
    requires n in accounts && c != "" && OneVersion(trace[0], accounts, n, c)
    ensures OneVersion(trace[i], accounts, n, c)
  {
    if i > 0 {
      RetriesKeepOneVersion(trace, accounts, n, c, i - 1);
      assert WindowsReaches(trace[i - 1], trace[i], accounts);
      var lucks, marks, k :| WindowsReachesBy(trace[i - 1], trace[i], accounts, lucks, marks, k);
      WindowsRunKeepsOneVersion(trace[i - 1], accounts, lucks, marks, n, c, k);
    }
  }

  /** The end of a run, for one slot, is the end of that slot's own part of it. */
  lemma {:induction false} RunEnd(s: St, accounts: Accounts, pending: seq<Slot>, lucks: map<Slot, Luck>, n: Slot,
                                  l: Luck)
    requires NoRepeats(pending) && forall m :: m in pending ==> m in accounts
    requires n in pending && l == LuckOf(lucks, n)
    ensures var t := Last(Relocate(s, accounts, pending, lucks));
            exists u :: Alike(s, u, accounts, n) && Alike(Last(Body(u, accounts, n, l)), t, accounts, n)
    decreases |pending|
  {
    var m := pending[0];
    var lm := LuckOf(lucks, m);
    var b := Body(s, accounts, m, lm);
    var rest := Relocate(Last(b), accounts, pending[1..], lucks);
    assert Last(Relocate(s, accounts, pending, lucks)) == Last(rest);
    if m == n {
      RunIsLocal(Last(b), accounts, pending[1..], lucks, n, |rest| - 1);
      assert Alike(s, s, accounts, n) && Alike(Last(b), Last(rest), accounts, n);
    } else {
      BodyIsLocal(s, accounts, m, lm, n, |b| - 1);
      RunEnd(Last(b), accounts, pending[1..], lucks, n, l);
      var u :| Alike(Last(b), u, accounts, n) && Alike(Last(Body(u, accounts, n, l)), Last(rest), accounts, n);
      AlikeChains(s, Last(b), u, accounts, n);
    }
  }

  // ---- nothing fails ---------------------------------------------------------------------------

  lemma SmoothBodyMigrates(s: St, accounts: Accounts, n: Slot)
    requires n in accounts
    ensures var t, c := Last(Body(s, accounts, n, SMOOTH)), Resolved(s, accounts, n);
            && Resolved(t, accounts, n) == ""
            && New(t, Key(n, accounts[n])) == if c == "" then New(s, Key(n, accounts[n])) else c
  {
  }

  lemma SmoothBodyCounts(s: St, accounts: Accounts, n: Slot)
    requires n in accounts
    ensures !Fails(s, accounts, n, SMOOTH)
  {
  }

  lemma {:induction false} SmoothRunCounts(s: St, accounts: Accounts, pending: seq<Slot>)
    requires forall m :: m in pending ==> m in accounts
    ensures Failures(s, accounts, pending, map[]) == 0
    decreases |pending|
  {
    if pending != [] {
      SmoothBodyCounts(s, accounts, pending[0]);
      SmoothRunCounts(Last(Body(s, accounts, pending[0], SMOOTH)), accounts, pending[1..]);
    }
  }

  lemma SmoothRunMigrates(s: St, accounts: Accounts, pending: seq<Slot>, n: Slot)
    requires NoRepeats(pending) && (forall m :: m in pending ==> m in accounts) && n in pending
    ensures var t, c := Last(Relocate(s, accounts, pending, map[])), Resolved(s, accounts, n);
            && Resolved(t, accounts, n) == ""
            && New(t, Key(n, accounts[n])) == if c == "" then New(s, Key(n, accounts[n])) else c
  {
    var t := Last(Relocate(s, accounts, pending, map[]));
    RunEnd(s, accounts, pending, map[], n, SMOOTH);
    var u :| Alike(s, u, accounts, n) && Alike(Last(Body(u, accounts, n, SMOOTH)), t, accounts, n);
    AlikeResolve(s, u, accounts, n);
    SmoothBodyMigrates(u, accounts, n);
    AlikeResolve(Last(Body(u, accounts, n, SMOOTH)), t, accounts, n);
  }

  /** A Windows run in which nothing fails is recorded, and has moved every credential the old store had. */
  lemma UndisturbedWindowsRun(s: St, accounts: Accounts, n: Slot)
    requires !s.applied && n in accounts
    ensures var t, c := Last(WindowsRun(s, accounts, map[], true)), Resolved(s, accounts, n);
            && t.applied && Resolved(t, accounts, n) == ""
            && New(t, Key(n, accounts[n])) == if c == "" then New(s, Key(n, accounts[n])) else c
  {
    SlotsAre(accounts);
    var slots := SlotsOf(accounts);
    SmoothRunCounts(s, accounts, slots);
    SmoothRunMigrates(s, accounts, slots, n);
    var u := Last(Relocate(s, accounts, slots, map[]));
    AlikeResolve(u, u.(applied := true), accounts, n);
  }

  /** So has a macOS run, for every slot that the new store lacked. */
  lemma UndisturbedMacRun(s: St, accounts: Accounts, n: Slot)
    requires !s.applied && n in accounts && New(s, Key(n, accounts[n])) == ""
    ensures var t := Last(MacRun(s, accounts, map[], true, true));
            && t.applied && Resolved(t, accounts, n) == ""
            && New(t, Key(n, accounts[n])) == Resolved(s, accounts, n)
  {
    var slots := MacPending(s, accounts);
    SmoothRunCounts(s, accounts, slots);
    SmoothRunMigrates(s, accounts, slots, n);
    var u := Last(Relocate(s, accounts, slots, map[]));
    AlikeResolve(u, u.(applied := true), accounts, n);
  }

  /** The item in the new store is what it was, the credential that the slot resolved to, or gone. */
  ghost predicate NoBadCopy(s: St, t: St, accounts: Accounts, n: Slot)
    requires n in accounts
  {
    var c := New(t, Key(n, accounts[n]));
    c == New(s, Key(n, accounts[n])) || c == Resolved(s, accounts, n) || c == ""
  }

  lemma BodyLeavesNoBadCopy(s: St, accounts: Accounts, n: Slot, l: Luck)
    requires n in accounts && l.discard
    ensures NoBadCopy(s, Last(Body(s, accounts, n, l)), accounts, n)
  {
  }

  lemma AlikeHasNoBadCopy(s: St, u: St, v: St, t: St, accounts: Accounts, n: Slot)
    requires n in accounts && Alike(s, u, accounts, n) && Alike(v, t, accounts, n) && NoBadCopy(u, v, accounts, n)
    ensures NoBadCopy(s, t, accounts, n)
  {
    AlikeResolve(s, u, accounts, n);
  }

  lemma RunLeavesNoBadCopy(s: St, accounts: Accounts, pending: seq<Slot>, lucks: map<Slot, Luck>, n: Slot)
    requires NoRepeats(pending) && (forall m :: m in pending ==> m in accounts) && n in accounts
    requires LuckOf(lucks, n).discard
    ensures NoBadCopy(s, Last(Relocate(s, accounts, pending, lucks)), accounts, n)
  {
    var run, l := Relocate(s, accounts, pending, lucks), LuckOf(lucks, n);
    if n in pending {
      RunEnd(s, accounts, pending, lucks, n, l);
      var u :| Alike(s, u, accounts, n) && Alike(Last(Body(u, accounts, n, l)), Last(run), accounts, n);
      BodyLeavesNoBadCopy(u, accounts, n, l);
      AlikeHasNoBadCopy(s, u, Last(Body(u, accounts, n, l)), Last(run), accounts, n);
    } else {
      RunIsLocal(s, accounts, pending, lucks, n, |run| - 1);
    }
  }

  lemma RecordedEnds(run: seq<St>, completed: bool, marks: bool)
    requires run != []
    ensures Last(Recorded(run, completed, marks)).next == Last(run).next
  {
  }

  /** However a completed run fails, a bad copy stays in the new store only if its own removal failed. */
  lemma WindowsLeavesNoBadCopy(s: St, accounts: Accounts, lucks: map<Slot, Luck>, marks: bool, n: Slot)
    requires n in accounts && LuckOf(lucks, n).discard
    ensures NoBadCopy(s, Last(WindowsRun(s, accounts, lucks, marks)), accounts, n)
  {
    SlotsAre(accounts);
    var slots := SlotsOf(accounts);
    RunLeavesNoBadCopy(s, accounts, slots, lucks, n);
    RecordedEnds(Relocate(s, accounts, slots, lucks), Failures(s, accounts, slots, lucks) == 0, marks);
  }

  lemma MacLeavesNoBadCopy(s: St, accounts: Accounts, lucks: map<Slot, Luck>, readable: bool, marks: bool, n: Slot)
    requires n in accounts && LuckOf(lucks, n).discard
    ensures NoBadCopy(s, Last(MacRun(s, accounts, lucks, readable, marks)), accounts, n)
  {
    var slots := MacPending(s, accounts);
    RunLeavesNoBadCopy(s, accounts, slots, lucks, n);
    RecordedEnds(Relocate(s, accounts, slots, lucks), Failures(s, accounts, slots, lucks) == 0, marks);
  }

  /** A macOS run that could not read the Keychain is made up for by the next one. */
  lemma DeferredRunIsMadeUp(s: St, accounts: Accounts, lucks: map<Slot, Luck>, marks: bool, n: Slot)
    requires !s.applied && n in accounts && New(s, Key(n, accounts[n])) == ""
    ensures var t := Last(MacRun(Last(MacRun(s, accounts, lucks, false, marks)), accounts, map[], true, true));
            && t.applied && Resolved(t, accounts, n) == ""
            && New(t, Key(n, accounts[n])) == Resolved(s, accounts, n)
  {
    UndisturbedMacRun(s, accounts, n);
  }

  // ---- Windows loses ---------------------------------------------------------------------------

  /** How the first run goes: the alias of slot `n` cannot be deleted, and `others` decide for the other slots. */
  function FirstLucks(others: map<Slot, Luck>, n: Slot): map<Slot, Luck> {
    others[n := SMOOTH.(deleteNoSlot := false)]
  }

  /** The end of a run before anything is recorded. */
  ghost function Unrecorded(s: St, accounts: Accounts, lucks: map<Slot, Luck>): St {
    SlotsAre(accounts);
    Last(Relocate(s, accounts, SlotsOf(accounts), lucks))
  }

  lemma UnrecordedIsReached(s: St, accounts: Accounts, lucks: map<Slot, Luck>)
    requires !s.applied
    ensures WindowsReaches(s, Unrecorded(s, accounts, lucks), accounts)
    ensures !Unrecorded(s, accounts, lucks).applied
  {
    SlotsAre(accounts);
    var run := Relocate(s, accounts, SlotsOf(accounts), lucks);
    RunRecordsNothing(s, accounts, SlotsOf(accounts), lucks);
    assert WindowsReachesBy(s, Last(run), accounts, lucks, false, |run| - 1);
  }

  lemma BodyRecordsNothing(s: St, accounts: Accounts, n: Slot, l: Luck)
    requires n in accounts
    ensures Last(Body(s, accounts, n, l)).applied == s.applied
  {
  }

  lemma {:induction false} RunRecordsNothing(s: St, accounts: Accounts, pending: seq<Slot>, lucks: map<Slot, Luck>)
    requires forall m :: m in pending ==> m in accounts
    ensures Last(Relocate(s, accounts, pending, lucks)).applied == s.applied
    decreases |pending|
  {
    if pending != [] {
      RunTail(s, accounts, pending, lucks);
      BodyRecordsNothing(s, accounts, pending[0], LuckOf(lucks, pending[0]));
      RunRecordsNothing(Last(Body(s, accounts, pending[0], LuckOf(lucks, pending[0]))), accounts, pending[1..], lucks);
    }
  }

  lemma FirstRun(s: St, accounts: Accounts, n: Slot, others: map<Slot, Luck>)
    requires n in accounts && TwoVersions(s, accounts, n)
    ensures var t := Unrecorded(s, accounts, FirstLucks(others, n));
            && Legacy(t, Canonical(n, accounts[n])) == ""
            && Legacy(t, NoSlot(accounts[n])) == Legacy(s, NoSlot(accounts[n]))
  {
    SlotsAre(accounts);
    var lucks := FirstLucks(others, n);
    var t := Unrecorded(s, accounts, lucks);
    RunEnd(s, accounts, SlotsOf(accounts), lucks, n, SMOOTH.(deleteNoSlot := false));
    var u :| Alike(s, u, accounts, n) && Alike(Last(Body(u, accounts, n, SMOOTH.(deleteNoSlot := false))), t, accounts, n);
    AfterFirst(u, accounts, n);
  }

  lemma SecondRun(s: St, accounts: Accounts, n: Slot)
    requires UniqueEmail(accounts, n) && Legacy(s, Canonical(n, accounts[n])) == "" && Legacy(s, NoSlot(accounts[n])) != ""
    ensures var t := Unrecorded(s, accounts, map[]);
            New(t, Key(n, accounts[n])) == Legacy(s, NoSlot(accounts[n])) && Resolved(t, accounts, n) == ""
  {
    SlotsAre(accounts);
    var t := Unrecorded(s, accounts, map[]);
    RunEnd(s, accounts, SlotsOf(accounts), map[], n, SMOOTH);
    var u :| Alike(s, u, accounts, n) && Alike(Last(Body(u, accounts, n, SMOOTH)), t, accounts, n);
    AfterSecond(u, accounts, n);
    AlikeResolve(Last(Body(u, accounts, n, SMOOTH)), t, accounts, n);
  }

  lemma Overwritten(s: St, accounts: Accounts, n: Slot, others: map<Slot, Luck>)
    requires n in accounts && TwoVersions(s, accounts, n)
    ensures var t := Unrecorded(Unrecorded(s, accounts, FirstLucks(others, n)), accounts, map[]);
            && !Conserved(t, accounts, n, Resolved(s, accounts, n))
            && !Conserved(t.(applied := true), accounts, n, Resolved(s, accounts, n))
  {
    FirstRun(s, accounts, n, others);
    SecondRun(Unrecorded(s, accounts, FirstLucks(others, n)), accounts, n);
    var t := Unrecorded(Unrecorded(s, accounts, FirstLucks(others, n)), accounts, map[]);
    AlikeResolve(t, t.(applied := true), accounts, n);
  }

  /**
   Two runs: the first fails to delete the alias, which does not count as a failure, and dies before
   it is recorded; the second takes the alias for the slot's credential.
   */
  lemma SecondRunOverwrites(s: St, accounts: Accounts, n: Slot) returns (trace: seq<St>)
    requires n in accounts && TwoVersions(s, accounts, n) && !s.applied
    ensures WindowsTrace(trace, accounts, s) && |trace| == 3
    ensures !Conserved(trace[2], accounts, n, Resolved(s, accounts, n))
  {
    var t1 := Unrecorded(s, accounts, FirstLucks(map[], n));
    var t2 := Unrecorded(t1, accounts, map[]);
    UnrecordedIsReached(s, accounts, FirstLucks(map[], n));
    UnrecordedIsReached(t1, accounts, map[]);
    Overwritten(s, accounts, n, map[]);
    trace := [s, t1, t2];
    TwoRuns(s, t1, t2, accounts);
  }

  lemma TwoRuns(s: St, t1: St, t2: St, accounts: Accounts)
    requires WindowsReaches(s, t1, accounts) && WindowsReaches(t1, t2, accounts)
    ensures WindowsTrace([s, t1, t2], accounts, s)
  {
  }

  lemma AfterFirst(u: St, accounts: Accounts, n: Slot)
    requires UniqueEmail(accounts, n) && Legacy(u, Canonical(n, accounts[n])) != ""
    ensures var t := Last(Body(u, accounts, n, SMOOTH.(deleteNoSlot := false)));
            && Legacy(t, Canonical(n, accounts[n])) == ""
            && Legacy(t, NoSlot(accounts[n])) == Legacy(u, NoSlot(accounts[n]))
  {
  }

  lemma AfterSecond(u: St, accounts: Accounts, n: Slot)
    requires UniqueEmail(accounts, n) && Legacy(u, Canonical(n, accounts[n])) == "" && Legacy(u, NoSlot(accounts[n])) != ""
    ensures var t := Last(Body(u, accounts, n, SMOOTH));
            && New(t, Key(n, accounts[n])) == Legacy(u, NoSlot(accounts[n]))
            && Resolved(t, accounts, n) == ""
  {
  }

  /**
   On Windows every sequence of runs conserves the slot's credential unless, and only unless, the
   slot has an entry of its own and a different one under the alias that its email alone selects,
   and the migration has yet to be recorded.
   */
  lemma WindowsConservesExactly(s: St, accounts: Accounts, n: Slot)
    requires n in accounts && Resolved(s, accounts, n) != ""
    ensures AlwaysConserved(s, accounts, n) <==> !TwoVersions(s, accounts, n) || s.applied
  {
    var c := Resolved(s, accounts, n);
    if s.applied {
      forall trace, i | WindowsTrace(trace, accounts, s) && 0 <= i < |trace| ensures Conserved(trace[i], accounts, n, c) {
        AppliedStays(trace, accounts, i);
      }
    } else if TwoVersions(s, accounts, n) {
      var trace := SecondRunOverwrites(s, accounts, n);
      assert !AlwaysConserved(s, accounts, n);
    } else {
      assert OneVersion(s, accounts, n, c);
      forall trace, i | WindowsTrace(trace, accounts, s) && 0 <= i < |trace| ensures Conserved(trace[i], accounts, n, c) {
        RetriesKeepOneVersion(trace, accounts, n, c, i);
      }
    }
  }

  lemma {:induction false} AppliedStays(trace: seq<St>, accounts: Accounts, i: nat)
    requires trace != [] && trace[0].applied && WindowsRetries(trace, accounts) && i < |trace|
    ensures trace[i] == trace[0]
  {
    if i > 0 {
      AppliedStays(trace, accounts, i - 1);
      assert WindowsReaches(trace[i - 1], trace[i], accounts);
    }
  }

  // ---- when nothing dies --------------------------------------------------------------------------

  /** A run that does not die, and is recorded if nothing in it failed. */
  ghost predicate Completes(s: St, t: St, accounts: Accounts) {
    exists lucks: map<Slot, Luck> :: t == Last(WindowsRun(s, accounts, lucks, true))
  }

  ghost predicate WholeRuns(trace: seq<St>, accounts: Accounts, s: St) {
    && trace != [] && trace[0] == s
    && forall i, j :: 0 <= i < |trace| && j == i + 1 && j < |trace| ==> Completes(trace[i], trace[j], accounts)
  }

  ghost predicate ConservedByWholeRuns(s: St, accounts: Accounts, n: Slot)
    requires n in accounts
  {
    forall trace, i :: WholeRuns(trace, accounts, s) && 0 <= i < |trace| ==>
      Conserved(trace[i], accounts, n, Resolved(s, accounts, n))
  }

  lemma {:induction false} UnreadableFails(s: St, accounts: Accounts, pending: seq<Slot>, lucks: map<Slot, Luck>, m: Slot)
    requires (forall k :: k in pending ==> k in accounts) && m in pending && !LuckOf(lucks, m).readCanonical
    ensures Failures(s, accounts, pending, lucks) > 0
    decreases |pending|
  {
    if pending[0] != m {
      UnreadableFails(Last(Body(s, accounts, pending[0], LuckOf(lucks, pending[0]))), accounts, pending[1..], lucks, m);
    }
  }

  /** A run in which an account cannot be read ends unrecorded. */
  lemma UnreadableRunEnds(s: St, accounts: Accounts, lucks: map<Slot, Luck>, m: Slot)
    requires !s.applied && m in accounts && !LuckOf(lucks, m).readCanonical
    ensures Completes(s, Unrecorded(s, accounts, lucks), accounts)
  {
    SlotsAre(accounts);
    UnreadableFails(s, accounts, SlotsOf(accounts), lucks, m);
    assert Unrecorded(s, accounts, lucks) == Last(WindowsRun(s, accounts, lucks, true));
  }

  lemma WholeRunEnds(s: St, accounts: Accounts, lucks: map<Slot, Luck>) returns (t: St)
    requires !s.applied
    ensures Completes(s, t, accounts)
    ensures t == Unrecorded(s, accounts, lucks) || t == Unrecorded(s, accounts, lucks).(applied := true)
  {
    t := Last(WindowsRun(s, accounts, lucks, true));
  }

  /** Another account that cannot be read keeps the first run from being recorded. */
  lemma AnotherFailureLoses(s: St, accounts: Accounts, n: Slot, m: Slot) returns (trace: seq<St>)
    requires n in accounts && TwoVersions(s, accounts, n) && !s.applied && m in accounts && m != n
    ensures WholeRuns(trace, accounts, s) && |trace| == 3
    ensures !Conserved(trace[2], accounts, n, Resolved(s, accounts, n))
  {
    var others := map[m := SMOOTH.(readCanonical := false)];
    var lucks := FirstLucks(others, n);
    var t1 := Unrecorded(s, accounts, lucks);
    UnreadableRunEnds(s, accounts, lucks, m);
    UnrecordedIsReached(s, accounts, lucks);
    Overwritten(s, accounts, n, others);
    var t2 := WholeRunEnds(t1, accounts, map[]);
    trace := [s, t1, t2];
    TwoWholeRuns(s, t1, t2, accounts);
  }

  lemma TwoWholeRuns(s: St, t1: St, t2: St, accounts: Accounts)
    requires Completes(s, t1, accounts) && Completes(t1, t2, accounts)
    ensures WholeRuns([s, t1, t2], accounts, s)
  {
  }

  /** With one account: its own run succeeded and was recorded, or it failed and left the source alone. */
  ghost predicate SettledOrIntact(s: St, accounts: Accounts, n: Slot, c: string)
    requires n in accounts
  {
    if s.applied then New(s, Key(n, accounts[n])) == c else Resolved(s, accounts, n) == c
  }

  lemma OneBody(s: St, accounts: Accounts, n: Slot, l: Luck, c: string)
    requires n in accounts && c != "" && Resolved(s, accounts, n) == c
    ensures var t := Last(Body(s, accounts, n, l));
            if Fails(s, accounts, n, l) then Resolved(t, accounts, n) == c else New(t, Key(n, accounts[n])) == c
  {
  }

  lemma SlotsOfOne(accounts: Accounts, n: Slot)
    requires accounts.Keys == {n}
    ensures SlotsOf(accounts) == [n]
  {
    IncreasingUnique(SlotsOf(accounts), [n]);
  }

  lemma SoleRun(s: St, accounts: Accounts, n: Slot, lucks: map<Slot, Luck>, c: string)
    requires accounts.Keys == {n} && c != "" && SettledOrIntact(s, accounts, n, c)
    ensures SettledOrIntact(Last(WindowsRun(s, accounts, lucks, true)), accounts, n, c)
  {
    if !s.applied {
      SlotsOfOne(accounts, n);
      var l := LuckOf(lucks, n);
      assert [n][1..] == [];
      RunTail(s, accounts, [n], lucks);
      var t := Last(Body(s, accounts, n, l));
      assert Last(Relocate(s, accounts, [n], lucks)) == t;
      OneBody(s, accounts, n, l, c);
      RunRecordsNothing(s, accounts, [n], lucks);
      assert Failures(s, accounts, [n], lucks) == (if Fails(s, accounts, n, l) then 1 else 0);
    }
  }

  lemma {:induction false} SoleRunsKeep(trace: seq<St>, accounts: Accounts, n: Slot, c: string, s: St, i: nat)
    requires WholeRuns(trace, accounts, s) && i < |trace|
    requires accounts.Keys == {n} && c != "" && SettledOrIntact(s, accounts, n, c)
    ensures SettledOrIntact(trace[i], accounts, n, c)
  {
    if i > 0 {
      SoleRunsKeep(trace, accounts, n, c, s, i - 1);
      assert Completes(trace[i - 1], trace[i], accounts);
      var lucks :| trace[i] == Last(WindowsRun(trace[i - 1], accounts, lucks, true));
      SoleRun(trace[i - 1], accounts, n, lucks, c);
    }
  }

  /**
   Recording a run narrows the loss but does not close it: when every run completes and every
   complete run is recorded, a slot with two versions is safe exactly when it is the only account,
   for another account that fails keeps the run from being recorded.
   */
  lemma WholeRunsConserveExactly(s: St, accounts: Accounts, n: Slot)
    requires n in accounts && Resolved(s, accounts, n) != "" && !s.applied
    ensures ConservedByWholeRuns(s, accounts, n) <==> !TwoVersions(s, accounts, n) || accounts.Keys == {n}
  {
    var c := Resolved(s, accounts, n);
    if accounts.Keys == {n} {
      forall trace, i | WholeRuns(trace, accounts, s) && 0 <= i < |trace| ensures Conserved(trace[i], accounts, n, c) {
        SoleRunsKeep(trace, accounts, n, c, s, i);
      }
    } else if TwoVersions(s, accounts, n) {
      var m :| m in accounts.Keys && m != n;
      var trace := AnotherFailureLoses(s, accounts, n, m);
      assert !ConservedByWholeRuns(s, accounts, n);
    } else {
      WindowsConservesExactly(s, accounts, n);
      forall trace, i | WholeRuns(trace, accounts, s) && 0 <= i < |trace| ensures Conserved(trace[i], accounts, n, c) {
        WholeRunsAreRuns(trace, accounts, s);
      }
    }
  }

  lemma WholeRunsAreRuns(trace: seq<St>, accounts: Accounts, s: St)
    requires WholeRuns(trace, accounts, s)
    ensures WindowsTrace(trace, accounts, s)
  {
    forall i, j | 0 <= i < |trace| && j == i + 1 && j < |trace| ensures WindowsReaches(trace[i], trace[j], accounts) {
      assert Completes(trace[i], trace[j], accounts);
      var lucks :| trace[j] == Last(WindowsRun(trace[i], accounts, lucks, true));
      assert WindowsReachesBy(trace[i], trace[j], accounts, lucks, true, |WindowsRun(trace[i], accounts, lucks, true)| - 1);
    }
  }
}
