/** The migrations as the program runs them: counted emails, a loop over the pending accounts, two stores updated in place. */
module KeyringMigration {
  import opened Basics
  import Rosters
  import opened Relocation

  function CountIn(accounts: Accounts, slots: seq<Slot>, email: string): nat {
    if slots == [] then 0
    else (if slots[0] in accounts && accounts[slots[0]] == email then 1 else 0) + CountIn(accounts, slots[1..], email)
  }

  lemma {:induction false} CountIsZero(accounts: Accounts, slots: seq<Slot>, email: string)
    ensures CountIn(accounts, slots, email) == 0 <==> forall n :: n in slots && n in accounts ==> accounts[n] != email
  {
    if slots != [] {
      CountIsZero(accounts, slots[1..], email);
      assert forall n :: n in slots <==> n == slots[0] || n in slots[1..];
    }
  }

  /** Counting an email once is what makes it unique. */
  lemma {:induction false} CountIsOne(accounts: Accounts, slots: seq<Slot>, n: Slot)
    requires NoRepeats(slots) && n in slots && n in accounts
    ensures CountIn(accounts, slots, accounts[n]) == 1
       <==> forall m :: m in slots && m in accounts && m != n ==> accounts[m] != accounts[n]
  {
    assert forall m :: m in slots <==> m == slots[0] || m in slots[1..];
    assert slots[0] !in slots[1..];
    if slots[0] == n {
      CountIsZero(accounts, slots[1..], accounts[n]);
    } else {
      CountIsOne(accounts, slots[1..], n);
      if slots[0] in accounts && accounts[slots[0]] == accounts[n] {
        CountIsZero(accounts, slots[1..], accounts[n]);
      }
    }
  }

  /** What a run from here over these slots still comes to. */
  ghost predicate Ends(s: St, accounts: Accounts, pending: seq<Slot>, lucks: map<Slot, Luck>, end: St, failures: int)
    requires forall n :: n in pending ==> n in accounts
  {
    Last(Relocate(s, accounts, pending, lucks)) == end && Failures(s, accounts, pending, lucks) == failures
  }

  lemma EndsStep(s: St, accounts: Accounts, pending: seq<Slot>, lucks: map<Slot, Luck>, end: St, failures: int)
    requires pending != [] && (forall n :: n in pending ==> n in accounts)
    requires Ends(s, accounts, pending, lucks, end, failures)
    ensures var l := LuckOf(lucks, pending[0]);
            Ends(Last(Body(s, accounts, pending[0], l)), accounts, pending[1..], lucks, end,
                 failures - if Fails(s, accounts, pending[0], l) then 1 else 0)
  {
    RunTail(s, accounts, pending, lucks);
  }

  class Stores {
    var legacy: map<User, string>
    var next: map<Rosters.Key, string>
    /** The migration is recorded as applied. */
    var applied: bool
    /** Every state since the beginning. */
    ghost var seen: seq<St>

    ghost function V(): St
      reads this
    {
      St(legacy, next, applied)
    }

    constructor (s: St)
      ensures V() == s && seen == []
    {
      legacy, next, applied, seen := s.legacy, s.next, s.applied, [];
    }

    function Legacy(u: User): string
      reads this
    {
      if u in legacy then legacy[u] else ""
    }

    method CountEmails(accounts: Accounts, slots: seq<Slot>) returns (counts: map<string, nat>)
      ensures forall e :: (if e in counts then counts[e] else 0) == CountIn(accounts, slots, e)
    {
      counts := map[];
      for k := |slots| downto 0
        invariant forall e :: (if e in counts then counts[e] else 0) == CountIn(accounts, slots[k..], e)
      {
        assert slots[k..][1..] == slots[k + 1..];
        if slots[k] in accounts {
          var email := accounts[slots[k]];
          counts := counts[email := (if email in counts then counts[email] else 0) + 1];
        }
      }
    }

    /** The slot's own entry, or the shared alias when the email is unique. */
    method PickSource(accounts: Accounts, n: Slot, unique: bool, l: Luck) returns (s: Source)
      requires n in accounts && unique == UniqueEmail(accounts, n)
      ensures s == Choose(V(), accounts, n, l)
    {
      var email := accounts[n];
      if !l.readCanonical { return Unreadable; }
      var creds := Legacy(Canonical(n, email));
      if creds != "" { return From(Canonical(n, email), creds); }
      if !unique { return Nothing; }
      if !l.readNoSlot { return Unreadable; }
      creds := Legacy(NoSlot(email));
      s := if creds != "" then From(NoSlot(email), creds) else Nothing;
    }

    /** Writes, verifies, and only then deletes the source; a bad copy is discarded. */
    method WriteVerifyDelete(k: Rosters.Key, source: User, creds: string, l: Luck) returns (ok: bool)
      requires creds != ""
      modifies this
      ensures seen == old(seen) + Move(old(V()), k, source, creds, l)
      ensures V() == Last(Move(old(V()), k, source, creds, l))
      ensures ok <==> Verified(Written(old(V()), k, creds, l), k, creds, l)
      ensures ok ==> New(V(), k) == creds
      ensures !ok ==> legacy == old(legacy)
    {
      if l.written.Some? {
        next := next[k := l.written.value];
      } else if l.write {
        next := next[k := creds];
      }
      seen := seen + [V()];
      ok := l.write && l.readBack.Exact? && k in next && next[k] == creds;
      if !ok {
        if l.discard { next := next - {k}; }
        seen := seen + [V()];
        return;
      }
      if l.deleteSource { legacy := legacy - {source}; }
      seen := seen + [V()];
      if !source.NoSlot? {
        if l.deleteNoSlot { legacy := legacy - {NoSlot(k.email)}; }
        seen := seen + [V()];
      }
    }

    method RelocateOne(accounts: Accounts, n: Slot, unique: bool, l: Luck) returns (migrated: bool, failed: bool)
      requires n in accounts && unique == UniqueEmail(accounts, n)
      modifies this
      ensures seen == old(seen) + Body(old(V()), accounts, n, l)
      ensures V() == Last(Body(old(V()), accounts, n, l))
      ensures migrated ==> New(V(), Rosters.Key(n, accounts[n])) != ""
      ensures failed <==> Fails(old(V()), accounts, n, l)
      ensures failed ==> legacy == old(legacy)
    {
      migrated, failed := false, false;
      var source := PickSource(accounts, n, unique, l);
      seen := seen + [V()];
      match source {
        case Nothing =>
        case Unreadable => failed := true;
        case From(u, creds) =>
          migrated := WriteVerifyDelete(Rosters.Key(n, accounts[n]), u, creds, l);
          failed := !migrated;
      }
    }

    method IsUnique(accounts: Accounts, counts: map<string, nat>, n: Slot) returns (unique: bool)
      requires n in accounts
      requires forall e :: (if e in counts then counts[e] else 0) == CountIn(accounts, SlotsOf(accounts), e)
      ensures unique == UniqueEmail(accounts, n)
    {
      SlotsAre(accounts);
      CountIsOne(accounts, SlotsOf(accounts), n);
      unique := accounts[n] in counts && counts[accounts[n]] == 1;
    }

    method RelocateAll(accounts: Accounts, pending: seq<Slot>, lucks: map<Slot, Luck>)
      returns (migrated: nat, failed: nat)
      requires forall n :: n in pending ==> n in accounts
      modifies this
      ensures V() == Last(Relocate(old(V()), accounts, pending, lucks))
      ensures failed == Failures(old(V()), accounts, pending, lucks)
      ensures migrated + failed <= |pending|
    {
      var counts := CountEmails(accounts, SlotsOf(accounts));
      ghost var end := Last(Relocate(V(), accounts, pending, lucks));
      ghost var failures: int := Failures(V(), accounts, pending, lucks);
      migrated, failed := 0, 0;
      assert pending[0..] == pending;
      for k := 0 to |pending|
        invariant Ends(V(), accounts, pending[k..], lucks, end, failures - failed)
        invariant migrated + failed <= k
      {
        var n := pending[k];
        assert pending[k..][0] == n && pending[k..][1..] == pending[k + 1..];
        EndsStep(V(), accounts, pending[k..], lucks, end, failures - failed);
        var unique := IsUnique(accounts, counts, n);
        var done, bad := RelocateOne(accounts, n, unique, LuckOf(lucks, n));
        if bad { failed := failed + 1; } else if done { migrated := migrated + 1; }
      }
    }

    /** Every account, every time. */
    method MigrateWindows(accounts: Accounts, lucks: map<Slot, Luck>) returns (completed: bool)
      requires !applied
      modifies this
      ensures V() == Last(WindowsRun(old(V()), accounts, lucks, false))
      ensures completed <==> Failures(old(V()), accounts, SlotsOf(accounts), lucks) == 0
    {
      SlotsAre(accounts);
      var _, failed := RelocateAll(accounts, SlotsOf(accounts), lucks);
      completed := failed == 0;
    }

    /** An applied migration is skipped; one that completed is recorded, if that works. */
    method RunWindows(accounts: Accounts, lucks: map<Slot, Luck>, marks: bool)
      modifies this
      ensures V() == Last(WindowsRun(old(V()), accounts, lucks, marks))
    {
      if applied { return; }
      var completed := MigrateWindows(accounts, lucks);
      if completed && marks { applied := true; }
    }

    method PendingOf(accounts: Accounts, slots: seq<Slot>) returns (pending: seq<Slot>)
      requires forall n :: n in slots ==> n in accounts
      ensures pending == Missing(V(), accounts, slots)
    {
      pending := [];
      for k := 0 to |slots|
        invariant pending + Missing(V(), accounts, slots[k..]) == Missing(V(), accounts, slots)
      {
        assert slots[k..][1..] == slots[k + 1..];
        var key := Rosters.Key(slots[k], accounts[slots[k]]);
        if key !in next || next[key] == "" { pending := pending + [slots[k]]; }
      }
    }

    /** Only what the new store lacks is pending; an unreadable Keychain defers the run. */
    method MigrateMacOS(accounts: Accounts, lucks: map<Slot, Luck>, readable: bool) returns (completed: bool)
      requires !applied
      modifies this
      ensures V() == Last(MacRun(old(V()), accounts, lucks, readable, false))
      ensures completed <==> (accounts == map[] || (readable && Failures(old(V()), accounts, MacPending(old(V()), accounts), lucks) == 0))
    {
      SlotsAre(accounts);
      MissingAre(V(), accounts, SlotsOf(accounts));
      if accounts == map[] { return true; }
      if !readable { return false; }
      var pending := PendingOf(accounts, SlotsOf(accounts));
      var _, failed := RelocateAll(accounts, pending, lucks);
      completed := failed == 0;
    }

    method RunMacOS(accounts: Accounts, lucks: map<Slot, Luck>, readable: bool, marks: bool)
      modifies this
      ensures V() == Last(MacRun(old(V()), accounts, lucks, readable, marks))
    {
      if applied { return; }
      var completed := MigrateMacOS(accounts, lucks, readable);
      if completed && marks { applied := true; }
    }
  }
}
