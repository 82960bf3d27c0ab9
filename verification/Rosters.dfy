/** The account roster (sequence.json): its records, the lookups over it, and the edits commands make to it. */
module Rosters {
  import opened Basics

  datatype Rec = Rec(email: string, org: string, orgName: string, uuid: string, alias: string, apiKey: bool)

  datatype Roster = Roster(active: Option<Slot>, sequence: seq<Slot>, accounts: map<Slot, Rec>)

  /** Backups are filed under the slot and the email of the account. */
  datatype Key = Key(slot: Slot, email: string)

  function KeyOf(r: Roster, n: Slot): Key
    requires n in r.accounts
  {
    Key(n, r.accounts[n].email)
  }

  predicate SameIdentity(a: Rec, b: Rec) {
    a.email == b.email && a.org == b.org
  }

  predicate Holds(r: Roster, n: Slot, email: string, org: string) {
    n in r.accounts && r.accounts[n].email == email && r.accounts[n].org == org
  }

  predicate AliasedAs(r: Roster, n: Slot, alias: string) {
    n in r.accounts && alias != "" && Lower(r.accounts[n].alias) == Lower(alias)
  }

  predicate SameAlias(a: Rec, b: Rec) {
    a.alias != "" && Lower(a.alias) == Lower(b.alias)
  }

  predicate Clash(a: Rec, b: Rec) {
    SameIdentity(a, b) || SameAlias(a, b)
  }

  ghost predicate NoClashes(accounts: map<Slot, Rec>) {
    forall m, n :: m in accounts && n in accounts && m != n ==> !Clash(accounts[m], accounts[n])
  }

  ghost predicate Listed(r: Roster) {
    && Increasing(r.sequence)
    && Elements(r.sequence) == r.accounts.Keys
  }

  /**
   What every reachable roster satisfies: the rotation sequence is the increasing list of the
   slots, slots are positive, no two accounts share an (email, org) identity, and no two share
   an alias, ignoring case.
   */
  ghost predicate Inv(r: Roster) {
    && Listed(r)
    && NoClashes(r.accounts)
  }

  // ---- lookups ------------------------------------------------------------------

  function ScanIdentity(r: Roster, slots: seq<Slot>, email: string, org: string): Option<Slot> {
    if slots == [] then None
    else if Holds(r, slots[0], email, org) then Some(slots[0])
    else ScanIdentity(r, slots[1..], email, org)
  }

  function FindSlot(r: Roster, email: string, org: string): Option<Slot> {
    ScanIdentity(r, Ascending(r.accounts.Keys), email, org)
  }

  function ScanAlias(r: Roster, slots: seq<Slot>, alias: string): Option<Slot> {
    if slots == [] then None
    else if AliasedAs(r, slots[0], alias) then Some(slots[0])
    else ScanAlias(r, slots[1..], alias)
  }

  function FindAlias(r: Roster, alias: string): Option<Slot> {
    if alias == "" then None else ScanAlias(r, Ascending(r.accounts.Keys), alias)
  }

  /** The slot already using an alias, other than the one allowed to keep it. */
  function AliasInUse(r: Roster, alias: string, except: Option<Slot>): Option<Slot> {
    var n := FindAlias(r, alias);
    if n.Some? && n == except then None else n
  }

  lemma {:induction false} ScanIdentityFinds(r: Roster, slots: seq<Slot>, email: string, org: string)
    ensures match ScanIdentity(r, slots, email, org)
            case Some(n) => n in slots && Holds(r, n, email, org)
            case None => forall n :: n in slots ==> !Holds(r, n, email, org)
  {
    if slots != [] {
      ScanIdentityFinds(r, slots[1..], email, org);
      assert forall n :: n in slots <==> n == slots[0] || n in slots[1..];
    }
  }

  lemma {:induction false} ScanAliasFinds(r: Roster, slots: seq<Slot>, alias: string)
    ensures match ScanAlias(r, slots, alias)
            case Some(n) => n in slots && AliasedAs(r, n, alias)
            case None => forall n :: n in slots ==> !AliasedAs(r, n, alias)
  {
    if slots != [] {
      ScanAliasFinds(r, slots[1..], alias);
      assert forall n :: n in slots <==> n == slots[0] || n in slots[1..];
    }
  }

  /** The composite lookup finds an identity exactly when some slot holds it. */
  lemma FindSlotFinds(r: Roster, email: string, org: string)
    ensures match FindSlot(r, email, org)
            case Some(n) => Holds(r, n, email, org)
            case None => forall n :: !Holds(r, n, email, org)
  {
    var slots := Ascending(r.accounts.Keys);
    ScanIdentityFinds(r, slots, email, org);
    forall n | n in r.accounts ensures n in slots { assert n in Elements(slots); }
  }

  lemma FindAliasFinds(r: Roster, alias: string)
    ensures match FindAlias(r, alias)
            case Some(n) => AliasedAs(r, n, alias)
            case None => forall n :: !AliasedAs(r, n, alias)
  {
    var slots := Ascending(r.accounts.Keys);
    ScanAliasFinds(r, slots, alias);
    forall n | n in r.accounts ensures n in slots { assert n in Elements(slots); }
  }

  function Largest(slots: seq<Slot>): (m: nat)
    ensures forall n :: n in slots ==> n <= m
    ensures m == 0 || m in slots
  {
    if slots == [] then 0
    else
      var rest := Largest(slots[1..]);
      assert forall n :: n in slots <==> n == slots[0] || n in slots[1..];
      if slots[0] > rest then slots[0] else rest
  }

  function LargestSlot(r: Roster): (m: nat)
    ensures forall n :: n in r.accounts ==> n <= m
    ensures m == 0 || m in r.accounts
  {
    var slots := Ascending(r.accounts.Keys);
    assert forall n :: n in r.accounts ==> n in Elements(slots);
    assert forall n :: n in slots ==> n in Elements(slots);
    Largest(slots)
  }

  function NextNumber(r: Roster): Slot {
    LargestSlot(r) + 1
  }

  /** What a user types to name an account: digits, or an alias or email. */
  datatype Ident = Number(n: Slot) | Name(s: string)

  datatype Resolved = Found(slot: Slot) | NotFound | Ambiguous

  function EmailMatches(r: Roster, slots: seq<Slot>, email: string): seq<Slot> {
    if slots == [] then []
    else
      var rest := EmailMatches(r, slots[1..], email);
      if slots[0] in r.accounts && r.accounts[slots[0]].email == email then [slots[0]] + rest else rest
  }

  /** Digits always win, then an alias, then an email that only one account carries. */
  function Resolve(r: Roster, id: Ident): Resolved {
    match id
    case Number(n) => if n in r.accounts then Found(n) else NotFound
    case Name(s) =>
      match FindAlias(r, s) {
        case Some(n) => Found(n)
        case None =>
          var matches := EmailMatches(r, Ascending(r.accounts.Keys), s);
          if |matches| == 0 then NotFound
          else if |matches| == 1 then Found(matches[0])
          else Ambiguous
      }
  }

  lemma {:induction false} EmailMatchesAre(r: Roster, slots: seq<Slot>, email: string)
    ensures forall n :: n in EmailMatches(r, slots, email)
                        <==> n in slots && n in r.accounts && r.accounts[n].email == email
  {
    if slots != [] {
      EmailMatchesAre(r, slots[1..], email);
      assert forall n :: n in slots <==> n == slots[0] || n in slots[1..];
      var rest := EmailMatches(r, slots[1..], email);
      assert forall n :: n in [slots[0]] + rest <==> n == slots[0] || n in rest;
    }
  }

  /** A resolved slot exists, and answers to the name that was typed. */
  lemma ResolveFinds(r: Roster, id: Ident)
    ensures match Resolve(r, id)
            case Found(n) =>
              && n in r.accounts
              && (id.Number? ==> n == id.n)
              && (id.Name? ==> AliasedAs(r, n, id.s) || r.accounts[n].email == id.s)
            case _ => id.Number? ==> id.n !in r.accounts
  {
    if id.Name? {
      FindAliasFinds(r, id.s);
      EmailMatchesAre(r, Ascending(r.accounts.Keys), id.s);
    }
  }

  ghost predicate NoneAliased(r: Roster, alias: string) {
    forall n :: !AliasedAs(r, n, alias)
  }

  ghost predicate FirstAliased(r: Roster, n: Slot, alias: string) {
    AliasedAs(r, n, alias) && forall m :: AliasedAs(r, m, alias) ==> n <= m
  }

  predicate HasEmail(r: Roster, n: Slot, email: string) {
    n in r.accounts && r.accounts[n].email == email
  }

  ghost predicate OnlyWithEmail(r: Roster, n: Slot, email: string) {
    HasEmail(r, n, email) && forall m :: HasEmail(r, m, email) ==> m == n
  }

  lemma {:induction false} ScanAliasFirst(r: Roster, slots: seq<Slot>, alias: string)
    requires Increasing(slots) && ScanAlias(r, slots, alias).Some?
    ensures forall m :: m in slots && AliasedAs(r, m, alias) ==> ScanAlias(r, slots, alias).value <= m
  {
    if !AliasedAs(r, slots[0], alias) {
      ScanAliasFirst(r, slots[1..], alias);
      assert forall m :: m in slots <==> m == slots[0] || m in slots[1..];
    }
  }

  lemma FindAliasFirst(r: Roster, alias: string)
    ensures match FindAlias(r, alias)
            case Some(n) => FirstAliased(r, n, alias)
            case None => NoneAliased(r, alias)
  {
    FindAliasFinds(r, alias);
    if FindAlias(r, alias).Some? {
      var slots := Ascending(r.accounts.Keys);
      ScanAliasFirst(r, slots, alias);
      forall m | AliasedAs(r, m, alias) ensures m in slots { assert m in Elements(slots); }
    }
  }

  lemma {:induction false} EmailMatchesIncrease(r: Roster, slots: seq<Slot>, email: string)
    requires Increasing(slots)
    ensures Increasing(EmailMatches(r, slots, email))
  {
    if slots != [] {
      EmailMatchesIncrease(r, slots[1..], email);
      var rest := EmailMatches(r, slots[1..], email);
      EmailMatchesAre(r, slots[1..], email);
      forall j | 0 <= j < |rest| ensures slots[0] < rest[j] { assert rest[j] in slots[1..]; }
    }
  }

  lemma EmailMatchesHold(r: Roster, email: string)
    ensures var matches := EmailMatches(r, Ascending(r.accounts.Keys), email);
            Increasing(matches) && forall n :: n in matches <==> HasEmail(r, n, email)
  {
    var slots := Ascending(r.accounts.Keys);
    EmailMatchesAre(r, slots, email);
    EmailMatchesIncrease(r, slots, email);
    forall n ensures n in slots <==> n in r.accounts { assert n in slots <==> n in Elements(slots); }
  }

  /** How many accounts carry an email: none, one, or two at least. */
  lemma HoldersCount(r: Roster, email: string, matches: seq<Slot>)
    requires Increasing(matches)
    requires forall n :: n in matches <==> HasEmail(r, n, email)
    ensures |matches| == 0 <==> forall n :: !HasEmail(r, n, email)
    ensures |matches| == 1 ==> OnlyWithEmail(r, matches[0], email)
    ensures |matches| >= 2 ==> matches[0] != matches[1] && HasEmail(r, matches[0], email) && HasEmail(r, matches[1], email)
  {
    if |matches| >= 1 { assert matches[0] in matches; }
    if |matches| >= 2 { assert matches[1] in matches; }
  }

  /** A number names its own slot; a name, the slot with that alias, or else the only one with that email. */
  ghost predicate Names(r: Roster, id: Ident, n: Slot) {
    match id
    case Number(k) => n == k && n in r.accounts
    case Name(s) => FirstAliased(r, n, s) || (NoneAliased(r, s) && OnlyWithEmail(r, n, s))
  }

  /** No slot carries the name as its alias, and two or more as their email. */
  ghost predicate NamesSeveral(r: Roster, id: Ident) {
    id.Name? && NoneAliased(r, id.s) && exists m, n :: m != n && HasEmail(r, m, id.s) && HasEmail(r, n, id.s)
  }

  ghost predicate NamesNobody(r: Roster, id: Ident) {
    match id
    case Number(k) => k !in r.accounts
    case Name(s) => NoneAliased(r, s) && forall n :: !HasEmail(r, n, s)
  }

  lemma AliasResolves(r: Roster, s: string)
    requires FindAlias(r, s).Some?
    ensures Resolve(r, Name(s)).Found? && !NoneAliased(r, s)
    ensures forall n :: n == Resolve(r, Name(s)).slot <==> FirstAliased(r, n, s)
  {
    FindAliasFirst(r, s);
  }

  lemma EmailResolves(r: Roster, s: string)
    requires FindAlias(r, s).None?
    ensures NoneAliased(r, s)
    ensures forall n :: Resolve(r, Name(s)) == Found(n) <==> OnlyWithEmail(r, n, s)
    ensures Resolve(r, Name(s)) == Ambiguous <==> exists m, n :: m != n && HasEmail(r, m, s) && HasEmail(r, n, s)
    ensures Resolve(r, Name(s)) == NotFound <==> forall n :: !HasEmail(r, n, s)
  {
    FindAliasFirst(r, s);
    EmailMatchesHold(r, s);
    HoldersCount(r, s, EmailMatches(r, Ascending(r.accounts.Keys), s));
  }

  /** Every identifier resolves to the slot it names, is ambiguous exactly when it names several, and is unknown otherwise. */
  lemma ResolveExactly(r: Roster, id: Ident)
    ensures forall n :: Resolve(r, id) == Found(n) <==> Names(r, id, n)
    ensures Resolve(r, id) == Ambiguous <==> NamesSeveral(r, id)
    ensures Resolve(r, id) == NotFound <==> NamesNobody(r, id)
  {
    if id.Name? {
      if FindAlias(r, id.s).Some? { AliasResolves(r, id.s); } else { EmailResolves(r, id.s); }
    }
  }

  // ---- edits --------------------------------------------------------------------

  function RemoveSlot(s: seq<Slot>, v: Slot): seq<Slot> {
    if s == [] then []
    else if s[0] == v then RemoveSlot(s[1..], v)
    else [s[0]] + RemoveSlot(s[1..], v)
  }

  function RenumberSlot(n: Slot, from: Slot, to: Slot): Slot {
    if n == from then to else n
  }

  function SwapSlot(n: Slot, a: Slot, b: Slot): Slot {
    if n == a then b else if n == b then a else n
  }

  function RenumberAll(s: seq<Slot>, from: Slot, to: Slot): seq<Slot> {
    seq(|s|, i requires 0 <= i < |s| => RenumberSlot(s[i], from, to))
  }

  function SwapAll(s: seq<Slot>, a: Slot, b: Slot): seq<Slot> {
    seq(|s|, i requires 0 <= i < |s| => SwapSlot(s[i], a, b))
  }

  function DropSlot(r: Roster, n: Slot): Roster {
    r.(sequence := RemoveSlot(r.sequence, n), accounts := r.accounts - {n})
  }

  function PutRecord(r: Roster, n: Slot, rec: Rec): Roster {
    r.(sequence := if n in r.sequence then r.sequence else SortSlots(r.sequence + [n]),
       accounts := r.accounts[n := rec])
  }

  /** Slot `from` becomes slot `to`; the active number follows it. */
  function Renumber(r: Roster, from: Slot, to: Slot): Roster
    requires from in r.accounts
  {
    Roster(
      if r.active == Some(from) then Some(to) else r.active,
      SortSlots(RenumberAll(r.sequence, from, to)),
      r.accounts[to := r.accounts[from]] - {from})
  }

  function Exchange(r: Roster, a: Slot, b: Slot): Roster
    requires a in r.accounts && b in r.accounts
  {
    Roster(
      if r.active.Some? then Some(SwapSlot(r.active.value, a, b)) else None,
      SortSlots(SwapAll(r.sequence, a, b)),
      r.accounts[a := r.accounts[b]][b := r.accounts[a]])
  }

  lemma {:induction false} RemoveSlotKeepsOrder(s: seq<Slot>, v: Slot)
    ensures forall x :: x in RemoveSlot(s, v) <==> x in s && x != v
    ensures Increasing(s) ==> Increasing(RemoveSlot(s, v))
  {
    if s != [] {
      RemoveSlotKeepsOrder(s[1..], v);
      assert forall x :: x in s <==> x == s[0] || x in s[1..];
      var rest := RemoveSlot(s[1..], v);
      assert forall x :: x in [s[0]] + rest <==> x == s[0] || x in rest;
      if Increasing(s) {
        assert forall i, j :: 0 <= i < j < |s[1..]| ==> s[1..][i] == s[i + 1] && s[1..][j] == s[j + 1];
        forall j | 0 <= j < |rest| ensures s[0] < rest[j] {
          assert rest[j] in s[1..];
        }
      }
    }
  }

  lemma InSequence(r: Roster, n: Slot)
    requires Listed(r)
    ensures n in r.sequence <==> n in r.accounts
  {
    assert n in r.sequence <==> n in Elements(r.sequence);
  }

  /** Sorting any repeat-free list of the slots gives the roster's sequence. */
  lemma SortedSlotsListed(t: seq<Slot>, keys: set<Slot>)
    requires NoRepeats(t)
    requires forall x :: x in t <==> x in keys
    ensures Increasing(SortSlots(t)) && Elements(SortSlots(t)) == keys
  {
    SortSlotsIncreasing(t);
    ElementsAre(t, keys);
  }

  lemma DropSlotKeepsInv(r: Roster, n: Slot)
    requires Inv(r)
    ensures Inv(DropSlot(r, n))
  {
    RemoveSlotKeepsOrder(r.sequence, n);
    var d := DropSlot(r, n);
    forall x: Slot ensures x in d.sequence <==> x in d.accounts.Keys {
      InSequence(r, x);
    }
    ElementsAre(d.sequence, d.accounts.Keys);
  }

  lemma PutRecordListed(r: Roster, n: Slot, rec: Rec)
    requires Listed(r)
    ensures Listed(PutRecord(r, n, rec))
  {
    var p := PutRecord(r, n, rec);
    InSequence(r, n);
    if n in r.sequence {
      assert p.accounts.Keys == r.accounts.Keys;
    } else {
      var t := r.sequence + [n];
      forall x: Slot ensures x in t <==> x in p.accounts.Keys {
        InSequence(r, x);
      }
      SortedSlotsListed(t, p.accounts.Keys);
    }
  }

  lemma LowerOfEmpty(s: string)
    ensures Lower(s) == Lower("") <==> s == ""
  {
    assert |Lower(s)| == |s|;
  }

  lemma ClashIsSymmetric(a: Rec, b: Rec)
    ensures Clash(a, b) <==> Clash(b, a)
  {
    LowerOfEmpty(a.alias);
    LowerOfEmpty(b.alias);
  }

  lemma PutRecordKeepsInv(r: Roster, n: Slot, rec: Rec)
    requires Inv(r)
    requires forall m :: m in r.accounts && m != n ==> !Clash(r.accounts[m], rec)
    ensures Inv(PutRecord(r, n, rec))
  {
    PutRecordListed(r, n, rec);
    forall m | m in r.accounts && m != n ensures !Clash(rec, r.accounts[m]) {
      ClashIsSymmetric(r.accounts[m], rec);
    }
  }

  lemma RenumberNoClashes(accounts: map<Slot, Rec>, from: Slot, to: Slot)
    requires NoClashes(accounts) && from in accounts && to !in accounts
    ensures NoClashes(accounts[to := accounts[from]] - {from})
  {
    var after := accounts[to := accounts[from]] - {from};
    forall m, n | m in after && n in after && m != n ensures !Clash(after[m], after[n]) {
      var m', n' := if m == to then from else m, if n == to then from else n;
      assert m' in accounts && n' in accounts && m' != n';
      assert !Clash(accounts[m'], accounts[n']);
    }
  }

  lemma ExchangeNoClashes(accounts: map<Slot, Rec>, a: Slot, b: Slot)
    requires NoClashes(accounts) && a in accounts && b in accounts
    ensures NoClashes(accounts[a := accounts[b]][b := accounts[a]])
  {
    var after := accounts[a := accounts[b]][b := accounts[a]];
    forall m, n | m in after && n in after && m != n ensures !Clash(after[m], after[n]) {
      var m', n' := SwapSlot(m, a, b), SwapSlot(n, a, b);
      assert m' in accounts && n' in accounts && m' != n';
      assert !Clash(accounts[m'], accounts[n']);
    }
  }

  lemma RenumberListed(r: Roster, from: Slot, to: Slot)
    requires Listed(r) && from in r.accounts && to !in r.accounts
    ensures Listed(Renumber(r, from, to))
  {
    var s, t := r.sequence, RenumberAll(r.sequence, from, to);
    var keys := Renumber(r, from, to).accounts.Keys;
    InSequence(r, to);
    assert NoRepeats(t) by {
      forall i, j | 0 <= i < j < |t| ensures t[i] != t[j] {
        assert s[i] in s && s[j] in s;
      }
    }
    forall x: Slot ensures x in t <==> x in keys {
      var y := if x == to then from else x;
      InSequence(r, y);
      if x in t {
        var i :| 0 <= i < |t| && t[i] == x;
        assert s[i] in s;
      } else if y in s {
        var i :| 0 <= i < |s| && s[i] == y;
        assert t[i] in t;
      }
    }
    SortedSlotsListed(t, keys);
  }

  lemma RenumberKeepsInv(r: Roster, from: Slot, to: Slot)
    requires Inv(r) && from in r.accounts && to !in r.accounts
    ensures Inv(Renumber(r, from, to))
  {
    RenumberListed(r, from, to);
    RenumberNoClashes(r.accounts, from, to);
  }

  lemma SwapAllMembers(s: seq<Slot>, a: Slot, b: Slot, x: Slot)
    ensures x in SwapAll(s, a, b) <==> SwapSlot(x, a, b) in s
  {
    var t := SwapAll(s, a, b);
    if x in t {
      var i :| 0 <= i < |t| && t[i] == x;
      assert s[i] == SwapSlot(x, a, b);
    }
    if SwapSlot(x, a, b) in s {
      var i :| 0 <= i < |s| && s[i] == SwapSlot(x, a, b);
      assert t[i] == x;
    }
  }

  lemma SwappedInSequence(r: Roster, a: Slot, b: Slot, x: Slot)
    requires Listed(r) && a in r.accounts && b in r.accounts
    ensures x in SwapAll(r.sequence, a, b) <==> x in r.accounts
  {
    SwapAllMembers(r.sequence, a, b, x);
    InSequence(r, SwapSlot(x, a, b));
  }

  lemma ExchangeListed(r: Roster, a: Slot, b: Slot)
    requires Listed(r) && a in r.accounts && b in r.accounts
    ensures Listed(Exchange(r, a, b))
    ensures Exchange(r, a, b).sequence == r.sequence
  {
    var t, keys := SwapAll(r.sequence, a, b), r.accounts.Keys;
    assert Exchange(r, a, b).accounts.Keys == keys;
    forall x: Slot ensures x in t <==> x in keys {
      SwappedInSequence(r, a, b, x);
    }
    SortedSlotsListed(t, keys);
    IncreasingUnique(r.sequence, SortSlots(t));
  }

  lemma ExchangeKeepsInv(r: Roster, a: Slot, b: Slot)
    requires Inv(r) && a in r.accounts && b in r.accounts
    ensures Inv(Exchange(r, a, b))
    ensures Exchange(r, a, b).sequence == r.sequence
  {
    ExchangeListed(r, a, b);
    ExchangeNoClashes(r.accounts, a, b);
  }
}
