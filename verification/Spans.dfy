/**
 The locked spans of the account commands, seen as the rosters they commit.

 Each command decides from the roster it reads under the store lock, and commits a short list
 of rosters. Premises that were established before the lock (the occupant a user agreed to
 overwrite, the account a user agreed to remove) come in as parameters and are re-checked.
 */
module Spans {
  import opened Basics
  import opened Rosters

  /** A record as a user was shown it: the slot and the identity standing in it. */
  datatype Occupant = Occupant(slot: Slot, email: string, org: string)

  /** What a locked span does to the roster: refuse, or commit these rosters in order. */
  datatype Span = Abort | Commit(rosters: seq<Roster>)

  datatype Login = Login(email: string, org: string, orgName: string, uuid: string)

  function OccupantOf(r: Roster, n: Slot): Occupant
    requires n in r.accounts
  {
    Occupant(n, r.accounts[n].email, r.accounts[n].org)
  }

  // ---- add ----------------------------------------------------------------------

  /** The record a displacement of slot `n` would destroy, if any. */
  function SlotOccupant(r: Roster, n: Slot, email: string, org: string): Option<Occupant> {
    if n !in r.accounts || Holds(r, n, email, org) then None else Some(OccupantOf(r, n))
  }

  datatype Verdict = Free | Displace(occupant: Occupant) | Changed

  /** Re-decides, under the lock, a displacement that was confirmed before it. */
  function Revalidate(r: Roster, n: Slot, email: string, org: string,
                      confirmed: Option<Occupant>, assumeYes: bool): Verdict {
    match SlotOccupant(r, n, email, org)
    case None => Free
    case Some(o) =>
      if assumeYes || confirmed == Some(o) then Displace(o) else Changed
  }

  datatype AddPlan =
    | Refuse
    | Refresh(slot: Slot, refreshed: Roster)
    | Place(slot: Slot, displaced: Option<Occupant>, migrated: Option<Slot>, rec: Rec, activate: bool)

  function CarriedAlias(r: Roster, n: Slot, login: Login, migrated: Option<Slot>): string {
    if migrated.Some? && migrated.value in r.accounts && r.accounts[migrated.value].alias != "" then
      r.accounts[migrated.value].alias
    else if Holds(r, n, login.email, login.org) then r.accounts[n].alias
    else ""
  }

  function MigrateFrom(r: Roster, n: Slot, email: string, org: string): Option<Slot> {
    var held := FindSlot(r, email, org);
    if held == Some(n) then None else held
  }

  /** Where an identity lands: refused, already managed, or in slot `n` after these drops. */
  datatype Landing =
    | Blocked
    | Existing(slot: Slot)
    | At(slot: Slot, displaced: Option<Occupant>, migrated: Option<Slot>)

  function Land(r: Roster, slot: Option<Slot>, email: string, org: string,
                confirmed: Option<Occupant>, assumeYes: bool): Landing {
    match slot
    case None =>
      (match FindSlot(r, email, org)
       case Some(n) => Existing(n)
       case None => At(NextNumber(r), None, None))
    case Some(n) => LandAt(n, Revalidate(r, n, email, org, confirmed, assumeYes), MigrateFrom(r, n, email, org))
  }

  function LandAt(n: Slot, v: Verdict, migrated: Option<Slot>): Landing {
    match v
    case Changed => Blocked
    case Free => At(n, None, migrated)
    case Displace(o) => At(n, Some(o), migrated)
  }

  function PlanAdd(r: Roster, slot: Option<Slot>, login: Login, alias: Option<string>,
                   confirmed: Option<Occupant>, assumeYes: bool): AddPlan {
    match Land(r, slot, login.email, login.org, confirmed, assumeYes)
    case Blocked => Refuse
    case Existing(n) =>
      if n !in r.accounts || (alias.Some? && AliasInUse(r, alias.value, Some(n)).Some?) then Refuse
      else
        var rec := if alias.Some? then r.accounts[n].(alias := alias.value) else r.accounts[n];
        Refresh(n, r.(accounts := r.accounts[n := rec], active := Some(n)))
    case At(n, displaced, migrated) =>
      if alias.Some? && AliasInUse(r, alias.value, Some(n)).Some? then Refuse
      else
        var carried := if alias.Some? then alias.value
                       else if slot.Some? then CarriedAlias(r, n, login, migrated) else "";
        Place(n, displaced, migrated, Rec(login.email, login.org, login.orgName, login.uuid, carried, false), true)
  }

  function Digits(n: nat): string {
    if n < 10 then [('0' as int + n) as char] else Digits(n / 10) + [('0' as int + n % 10) as char]
  }

  function PlaceholderEmail(apiKey: bool, n: Slot): string {
    (if apiKey then "api-key" else "setup-token") + "-" + Digits(n) + "@token.local"
  }

  predicate CrossKind(r: Roster, email: string, apiKey: bool) {
    var n := FindSlot(r, email, "");
    n.Some? && n.value in r.accounts && r.accounts[n.value].apiKey != apiKey
  }

  /** With neither a slot nor an email, a token takes the next slot and is named after it. */
  function TokenSlot(r: Roster, slot: Option<Slot>, email: string): Option<Slot> {
    if email == "" && slot.None? then Some(NextNumber(r)) else slot
  }

  function TokenEmail(slot: Option<Slot>, email: string, apiKey: bool): string {
    if email == "" && slot.Some? then PlaceholderEmail(apiKey, slot.value) else email
  }

  function PlanToken(r: Roster, slotArg: Option<Slot>, emailArg: string, apiKey: bool,
                     confirmed: Option<Occupant>, assumeYes: bool): AddPlan {
    var slot := TokenSlot(r, slotArg, emailArg);
    var email := TokenEmail(slot, emailArg, apiKey);
    if CrossKind(r, email, apiKey) then Refuse
    else
      match Land(r, slot, email, "", confirmed, assumeYes)
      case Blocked => Refuse
      case Existing(n) => Refresh(n, r)
      case At(n, displaced, migrated) => Place(n, displaced, migrated, Rec(email, "", "", "", "", apiKey), false)
  }

  function Install(r: Roster, n: Slot, rec: Rec, activate: bool): Roster {
    var p := PutRecord(r, n, rec);
    if activate then p.(active := Some(n)) else p
  }

  function AfterDisplace(r: Roster, p: AddPlan): Roster
    requires p.Place?
  {
    if p.displaced.Some? then DropSlot(r, p.displaced.value.slot) else r
  }

  function AfterMigrate(r: Roster, p: AddPlan): Roster
    requires p.Place?
  {
    var d := AfterDisplace(r, p);
    if p.migrated.Some? then DropSlot(d, p.migrated.value) else d
  }

  function AfterInstall(r: Roster, p: AddPlan): Roster
    requires p.Place?
  {
    Install(AfterMigrate(r, p), p.slot, p.rec, p.activate)
  }

  function PlanCommits(r: Roster, p: AddPlan): Span {
    match p
    case Refuse => Abort
    case Refresh(_, refreshed) => Commit([refreshed])
    case Place(_, displaced, migrated, _, _) =>
      Commit((if displaced.Some? then [AfterDisplace(r, p)] else [])
             + (if migrated.Some? then [AfterMigrate(r, p)] else [])
             + [AfterInstall(r, p)])
  }

  // ---- the other spans ------------------------------------------------------------

  /** Removal of the account the user was shown; anything else standing there refuses. */
  function RemoveSpan(r: Roster, shown: Occupant): Span {
    if shown.slot !in r.accounts then
      if FindSlot(r, shown.email, shown.org).Some? then Abort else Commit([])
    else if OccupantOf(r, shown.slot) != shown then Abort
    else Commit([DropSlot(r, shown.slot)])
  }

  const SLOT_CAP := 99

  function SwapSpan(r: Roster, first: Ident, second: Ident): Span {
    SwapFound(r, Resolve(r, first), Resolve(r, second))
  }

  function SwapFound(r: Roster, first: Resolved, second: Resolved): Span {
    match (first, second)
    case (Found(a), Found(b)) =>
      if a == b || a !in r.accounts || b !in r.accounts then Abort else Commit([Exchange(r, a, b)])
    case _ => Abort
  }

  /** A target may not exceed 99 or the highest slot in use, whichever is larger. */
  predicate InRange(r: Roster, target: Slot) {
    target <= SLOT_CAP || target <= LargestSlot(r)
  }

  function MoveSpan(r: Roster, id: Ident, target: Slot): Span {
    MoveFound(r, Resolve(r, id), target)
  }

  function MoveFound(r: Roster, found: Resolved, target: Slot): Span {
    match found
    case Found(src) =>
      if !InRange(r, target) || src !in r.accounts then Abort
      else if src == target then Commit([])
      else if target in r.accounts then Commit([Exchange(r, src, target)])
      else Commit([Renumber(r, src, target)])
    case _ => Abort
  }

  function SetAliasSpan(r: Roster, id: Ident, alias: string): Span {
    SetAliasFound(r, Resolve(r, id), alias)
  }

  function SetAliasFound(r: Roster, found: Resolved, alias: string): Span {
    match found
    case Found(n) =>
      if n !in r.accounts || AliasInUse(r, alias, Some(n)).Some? then Abort
      else Commit([r.(accounts := r.accounts[n := r.accounts[n].(alias := alias)])])
    case _ => Abort
  }

  function UnsetAliasSpan(r: Roster, id: Ident): Span {
    UnsetAliasFound(r, Resolve(r, id))
  }

  function UnsetAliasFound(r: Roster, found: Resolved): Span {
    match found
    case Found(n) =>
      if n !in r.accounts then Abort
      else if r.accounts[n].alias == "" then Commit([])
      else Commit([r.(accounts := r.accounts[n := r.accounts[n].(alias := "")])])
    case _ => Abort
  }

  /** A switch records the new active slot and may fill a blank uuid on the outgoing one. */
  function SwitchSpan(r: Roster, target: Slot, outgoing: Slot, uuid: string): Span {
    if target !in r.accounts then Abort
    else
      var filled := if uuid != "" && outgoing in r.accounts && r.accounts[outgoing].uuid == ""
                    then r.accounts[outgoing := r.accounts[outgoing].(uuid := uuid)] else r.accounts;
      Commit([r.(accounts := filled, active := Some(target))])
  }

  datatype Command =
    | Add(slot: Option<Slot>, login: Login, alias: Option<string>, assumeYes: bool)
    | AddToken(slot: Option<Slot>, email: string, apiKey: bool, assumeYes: bool)
    | Remove(id: Ident, assumeYes: bool)
    | Move(id: Ident, target: Slot)
    | Swap(id: Ident, other: Ident)
    | SetAlias(id: Ident, name: string)
    | UnsetAlias(id: Ident)
    | Switch(target: Slot, outgoing: Slot, uuid: string)

  /** The span of a command, given what was shown to its user before the lock was taken. */
  function SpanOf(c: Command, shown: Option<Occupant>, r: Roster): Span {
    match c
    case Add(slot, login, alias, assumeYes) => PlanCommits(r, PlanAdd(r, slot, login, alias, shown, assumeYes))
    case AddToken(slot, email, apiKey, assumeYes) =>
      PlanCommits(r, PlanToken(r, slot, email, apiKey, shown, assumeYes))
    case Remove(_, _) => if shown.Some? then RemoveSpan(r, shown.value) else Abort
    case Move(id, target) => MoveSpan(r, id, target)
    case Swap(id, other) => SwapSpan(r, id, other)
    case SetAlias(id, name) => SetAliasSpan(r, id, name)
    case UnsetAlias(id) => UnsetAliasSpan(r, id)
    case Switch(target, outgoing, uuid) => SwitchSpan(r, target, outgoing, uuid)
  }

  // ---- every commit keeps the roster invariant --------------------------------------

  ghost predicate AllInv(s: Span) {
    s.Commit? ==> forall i :: 0 <= i < |s.rosters| ==> Inv(s.rosters[i])
  }

  lemma UniqueHolder(r: Roster, m: Slot, n: Slot, email: string, org: string)
    requires Inv(r) && Holds(r, m, email, org) && Holds(r, n, email, org)
    ensures m == n
  {
    assert m != n ==> !Clash(r.accounts[m], r.accounts[n]);
  }

  /** An alias that passed the conflict check is used by no other slot. */
  lemma AliasFree(r: Roster, alias: string, n: Slot, m: Slot)
    requires Inv(r) && AliasInUse(r, alias, Some(n)).None? && m in r.accounts && m != n
    ensures !AliasedAs(r, m, alias)
  {
    FindAliasFinds(r, alias);
    LowerOfEmpty(r.accounts[m].alias);
    LowerOfEmpty(alias);
    assert n in r.accounts ==> !Clash(r.accounts[m], r.accounts[n]);
  }

  lemma ReRecordKeepsInv(r: Roster, n: Slot, rec: Rec, active: Option<Slot>)
    requires Inv(r) && n in r.accounts && SameIdentity(rec, r.accounts[n])
    requires rec.alias == r.accounts[n].alias || rec.alias == "" || AliasInUse(r, rec.alias, Some(n)).None?
    ensures Inv(r.(accounts := r.accounts[n := rec], active := active))
  {
    InSequence(r, n);
    forall m | m in r.accounts && m != n ensures !Clash(r.accounts[m], rec) {
      assert !Clash(r.accounts[m], r.accounts[n]);
      LowerOfEmpty(r.accounts[m].alias);
      if rec.alias != "" && rec.alias != r.accounts[n].alias {
        AliasFree(r, rec.alias, n, m);
      }
    }
    PutRecordKeepsInv(r, n, rec);
  }

  /** Why a planned record clashes with nothing that is left when it is written. */
  ghost predicate Sound(r: Roster, p: AddPlan) {
    p.Place? ==>
      && (p.displaced.Some? ==> p.displaced.value.slot == p.slot)
      && forall m :: m in r.accounts && m != p.slot && p.migrated != Some(m) ==> !Clash(r.accounts[m], p.rec)
  }

  lemma StagesKeepInv(r: Roster, p: AddPlan)
    requires Inv(r) && p.Place?
    ensures Inv(AfterDisplace(r, p)) && Inv(AfterMigrate(r, p))
  {
    if p.displaced.Some? { DropSlotKeepsInv(r, p.displaced.value.slot); }
    if p.migrated.Some? { DropSlotKeepsInv(AfterDisplace(r, p), p.migrated.value); }
  }

  lemma StagesOnlyDrop(r: Roster, p: AddPlan, m: Slot)
    requires p.Place? && m in AfterMigrate(r, p).accounts
    ensures m in r.accounts && r.accounts[m] == AfterMigrate(r, p).accounts[m] && p.migrated != Some(m)
  {
  }

  lemma InstallKeepsInv(r: Roster, p: AddPlan)
    requires Inv(r) && p.Place? && Sound(r, p)
    ensures Inv(AfterInstall(r, p))
  {
    StagesKeepInv(r, p);
    var m := AfterMigrate(r, p);
    forall k | k in m.accounts && k != p.slot ensures !Clash(m.accounts[k], p.rec) {
      StagesOnlyDrop(r, p, k);
    }
    PutRecordKeepsInv(m, p.slot, p.rec);
  }

  lemma PlacedRosters(r: Roster, p: AddPlan, i: nat)
    requires p.Place? && i < |PlanCommits(r, p).rosters|
    ensures PlanCommits(r, p).rosters[i] in {AfterDisplace(r, p), AfterMigrate(r, p), AfterInstall(r, p)}
  {
  }

  lemma PlaceKeepsInv(r: Roster, p: AddPlan)
    requires Inv(r) && p.Place? && Sound(r, p)
    ensures AllInv(PlanCommits(r, p))
  {
    StagesKeepInv(r, p);
    InstallKeepsInv(r, p);
    forall i | 0 <= i < |PlanCommits(r, p).rosters| ensures Inv(PlanCommits(r, p).rosters[i]) { PlacedRosters(r, p, i); }
  }

  lemma IdentityFree(r: Roster, n: Slot, email: string, org: string, m: Slot)
    requires Inv(r) && m in r.accounts && m != n && MigrateFrom(r, n, email, org) != Some(m)
    ensures !Holds(r, m, email, org)
  {
    FindSlotFinds(r, email, org);
    var held := FindSlot(r, email, org);
    if Holds(r, m, email, org) {
      UniqueHolder(r, m, held.value, email, org);
    }
  }

  lemma AliasesDiffer(r: Roster, a: Slot, b: Slot)
    requires Inv(r) && a in r.accounts && b in r.accounts && a != b && r.accounts[a].alias != ""
    ensures Lower(r.accounts[b].alias) != Lower(r.accounts[a].alias)
  {
    assert !Clash(r.accounts[a], r.accounts[b]);
    LowerOfEmpty(r.accounts[a].alias);
    LowerOfEmpty(r.accounts[b].alias);
  }

  lemma CarriedAliasFree(r: Roster, n: Slot, login: Login, m: Slot)
    requires Inv(r) && m in r.accounts && m != n && MigrateFrom(r, n, login.email, login.org) != Some(m)
    ensures var carried := CarriedAlias(r, n, login, MigrateFrom(r, n, login.email, login.org));
            carried != "" ==> Lower(r.accounts[m].alias) != Lower(carried)
  {
    var migrated := MigrateFrom(r, n, login.email, login.org);
    var carried := CarriedAlias(r, n, login, migrated);
    if carried != "" {
      if migrated.Some? && migrated.value in r.accounts && r.accounts[migrated.value].alias != "" {
        AliasesDiffer(r, migrated.value, m);
      } else {
        AliasesDiffer(r, n, m);
      }
    }
  }

  lemma LandsWithMigration(r: Roster, n: Slot, email: string, org: string, confirmed: Option<Occupant>, assumeYes: bool)
    requires Land(r, Some(n), email, org, confirmed, assumeYes).At?
    ensures var l := Land(r, Some(n), email, org, confirmed, assumeYes);
            l.slot == n && l.migrated == MigrateFrom(r, n, email, org)
  {
    LandsThere(n, Revalidate(r, n, email, org, confirmed, assumeYes), MigrateFrom(r, n, email, org));
  }

  lemma LandsThere(n: Slot, v: Verdict, migrated: Option<Slot>)
    ensures var l := LandAt(n, v, migrated);
            l.At? ==> l.slot == n && l.migrated == migrated
  {
  }

  lemma LandFree(r: Roster, slot: Option<Slot>, email: string, org: string,
                 confirmed: Option<Occupant>, assumeYes: bool, m: Slot)
    requires Inv(r) && m in r.accounts
    requires var l := Land(r, slot, email, org, confirmed, assumeYes);
             l.At? && m != l.slot && l.migrated != Some(m)
    ensures !Holds(r, m, email, org)
  {
    if slot.Some? {
      LandsWithMigration(r, slot.value, email, org, confirmed, assumeYes);
      IdentityFree(r, slot.value, email, org, m);
    } else {
      FindSlotFinds(r, email, org);
    }
  }

  /** A displacement goes ahead only for the occupant that was confirmed, or unasked. */
  lemma RevalidateDecides(r: Roster, n: Slot, email: string, org: string, confirmed: Option<Occupant>, assumeYes: bool)
    ensures match Revalidate(r, n, email, org, confirmed, assumeYes)
            case Free => n in r.accounts ==> Holds(r, n, email, org)
            case Displace(o) => n in r.accounts && o == OccupantOf(r, n) && (assumeYes || confirmed == Some(o))
            case Changed => n in r.accounts && !assumeYes && confirmed != Some(OccupantOf(r, n))
  {
  }

  lemma MigrateFromHolds(r: Roster, n: Slot, email: string, org: string)
    ensures var m := MigrateFrom(r, n, email, org); m.Some? ==> m.value != n && Holds(r, m.value, email, org)
  {
    FindSlotFinds(r, email, org);
  }

  ghost predicate LandsAt(r: Roster, slot: Option<Slot>, email: string, org: string,
                          confirmed: Option<Occupant>, assumeYes: bool, l: Landing)
    requires l.At?
  {
    && (slot.Some? ==> slot == Some(l.slot))
    && (l.migrated.Some? ==> l.migrated.value != l.slot && Holds(r, l.migrated.value, email, org))
    && (l.displaced.Some? ==>
          && slot == Some(l.slot) && l.slot in r.accounts
          && l.displaced == Some(OccupantOf(r, l.slot))
          && (assumeYes || confirmed == l.displaced))
    && (l.slot in r.accounts && l.displaced.None? ==> Holds(r, l.slot, email, org))
  }

  /** What a landing drops: the confirmed occupant of the slot, and the same identity elsewhere. */
  lemma LandDrops(r: Roster, slot: Option<Slot>, email: string, org: string,
                  confirmed: Option<Occupant>, assumeYes: bool)
    ensures match Land(r, slot, email, org, confirmed, assumeYes)
            case At(n, displaced, migrated) =>
              LandsAt(r, slot, email, org, confirmed, assumeYes, At(n, displaced, migrated))
            case Existing(n) => slot.None? && Holds(r, n, email, org)
            case Blocked => slot.Some?
  {
    match slot
    case None => FindSlotFinds(r, email, org);
    case Some(n) =>
      RevalidateDecides(r, n, email, org, confirmed, assumeYes);
      MigrateFromHolds(r, n, email, org);
  }

  lemma PlanAddAliasFree(r: Roster, slot: Option<Slot>, login: Login, alias: Option<string>,
                         confirmed: Option<Occupant>, assumeYes: bool, m: Slot)
    requires Inv(r) && m in r.accounts
    ensures var p := PlanAdd(r, slot, login, alias, confirmed, assumeYes);
            p.Place? && m != p.slot && p.migrated != Some(m) ==> !SameAlias(r.accounts[m], p.rec)
  {
    var p := PlanAdd(r, slot, login, alias, confirmed, assumeYes);
    if p.Place? && m != p.slot && p.migrated != Some(m) {
      LowerOfEmpty(r.accounts[m].alias);
      if alias.Some? {
        AliasFree(r, alias.value, p.slot, m);
      } else if slot.Some? {
        LandsWithMigration(r, slot.value, login.email, login.org, confirmed, assumeYes);
        CarriedAliasFree(r, slot.value, login, m);
      }
    }
  }

  lemma PlanAddSound(r: Roster, slot: Option<Slot>, login: Login, alias: Option<string>,
                     confirmed: Option<Occupant>, assumeYes: bool)
    requires Inv(r)
    ensures Sound(r, PlanAdd(r, slot, login, alias, confirmed, assumeYes))
  {
    var p := PlanAdd(r, slot, login, alias, confirmed, assumeYes);
    LandDrops(r, slot, login.email, login.org, confirmed, assumeYes);
    if p.Place? {
      forall m | m in r.accounts && m != p.slot && p.migrated != Some(m) ensures !Clash(r.accounts[m], p.rec) {
        LandFree(r, slot, login.email, login.org, confirmed, assumeYes, m);
        PlanAddAliasFree(r, slot, login, alias, confirmed, assumeYes, m);
      }
    }
  }

  lemma PlanTokenSound(r: Roster, slot: Option<Slot>, email: string, apiKey: bool,
                       confirmed: Option<Occupant>, assumeYes: bool)
    requires Inv(r)
    ensures Sound(r, PlanToken(r, slot, email, apiKey, confirmed, assumeYes))
  {
    var p := PlanToken(r, slot, email, apiKey, confirmed, assumeYes);
    var named := TokenSlot(r, slot, email);
    LandDrops(r, named, TokenEmail(named, email, apiKey), "", confirmed, assumeYes);
    if p.Place? {
      forall m | m in r.accounts && m != p.slot && p.migrated != Some(m) ensures !Clash(r.accounts[m], p.rec) {
        LandFree(r, named, p.rec.email, "", confirmed, assumeYes, m);
        LowerOfEmpty(r.accounts[m].alias);
      }
    }
  }

  lemma AddKeepsInv(r: Roster, slot: Option<Slot>, login: Login, alias: Option<string>, shown: Option<Occupant>,
                    assumeYes: bool)
    requires Inv(r)
    ensures AllInv(PlanCommits(r, PlanAdd(r, slot, login, alias, shown, assumeYes)))
  {
    var p := PlanAdd(r, slot, login, alias, shown, assumeYes);
    PlanAddSound(r, slot, login, alias, shown, assumeYes);
    if p.Place? {
      PlaceKeepsInv(r, p);
    } else if p.Refresh? {
      RefreshKeepsInv(r, slot, login, alias, shown, assumeYes);
      OneRosterInv(p.refreshed);
    }
  }

  lemma RefreshKeepsInv(r: Roster, slot: Option<Slot>, login: Login, alias: Option<string>, shown: Option<Occupant>,
                        assumeYes: bool)
    requires Inv(r) && PlanAdd(r, slot, login, alias, shown, assumeYes).Refresh?
    ensures Inv(PlanAdd(r, slot, login, alias, shown, assumeYes).refreshed)
  {
    var n := PlanAdd(r, slot, login, alias, shown, assumeYes).slot;
    ReRecordKeepsInv(r, n, if alias.Some? then r.accounts[n].(alias := alias.value) else r.accounts[n], Some(n));
  }

  lemma AddTokenKeepsInv(r: Roster, slot: Option<Slot>, email: string, apiKey: bool, shown: Option<Occupant>,
                         assumeYes: bool)
    requires Inv(r)
    ensures AllInv(PlanCommits(r, PlanToken(r, slot, email, apiKey, shown, assumeYes)))
  {
    var p := PlanToken(r, slot, email, apiKey, shown, assumeYes);
    PlanTokenSound(r, slot, email, apiKey, shown, assumeYes);
    if p.Place? { PlaceKeepsInv(r, p); }
  }

  /** What a span of one roster, or none, comes to. */
  lemma OneRosterInv(x: Roster)
    requires Inv(x)
    ensures AllInv(Commit([x])) && AllInv(Commit([])) && AllInv(Abort)
  {
  }

  lemma MoveOutcomes(r: Roster, src: Slot, target: Slot)
    requires src in r.accounts && src != target
    ensures MoveFound(r, Found(src), target) ==
              if !InRange(r, target) then Abort
              else Commit([if target in r.accounts then Exchange(r, src, target) else Renumber(r, src, target)])
  {
  }

  function SpanEnd(r: Roster, s: Span): Roster
    requires s.Commit?
  {
    if s.rosters == [] then r else s.rosters[|s.rosters| - 1]
  }

  /** The two slots have traded what stood in them, a free one has come out free, and the active account is still the same one. */
  ghost predicate Traded(before: Roster, after: Roster, a: Slot, b: Slot) {
    && (a in after.accounts <==> b in before.accounts) && (a in after.accounts ==> after.accounts[a] == before.accounts[b])
    && (b in after.accounts <==> a in before.accounts) && (b in after.accounts ==> after.accounts[b] == before.accounts[a])
    && (forall n :: n != a && n != b ==>
         (n in after.accounts <==> n in before.accounts) && (n in after.accounts ==> after.accounts[n] == before.accounts[n]))
    && (forall n :: before.active == Some(n) && n in before.accounts ==> after.active == Some(SwapSlot(n, a, b)))
    && (before.active.None? ==> after.active.None?)
  }

  lemma ExchangeTrades(r: Roster, src: Slot, target: Slot)
    requires src in r.accounts && target in r.accounts
    ensures Traded(r, Exchange(r, src, target), src, target)
  {
  }

  lemma RenumberTrades(r: Roster, src: Slot, target: Slot)
    requires src in r.accounts && target !in r.accounts
    ensures Traded(r, Renumber(r, src, target), src, target)
  {
  }

  /** Trading with a slot in range does not push the numbers handed out later past 100. */
  lemma TradeKeepsNumbersLow(before: Roster, after: Roster, src: Slot, target: Slot)
    requires Traded(before, after, src, target) && src in before.accounts && InRange(before, target)
    ensures NextNumber(after) <= NextNumber(before) || NextNumber(after) <= SLOT_CAP + 1
  {
    var top := LargestSlot(after);
    assert top in after.accounts ==> top == target || top in before.accounts;
  }

  /** Beyond 99 and beyond every slot in use. */
  ghost predicate OutOfRange(r: Roster, target: Slot) {
    target > SLOT_CAP && forall n :: n in r.accounts ==> n < target
  }

  lemma RangeExactly(r: Roster, target: Slot)
    ensures InRange(r, target) <==> !OutOfRange(r, target)
  {
    var top := LargestSlot(r);
    assert target > SLOT_CAP && target <= top ==> top in r.accounts;
    assert target > top ==> forall n :: n in r.accounts ==> n < target;
  }

  lemma RefusedExactly(r: Roster, src: Slot, target: Slot)
    requires src in r.accounts
    ensures MoveFound(r, Found(src), target).Abort? <==> OutOfRange(r, target)
  {
    RangeExactly(r, target);
  }

  /**
   A move is refused exactly when its target is beyond both 99 and every slot in use. Otherwise the
   account stands at its target, an occupant has its old slot, everybody else stays, and the numbers
   handed out later are not pushed past 100.
   */
  lemma MoveLands(r: Roster, id: Ident, target: Slot)
    requires Resolve(r, id).Found?
    ensures var src, s := Resolve(r, id).slot, MoveSpan(r, id, target);
            && src in r.accounts
            && (s.Abort? <==> OutOfRange(r, target))
            && (s.Commit? ==>
                  && Traded(r, SpanEnd(r, s), src, target)
                  && (NextNumber(SpanEnd(r, s)) <= NextNumber(r) || NextNumber(SpanEnd(r, s)) <= SLOT_CAP + 1))
  {
    ResolveFinds(r, id);
    var src := Resolve(r, id).slot;
    FoundLands(r, src, target);
  }

  lemma FoundLands(r: Roster, src: Slot, target: Slot)
    requires src in r.accounts
    ensures var s := MoveFound(r, Found(src), target);
            && (s.Abort? <==> OutOfRange(r, target))
            && (s.Commit? ==>
                  && Traded(r, SpanEnd(r, s), src, target)
                  && (NextNumber(SpanEnd(r, s)) <= NextNumber(r) || NextNumber(SpanEnd(r, s)) <= SLOT_CAP + 1))
  {
    RefusedExactly(r, src, target);
    var s := MoveFound(r, Found(src), target);
    if s.Commit? {
      if src != target { CommitTrades(r, src, target); }
      TradeKeepsNumbersLow(r, SpanEnd(r, s), src, target);
    }
  }

  lemma CommitTrades(r: Roster, src: Slot, target: Slot)
    requires src in r.accounts && src != target && MoveFound(r, Found(src), target).Commit?
    ensures Traded(r, SpanEnd(r, MoveFound(r, Found(src), target)), src, target)
  {
    MoveOutcomes(r, src, target);
    if target in r.accounts { ExchangeTrades(r, src, target); } else { RenumberTrades(r, src, target); }
  }

  lemma MoveKeepsInv(r: Roster, found: Resolved, target: Slot)
    requires Inv(r)
    ensures AllInv(MoveFound(r, found, target))
  {
    OneRosterInv(r);
    if found.Found? && found.slot in r.accounts && found.slot != target {
      MoveOutcomes(r, found.slot, target);
      if target in r.accounts {
        ExchangeKeepsInv(r, found.slot, target);
        OneRosterInv(Exchange(r, found.slot, target));
      } else {
        RenumberKeepsInv(r, found.slot, target);
        OneRosterInv(Renumber(r, found.slot, target));
      }
    }
  }

  lemma SwapKeepsInv(r: Roster, a: Resolved, b: Resolved)
    requires Inv(r)
    ensures AllInv(SwapFound(r, a, b))
  {
    OneRosterInv(r);
    if a.Found? && b.Found? && a.slot in r.accounts && b.slot in r.accounts {
      ExchangeKeepsInv(r, a.slot, b.slot);
      OneRosterInv(Exchange(r, a.slot, b.slot));
    }
  }

  lemma SetAliasKeepsInv(r: Roster, found: Resolved, name: string)
    requires Inv(r)
    ensures AllInv(SetAliasFound(r, found, name))
  {
    if found.Found? && found.slot in r.accounts && AliasInUse(r, name, Some(found.slot)).None? {
      ReRecordKeepsInv(r, found.slot, r.accounts[found.slot].(alias := name), r.active);
    }
  }

  lemma UnsetAliasKeepsInv(r: Roster, found: Resolved)
    requires Inv(r)
    ensures AllInv(UnsetAliasFound(r, found))
  {
    if found.Found? && found.slot in r.accounts {
      ReRecordKeepsInv(r, found.slot, r.accounts[found.slot].(alias := ""), r.active);
    }
  }

  /** Every roster any command commits, even on the way to a failure, satisfies the invariant. */
  lemma SpanKeepsInv(c: Command, shown: Option<Occupant>, r: Roster)
    requires Inv(r)
    ensures AllInv(SpanOf(c, shown, r))
  {
    match c
    case Add(slot, login, alias, assumeYes) => AddKeepsInv(r, slot, login, alias, shown, assumeYes);
    case AddToken(slot, email, apiKey, assumeYes) => AddTokenKeepsInv(r, slot, email, apiKey, shown, assumeYes);
    case Remove(_, _) =>
      if shown.Some? { DropSlotKeepsInv(r, shown.value.slot); }
    case Move(id, target) => MoveKeepsInv(r, Resolve(r, id), target);
    case Swap(id, other) => SwapKeepsInv(r, Resolve(r, id), Resolve(r, other));
    case SetAlias(id, name) => SetAliasKeepsInv(r, Resolve(r, id), name);
    case UnsetAlias(id) => UnsetAliasKeepsInv(r, Resolve(r, id));
    case Switch(target, outgoing, uuid) =>
      if outgoing in r.accounts {
        ReRecordKeepsInv(r, outgoing, r.accounts[outgoing].(uuid := uuid), Some(target));
      }
  }

  // ---- what a command may make vanish -------------------------------------------------

  ghost predicate Present(r: Roster, rec: Rec) {
    exists n :: n in r.accounts && SameIdentity(r.accounts[n], rec)
  }

  /** The user was shown this very record, waived the question, or is moving it. */
  predicate Justified(c: Command, shown: Option<Occupant>, r: Roster, n: Slot)
    requires n in r.accounts
  {
    match c
    case Add(slot, login, _, assumeYes) =>
      || (slot == Some(n) && (assumeYes || shown == Some(OccupantOf(r, n))))
      || Holds(r, n, login.email, login.org)
    case AddToken(slot, email, apiKey, assumeYes) =>
      var p := PlanToken(r, slot, email, apiKey, shown, assumeYes);
      || (slot == Some(n) && (assumeYes || shown == Some(OccupantOf(r, n))))
      || (p.Place? && Holds(r, n, p.rec.email, ""))
    case Remove(_, _) => shown == Some(OccupantOf(r, n))
    case _ => false
  }

  lemma StillPresent(r: Roster, n: Slot, rec: Rec)
    ensures n in r.accounts && SameIdentity(r.accounts[n], rec) ==> Present(r, rec)
  {
  }

  lemma PlanVanishes(r: Roster, p: AddPlan, n: Slot, k: nat)
    requires p.Place? && n in r.accounts && k < |PlanCommits(r, p).rosters|
    requires !Present(PlanCommits(r, p).rosters[k], r.accounts[n])
    ensures n == p.slot || p.migrated == Some(n) || (p.displaced.Some? && p.displaced.value.slot == n)
  {
    var c := PlanCommits(r, p).rosters[k];
    PlacedRosters(r, p, k);
    StillPresent(c, n, r.accounts[n]);
  }

  lemma RefreshKeepsIdentities(r: Roster, slot: Option<Slot>, login: Login, alias: Option<string>,
                               shown: Option<Occupant>, assumeYes: bool, n: Slot)
    requires n in r.accounts && PlanAdd(r, slot, login, alias, shown, assumeYes).Refresh?
    ensures var after := PlanAdd(r, slot, login, alias, shown, assumeYes).refreshed;
            n in after.accounts && SameIdentity(after.accounts[n], r.accounts[n])
  {
  }

  lemma AddVanishes(r: Roster, slot: Option<Slot>, login: Login, alias: Option<string>,
                    shown: Option<Occupant>, assumeYes: bool, n: Slot, k: nat)
    requires n in r.accounts
    requires var s := PlanCommits(r, PlanAdd(r, slot, login, alias, shown, assumeYes));
             s.Commit? && k < |s.rosters| && !Present(s.rosters[k], r.accounts[n])
    ensures Justified(Add(slot, login, alias, assumeYes), shown, r, n)
  {
    var p := PlanAdd(r, slot, login, alias, shown, assumeYes);
    LandDrops(r, slot, login.email, login.org, shown, assumeYes);
    if p.Place? {
      PlanVanishes(r, p, n, k);
    } else {
      RefreshKeepsIdentities(r, slot, login, alias, shown, assumeYes, n);
      StillPresent(p.refreshed, n, r.accounts[n]);
    }
  }

  lemma TokenVanishes(r: Roster, slot: Option<Slot>, email: string, apiKey: bool,
                      shown: Option<Occupant>, assumeYes: bool, n: Slot, k: nat)
    requires n in r.accounts
    requires var s := PlanCommits(r, PlanToken(r, slot, email, apiKey, shown, assumeYes));
             s.Commit? && k < |s.rosters| && !Present(s.rosters[k], r.accounts[n])
    ensures Justified(AddToken(slot, email, apiKey, assumeYes), shown, r, n)
  {
    var p := PlanToken(r, slot, email, apiKey, shown, assumeYes);
    var named := TokenSlot(r, slot, email);
    LandDrops(r, named, TokenEmail(named, email, apiKey), "", shown, assumeYes);
    if p.Place? {
      PlanVanishes(r, p, n, k);
    } else {
      StillPresent(p.refreshed, n, r.accounts[n]);
    }
  }

  lemma ExchangeLosesNobody(r: Roster, a: Slot, b: Slot, n: Slot)
    requires a in r.accounts && b in r.accounts && n in r.accounts
    ensures Present(Exchange(r, a, b), r.accounts[n])
  {
    StillPresent(Exchange(r, a, b), SwapSlot(n, a, b), r.accounts[n]);
  }

  lemma RenumberLosesNobody(r: Roster, from: Slot, to: Slot, n: Slot)
    requires from in r.accounts && to !in r.accounts && n in r.accounts
    ensures Present(Renumber(r, from, to), r.accounts[n])
  {
    StillPresent(Renumber(r, from, to), RenumberSlot(n, from, to), r.accounts[n]);
  }

  lemma EditLosesNobody(r: Roster, m: Slot, rec: Rec, active: Option<Slot>, n: Slot)
    requires m in r.accounts && SameIdentity(rec, r.accounts[m]) && n in r.accounts
    ensures Present(r.(accounts := r.accounts[m := rec], active := active), r.accounts[n])
  {
    StillPresent(r.(accounts := r.accounts[m := rec], active := active), n, r.accounts[n]);
  }

  /**
   Any account missing after any commit of any span was re-checked, under the lock, to be the
   one its user was shown, or the question was waived, or it is the added identity on its way
   to another slot.
   */
  lemma VanishedIsJustified(c: Command, shown: Option<Occupant>, r: Roster, n: Slot, k: nat)
    requires n in r.accounts
    requires SpanOf(c, shown, r).Commit? && k < |SpanOf(c, shown, r).rosters|
    requires !Present(SpanOf(c, shown, r).rosters[k], r.accounts[n])
    ensures Justified(c, shown, r, n)
  {
    match c
    case Add(slot, login, alias, assumeYes) => AddVanishes(r, slot, login, alias, shown, assumeYes, n, k);
    case AddToken(slot, email, apiKey, assumeYes) => TokenVanishes(r, slot, email, apiKey, shown, assumeYes, n, k);
    case Remove(_, _) =>
      var after := DropSlot(r, shown.value.slot);
      StillPresent(after, n, r.accounts[n]);
    case Move(id, target) =>
      var src := Resolve(r, id).slot;
      if target in r.accounts { ExchangeLosesNobody(r, src, target, n); } else { RenumberLosesNobody(r, src, target, n); }
    case Swap(id, other) => ExchangeLosesNobody(r, Resolve(r, id).slot, Resolve(r, other).slot, n);
    case SetAlias(id, name) =>
      var m := Resolve(r, id).slot;
      EditLosesNobody(r, m, r.accounts[m].(alias := name), r.active, n);
    case UnsetAlias(id) =>
      var m := Resolve(r, id).slot;
      EditLosesNobody(r, m, r.accounts[m].(alias := ""), r.active, n);
    case Switch(target, outgoing, uuid) =>
      if outgoing in r.accounts { EditLosesNobody(r, outgoing, r.accounts[outgoing].(uuid := uuid), Some(target), n); }
      StillPresent(r.(active := Some(target)), n, r.accounts[n]);
  }

  /** The alias the new record gets: the one given, or else the one this identity had, if it keeps a slot the user named. */
  ghost predicate AliasCarried(r: Roster, login: Login, alias: Option<string>, got: string) {
    if alias.Some? then got == alias.value
    else
      && (forall n :: Holds(r, n, login.email, login.org) ==> got == r.accounts[n].alias)
      && ((forall n :: !Holds(r, n, login.email, login.org)) ==> got == "")
  }

  lemma CarriedIsTheHolders(r: Roster, n: Slot, login: Login, h: Slot)
    requires Inv(r) && Holds(r, h, login.email, login.org)
    ensures CarriedAlias(r, n, login, MigrateFrom(r, n, login.email, login.org)) == r.accounts[h].alias
  {
    FindSlotFinds(r, login.email, login.org);
    UniqueHolder(r, FindSlot(r, login.email, login.org).value, h, login.email, login.org);
    if Holds(r, n, login.email, login.org) { UniqueHolder(r, n, h, login.email, login.org); }
  }

  lemma NothingToCarry(r: Roster, n: Slot, login: Login)
    requires forall h :: !Holds(r, h, login.email, login.org)
    ensures CarriedAlias(r, n, login, MigrateFrom(r, n, login.email, login.org)) == ""
  {
    FindSlotFinds(r, login.email, login.org);
  }

  lemma PlannedAlias(r: Roster, slot: Option<Slot>, login: Login, alias: Option<string>,
                     confirmed: Option<Occupant>, assumeYes: bool)
    requires Inv(r) && PlanAdd(r, slot, login, alias, confirmed, assumeYes).Place?
    ensures AliasCarried(r, login, alias, PlanAdd(r, slot, login, alias, confirmed, assumeYes).rec.alias)
  {
    if alias.None? && slot.Some? {
      LandsWithMigration(r, slot.value, login.email, login.org, confirmed, assumeYes);
      forall h | Holds(r, h, login.email, login.org)
        ensures PlanAdd(r, slot, login, alias, confirmed, assumeYes).rec.alias == r.accounts[h].alias
      {
        CarriedIsTheHolders(r, slot.value, login, h);
      }
      if forall h :: !Holds(r, h, login.email, login.org) { NothingToCarry(r, slot.value, login); }
    } else if alias.None? {
      FindSlotFinds(r, login.email, login.org);
    }
  }

  lemma PlannedRecord(r: Roster, slot: Option<Slot>, login: Login, alias: Option<string>,
                      confirmed: Option<Occupant>, assumeYes: bool)
    requires PlanAdd(r, slot, login, alias, confirmed, assumeYes).Place?
    ensures var p := PlanAdd(r, slot, login, alias, confirmed, assumeYes);
            && p.rec == Rec(login.email, login.org, login.orgName, login.uuid, p.rec.alias, false) && p.activate
            && p.slot == if slot.Some? then slot.value else NextNumber(r)
  {
    if slot.Some? { LandsWithMigration(r, slot.value, login.email, login.org, confirmed, assumeYes); }
  }

  lemma InstalledOnce(r: Roster, p: AddPlan, n: Slot)
    requires p.Place? && Inv(AfterInstall(r, p))
    ensures Holds(AfterInstall(r, p), n, p.rec.email, p.rec.org) <==> n == p.slot
  {
    var after := AfterInstall(r, p);
    if Holds(after, n, p.rec.email, p.rec.org) { UniqueHolder(after, n, p.slot, p.rec.email, p.rec.org); }
  }

  /**
   A completed add holds the login that was read, exactly once, active, in the slot asked for or else
   the next free one, and under the alias given or else the one the identity had.
   */
  lemma AddInstalls(r: Roster, slot: Option<Slot>, login: Login, alias: Option<string>,
                    confirmed: Option<Occupant>, assumeYes: bool)
    requires Inv(r) && PlanAdd(r, slot, login, alias, confirmed, assumeYes).Place?
    ensures var p := PlanAdd(r, slot, login, alias, confirmed, assumeYes);
            var after := AfterInstall(r, p);
            && after.active == Some(p.slot) && p.slot == (if slot.Some? then slot.value else NextNumber(r))
            && (forall n :: Holds(after, n, login.email, login.org) <==> n == p.slot)
            && var rec := after.accounts[p.slot];
               rec == Rec(login.email, login.org, login.orgName, login.uuid, rec.alias, false)
               && AliasCarried(r, login, alias, rec.alias)
  {
    var p := PlanAdd(r, slot, login, alias, confirmed, assumeYes);
    PlannedAlias(r, slot, login, alias, confirmed, assumeYes);
    PlannedRecord(r, slot, login, alias, confirmed, assumeYes);
    PlanAddSound(r, slot, login, alias, confirmed, assumeYes);
    InstallKeepsInv(r, p);
    forall n ensures Holds(AfterInstall(r, p), n, login.email, login.org) <==> n == p.slot { InstalledOnce(r, p, n); }
  }

  /** Accounts an add neither displaces nor migrates keep their slot and their record. */
  lemma AddSparesOthers(r: Roster, p: AddPlan, n: Slot)
    requires p.Place? && n in r.accounts && n != p.slot && p.migrated != Some(n)
    requires p.displaced.Some? ==> p.displaced.value.slot == p.slot
    ensures n in AfterInstall(r, p).accounts && AfterInstall(r, p).accounts[n] == r.accounts[n]
  {
  }

  lemma UniqueAlias(r: Roster, m: Slot, n: Slot, alias: string)
    requires Inv(r) && AliasedAs(r, m, alias) && AliasedAs(r, n, alias)
    ensures m == n
  {
    LowerOfEmpty(r.accounts[m].alias);
    LowerOfEmpty(alias);
    assert m != n ==> !Clash(r.accounts[m], r.accounts[n]);
  }

  /** An alias lands on the slot that was named, and nothing else in the roster changes. */
  lemma AliasLands(r: Roster, id: Ident, name: string)
    requires Inv(r) && name != "" && SetAliasSpan(r, id, name).Commit?
    ensures var n := Resolve(r, id).slot;
            && SetAliasSpan(r, id, name) == Commit([r.(accounts := r.accounts[n := r.accounts[n].(alias := name)])])
            && FindAlias(SetAliasSpan(r, id, name).rosters[0], name) == Some(n)
  {
    var n := Resolve(r, id).slot;
    var after := SetAliasSpan(r, id, name).rosters[0];
    SetAliasKeepsInv(r, Resolve(r, id), name);
    assert Inv(after);
    FindAliasFinds(after, name);
    assert AliasedAs(after, n, name);
    UniqueAlias(after, FindAlias(after, name).value, n, name);
  }

  lemma PlannedToken(r: Roster, slot: Option<Slot>, email: string, apiKey: bool,
                     confirmed: Option<Occupant>, assumeYes: bool)
    requires PlanToken(r, slot, email, apiKey, confirmed, assumeYes).Place?
    ensures var p := PlanToken(r, slot, email, apiKey, confirmed, assumeYes);
            && p.rec == Rec(TokenEmail(TokenSlot(r, slot, email), email, apiKey), "", "", "", "", apiKey) && !p.activate
            && p.slot == if slot.Some? then slot.value else NextNumber(r)
  {
    var named := TokenSlot(r, slot, email);
    if named.Some? { LandsWithMigration(r, named.value, TokenEmail(named, email, apiKey), "", confirmed, assumeYes); }
  }

  /** A completed add-token holds the token's identity, exactly once, of the right kind, and activates nothing. */
  lemma TokenInstalls(r: Roster, slot: Option<Slot>, email: string, apiKey: bool,
                      confirmed: Option<Occupant>, assumeYes: bool)
    requires Inv(r) && PlanToken(r, slot, email, apiKey, confirmed, assumeYes).Place?
    ensures var p := PlanToken(r, slot, email, apiKey, confirmed, assumeYes);
            var after := AfterInstall(r, p);
            && after.active == r.active && p.slot == (if slot.Some? then slot.value else NextNumber(r))
            && after.accounts[p.slot] == Rec(TokenEmail(TokenSlot(r, slot, email), email, apiKey), "", "", "", "", apiKey)
            && forall n :: Holds(after, n, p.rec.email, "") <==> n == p.slot
  {
    var p := PlanToken(r, slot, email, apiKey, confirmed, assumeYes);
    PlannedToken(r, slot, email, apiKey, confirmed, assumeYes);
    PlanTokenSound(r, slot, email, apiKey, confirmed, assumeYes);
    InstallKeepsInv(r, p);
    forall n ensures Holds(AfterInstall(r, p), n, p.rec.email, "") <==> n == p.slot { InstalledOnce(r, p, n); }
  }

  /** A login that is managed already is refreshed: active, under the alias given if one was, and nothing else changes. */
  lemma AddRefreshes(r: Roster, slot: Option<Slot>, login: Login, alias: Option<string>,
                     confirmed: Option<Occupant>, assumeYes: bool)
    requires PlanAdd(r, slot, login, alias, confirmed, assumeYes).Refresh?
    ensures var p := PlanAdd(r, slot, login, alias, confirmed, assumeYes);
            && Holds(r, p.slot, login.email, login.org) && p.refreshed.active == Some(p.slot)
            && p.refreshed.sequence == r.sequence && p.refreshed.accounts.Keys == r.accounts.Keys
            && forall n :: n in r.accounts ==>
                 p.refreshed.accounts[n] == if n == p.slot && alias.Some? then r.accounts[n].(alias := alias.value) else r.accounts[n]
  {
    FindSlotFinds(r, login.email, login.org);
    var p := PlanAdd(r, slot, login, alias, confirmed, assumeYes);
    LandDrops(r, slot, login.email, login.org, confirmed, assumeYes);
    assert p.slot in r.accounts;
  }

  // ---- placeholder names --------------------------------------------------------------------

  /** The number that decimal digits stand for. */
  function NumberOf(s: string): int {
    if s == "" then 0 else NumberOf(s[..|s| - 1]) * 10 + (s[|s| - 1] as int - '0' as int)
  }

  lemma {:induction false} DigitsReadBack(n: nat)
    ensures NumberOf(Digits(n)) == n
  {
    if n >= 10 {
      DigitsReadBack(n / 10);
      var d := Digits(n);
      assert d[..|d| - 1] == Digits(n / 10);
    } else {
      assert Digits(n)[..0] == "";
    }
  }

  lemma SuffixDropped(a: string, x: string, y: string, b: string)
    requires a + x + b == a + y + b
    ensures x == y
  {
    assert |x| == |y|;
    assert x == (a + x + b)[|a|..|a| + |x|];
    assert y == (a + y + b)[|a|..|a| + |y|];
  }

  /** Tokens added without an email get a different name in every slot, and for every kind. */
  lemma PlaceholdersDiffer(a: bool, m: Slot, b: bool, n: Slot)
    ensures PlaceholderEmail(a, m) == PlaceholderEmail(b, n) ==> a == b && m == n
  {
    if PlaceholderEmail(a, m) == PlaceholderEmail(b, n) {
      assert PlaceholderEmail(a, m)[0] == if a then 'a' else 's';
      assert PlaceholderEmail(b, n)[0] == if b then 'a' else 's';
      var prefix := (if a then "api-key" else "setup-token") + "-";
      SuffixDropped(prefix, Digits(m), Digits(n), "@token.local");
      DigitsReadBack(m);
      DigitsReadBack(n);
    }
  }

  // ---- what is refused, and only that -------------------------------------------------------

  /** The slot asked for holds somebody else, whom nobody agreed to overwrite. */
  predicate Unconfirmed(r: Roster, slot: Option<Slot>, email: string, org: string,
                        confirmed: Option<Occupant>, assumeYes: bool) {
    && slot.Some? && slot.value in r.accounts && !Holds(r, slot.value, email, org)
    && !assumeYes && confirmed != Some(OccupantOf(r, slot.value))
  }

  /** A slot other than the one the login lands in carries the alias. */
  ghost predicate AliasTaken(r: Roster, slot: Option<Slot>, login: Login, alias: string) {
    exists m: Slot :: AliasedAs(r, m, alias) && slot != Some(m) && (slot.None? ==> !Holds(r, m, login.email, login.org))
  }

  ghost predicate TakenElsewhere(r: Roster, alias: string, n: Slot) {
    exists m: Slot :: m != n && AliasedAs(r, m, alias)
  }

  lemma InUseExactly(r: Roster, alias: string, n: Slot)
    requires Inv(r)
    ensures AliasInUse(r, alias, Some(n)).Some? <==> TakenElsewhere(r, alias, n)
  {
    FindAliasFinds(r, alias);
    var held := FindAlias(r, alias);
    assert AliasInUse(r, alias, Some(n)) == if held == Some(n) then None else held;
    if held.Some? {
      forall m | AliasedAs(r, m, alias) ensures m == held.value { UniqueAlias(r, m, held.value, alias); }
    }
  }

  lemma LandExactly(r: Roster, slot: Option<Slot>, email: string, org: string, confirmed: Option<Occupant>, assumeYes: bool)
    requires Inv(r)
    ensures var l := Land(r, slot, email, org, confirmed, assumeYes);
            && (l.Blocked? <==> Unconfirmed(r, slot, email, org, confirmed, assumeYes))
            && (l.Existing? ==> forall m :: Holds(r, m, email, org) <==> m == l.slot)
            && (l.Existing? <==> slot.None? && exists m :: Holds(r, m, email, org))
            && (l.At? ==> l.slot == if slot.Some? then slot.value else NextNumber(r))
  {
    FindSlotFinds(r, email, org);
    if slot.None? {
      var held := FindSlot(r, email, org);
      if held.Some? {
        forall m | Holds(r, m, email, org) ensures m == held.value { UniqueHolder(r, m, held.value, email, org); }
      }
    } else {
      RevalidateDecides(r, slot.value, email, org, confirmed, assumeYes);
      LandsThere(slot.value, Revalidate(r, slot.value, email, org, confirmed, assumeYes),
                 MigrateFrom(r, slot.value, email, org));
    }
  }

  /** An add is refused exactly over an occupant nobody confirmed or an alias that is taken, and refreshes exactly a login that is managed when no slot was asked for. */
  lemma AddRefusedExactly(r: Roster, slot: Option<Slot>, login: Login, alias: Option<string>,
                          confirmed: Option<Occupant>, assumeYes: bool)
    requires Inv(r)
    ensures var p := PlanAdd(r, slot, login, alias, confirmed, assumeYes);
            && (p.Refuse? <==> || Unconfirmed(r, slot, login.email, login.org, confirmed, assumeYes)
                               || (alias.Some? && AliasTaken(r, slot, login, alias.value)))
            && (p.Refresh? ==> slot.None? && Holds(r, p.slot, login.email, login.org))
            && (p.Place? ==> slot.Some? || forall n :: !Holds(r, n, login.email, login.org))
  {
    var l := Land(r, slot, login.email, login.org, confirmed, assumeYes);
    LandExactly(r, slot, login.email, login.org, confirmed, assumeYes);
    if alias.Some? && !l.Blocked? { TakenExactly(r, slot, login, alias.value, l.slot); }
  }

  lemma TakenExactly(r: Roster, slot: Option<Slot>, login: Login, alias: string, n: Slot)
    requires Inv(r)
    requires slot.Some? ==> n == slot.value
    requires slot.None? ==> if n in r.accounts then forall m :: Holds(r, m, login.email, login.org) <==> m == n
                            else forall m :: !Holds(r, m, login.email, login.org)
    ensures AliasInUse(r, alias, Some(n)).Some? <==> AliasTaken(r, slot, login, alias)
  {
    InUseExactly(r, alias, n);
    forall m: Slot | AliasedAs(r, m, alias)
      ensures m != n <==> slot != Some(m) && (slot.None? ==> !Holds(r, m, login.email, login.org))
    {
    }
  }

  lemma CrossKindExactly(r: Roster, email: string, apiKey: bool)
    requires Inv(r)
    ensures CrossKind(r, email, apiKey) <==> exists n :: Holds(r, n, email, "") && r.accounts[n].apiKey != apiKey
  {
    FindSlotFinds(r, email, "");
    var held := FindSlot(r, email, "");
    if held.Some? {
      forall n | Holds(r, n, email, "") ensures n == held.value { UniqueHolder(r, n, held.value, email, ""); }
    }
  }

  /** An add-token is refused exactly over an occupant nobody confirmed or an account of the other kind under its name. */
  lemma TokenRefusedExactly(r: Roster, slot: Option<Slot>, email: string, apiKey: bool,
                            confirmed: Option<Occupant>, assumeYes: bool)
    requires Inv(r)
    ensures var name := TokenEmail(TokenSlot(r, slot, email), email, apiKey);
            PlanToken(r, slot, email, apiKey, confirmed, assumeYes).Refuse? <==>
              || Unconfirmed(r, slot, name, "", confirmed, assumeYes)
              || exists n :: Holds(r, n, name, "") && r.accounts[n].apiKey != apiKey
  {
    var named := TokenSlot(r, slot, email);
    var name := TokenEmail(named, email, apiKey);
    LandExactly(r, named, name, "", confirmed, assumeYes);
    CrossKindExactly(r, name, apiKey);
    assert named != slot ==> named.value !in r.accounts;
    assert Unconfirmed(r, slot, name, "", confirmed, assumeYes) <==> Unconfirmed(r, named, name, "", confirmed, assumeYes);
  }

  /** Setting an alias is refused exactly when the identifier names no one slot or another slot has the alias. */
  lemma AliasRefusedExactly(r: Roster, id: Ident, name: string)
    requires Inv(r)
    ensures SetAliasSpan(r, id, name).Abort? <==>
              forall n :: Names(r, id, n) ==> TakenElsewhere(r, name, n)
  {
    ResolveExactly(r, id);
    ResolveFinds(r, id);
    if Resolve(r, id).Found? {
      InUseExactly(r, name, Resolve(r, id).slot);
      assert Names(r, id, Resolve(r, id).slot);
    }
  }

  /** The record without its alias, everything else as it was. */
  function WithoutAlias(r: Roster, n: Slot): Roster
    requires n in r.accounts
  {
    r.(accounts := r.accounts[n := r.accounts[n].(alias := "")])
  }

  lemma ClearedFound(r: Roster, n: Slot)
    requires n in r.accounts
    ensures UnsetAliasFound(r, Found(n)).Commit? && SpanEnd(r, UnsetAliasFound(r, Found(n))) == WithoutAlias(r, n)
  {
    if r.accounts[n].alias == "" {
      assert r.accounts[n].(alias := "") == r.accounts[n];
      assert r.accounts[n := r.accounts[n]] == r.accounts;
    }
  }

  /** Clearing an alias, unless the identifier names no one slot, leaves that slot without one and every other record as it was. */
  lemma AliasCleared(r: Roster, id: Ident)
    ensures UnsetAliasSpan(r, id).Abort? <==> forall n :: !Names(r, id, n)
    ensures forall n :: Names(r, id, n) ==> n in r.accounts && SpanEnd(r, UnsetAliasSpan(r, id)) == WithoutAlias(r, n)
  {
    ResolveExactly(r, id);
    ResolveFinds(r, id);
    if Resolve(r, id).Found? {
      assert Names(r, id, Resolve(r, id).slot);
      ClearedFound(r, Resolve(r, id).slot);
    }
  }
}
