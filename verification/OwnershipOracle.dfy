/**
 The ownership oracle, decided from the records alone: to whom a resolved identity belongs, which
 verdict follows, and so exactly which live bytes a switch files under the outgoing slot. Nothing
 in the statements speaks of the lookups or of the order in which the cases are tried.
 */
module OwnershipOracle {
  import opened Basics
  import opened Rosters
  import opened ActiveStore
  import opened Switching
  import opened SwitchTheorems
  import opened SwitchRoundTrip

  // ---- whose identity it is ---------------------------------------------------------------

  /** Two uuids, each without surrounding space, are there and differ. */
  predicate Contradict(a: string, b: string) {
    Trim(a) != "" && Trim(b) != "" && Trim(a) != Trim(b)
  }

  /** The record has the resolved email and organization, and no uuid that says otherwise. */
  predicate NamedByEmail(r: Roster, id: Identity, n: Slot) {
    id.email != "" && Holds(r, n, id.email, id.org) && !Contradict(r.accounts[n].uuid, id.uuid)
  }

  /** The record has the resolved uuid and organization. */
  predicate NamedByUUID(r: Roster, id: Identity, n: Slot) {
    n in r.accounts && Trim(id.uuid) != "" && r.accounts[n].uuid == Trim(id.uuid) && r.accounts[n].org == id.org
  }

  /** By email; or, when no slot is, the first slot in the rotation by uuid. */
  ghost predicate BelongsTo(r: Roster, id: Identity, n: Slot) {
    if exists m :: NamedByEmail(r, id, m) then NamedByEmail(r, id, n)
    else NamedByUUID(r, id, n) && forall m :: NamedByUUID(r, id, m) ==> n <= m
  }

  lemma {:induction false} ScanUUIDFirst(r: Roster, slots: seq<Slot>, uuid: string, org: string)
    requires Increasing(slots)
    ensures match ScanUUID(r, slots, uuid, org)
            case Some(n) => CarriesUUID(r, n, uuid, org) && forall m :: m in slots && CarriesUUID(r, m, uuid, org) ==> n <= m
            case None => forall m :: m in slots ==> !CarriesUUID(r, m, uuid, org)
  {
    if slots != [] {
      ScanUUIDFirst(r, slots[1..], uuid, org);
      assert forall m :: m in slots <==> m == slots[0] || m in slots[1..];
    }
  }

  lemma ScanOrderIsTheSequence(r: Roster)
    requires Listed(r)
    ensures ScanOrder(r) == r.sequence
  {
    assert r.accounts.Keys - Elements(r.sequence) == {};
    assert Ascending({}) == [];
  }

  lemma CarriesIsNamed(r: Roster, id: Identity, n: Slot)
    requires Trim(id.uuid) != ""
    ensures CarriesUUID(r, n, Trim(id.uuid), id.org) <==> NamedByUUID(r, id, n)
  {
  }

  /** By email first: the slot the composite lookup finds, unless its uuid says otherwise. */
  lemma EmailAttributes(r: Roster, id: Identity, n: Slot)
    requires Inv(r)
    requires NamedByEmail(r, id, n)
    ensures Attribute(r, id) == Some(n)
  {
    FindsItsSlot(r, n, id.email, id.org);
  }

  lemma UUIDAttributes(r: Roster, id: Identity, n: Slot)
    requires Inv(r)
    requires forall m :: !NamedByEmail(r, id, m)
    ensures Attribute(r, id) == Some(n) <==> NamedByUUID(r, id, n) && forall m :: NamedByUUID(r, id, m) ==> n <= m
  {
    var uuid := Trim(id.uuid);
    var found := FindSlot(r, id.email, id.org);
    if id.email != "" && found.Some? {
      FindSlotFinds(r, id.email, id.org);
      assert !NamedByEmail(r, id, found.value);
    }
    assert Attribute(r, id) == if uuid != "" then ScanUUID(r, ScanOrder(r), uuid, id.org) else None;
    if uuid != "" {
      ScanOrderIsTheSequence(r);
      ScanUUIDFirst(r, r.sequence, uuid, id.org);
      forall m ensures CarriesUUID(r, m, uuid, id.org) <==> NamedByUUID(r, id, m) { CarriesIsNamed(r, id, m); }
      forall m ensures m in r.sequence <==> m in r.accounts { InSequence(r, m); }
    }
  }

  /** An identity is attributed to the slot it belongs to, and to no other. */
  lemma AttributedExactly(r: Roster, id: Identity)
    requires Inv(r)
    ensures forall n: Slot :: Attribute(r, id) == Some(n) <==> BelongsTo(r, id, n)
  {
    forall n: Slot ensures Attribute(r, id) == Some(n) <==> BelongsTo(r, id, n) {
      if m :| NamedByEmail(r, id, m) {
        EmailAttributes(r, id, m);
        if NamedByEmail(r, id, n) { EmailAttributes(r, id, n); }
      } else {
        UUIDAttributes(r, id, n);
      }
    }
  }

  // ---- the verdict ---------------------------------------------------------------------------

  /** The slot's backup has the lineage of these bytes. */
  predicate KeepsLineage(fp: string -> string, s: State, k: Key, live: string) {
    Backup(s, k) != "" && (Backup(s, k) == live || (live != "" && fp(Backup(s, k)) == fp(live)))
  }

  /** The endpoint has answered, and for exactly these bytes. */
  predicate Trusted(p: Provenance, live: string) {
    p.resolved.Some? && p.live == Some(live)
  }

  /** The outgoing record carries the resolved uuid; the organizations agree where both are known. */
  predicate SameOwner(r: Roster, current: Slot, id: Identity) {
    && current in r.accounts && Trim(id.uuid) != "" && Trim(r.accounts[current].uuid) == Trim(id.uuid)
    && (r.accounts[current].org in {"", id.org} || id.org == "")
  }

  ghost predicate Own(r: Roster, current: Slot, id: Identity) {
    SameOwner(r, current, id) || BelongsTo(r, id, current)
  }

  /** The record it belongs to carries its uuid, so that it can be named as the owner. */
  ghost predicate Proven(r: Roster, id: Identity, n: Slot) {
    BelongsTo(r, id, n) && Trim(id.uuid) != "" && Trim(r.accounts[n].uuid) == Trim(id.uuid)
  }

  ghost predicate Nobodys(r: Roster, id: Identity) {
    forall n :: !BelongsTo(r, id, n)
  }

  predicate Complete(id: Identity) {
    id.email != "" && id.org != ""
  }

  function OwnerKey(r: Roster, n: Slot): Key
    requires n in r.accounts
  {
    Key(n, r.accounts[n].email)
  }

  /** What each verdict means. */
  ghost predicate Means(fp: string -> string, s: State, j: Job, p: Provenance, v: Verdict) {
    var r, own := s.roster, Key(j.current, j.email);
    var local := KeepsLineage(fp, s, own, j.creds);
    var asked := !local && Trusted(p, j.creds);
    match v
    case OwnBytes => local && Backup(s, own) == j.creds
    case OwnFamily => local && Backup(s, own) != j.creds
    case OwnRotated => asked && Own(r, j.current, p.resolved.value)
    case Foreign(n) =>
      && asked && !Own(r, j.current, p.resolved.value) && Proven(r, p.resolved.value, n)
      && n in r.accounts && !KeepsLineage(fp, s, OwnerKey(r, n), j.creds)
    case ForeignSynced(n) =>
      && asked && !Own(r, j.current, p.resolved.value) && Proven(r, p.resolved.value, n)
      && n in r.accounts && KeepsLineage(fp, s, OwnerKey(r, n), j.creds)
    case Alien =>
      && asked && !Own(r, j.current, p.resolved.value)
      && (forall n :: !Proven(r, p.resolved.value, n))
      && (Nobodys(r, p.resolved.value) ==> Complete(p.resolved.value))
    case Unresolved =>
      && !local
      && (Trusted(p, j.creds) ==> !Own(r, j.current, p.resolved.value)
                                  && Nobodys(r, p.resolved.value) && !Complete(p.resolved.value))
  }

  lemma LineageIs(fp: string -> string, s: State, k: Key, live: string)
    ensures KeepsLineage(fp, s, k, live)
       <==> Backup(s, k) != "" && (Backup(s, k) == live || SameLineage(fp, Backup(s, k), live))
  {
  }

  lemma BelongsToOne(r: Roster, id: Identity, m: Slot, n: Slot)
    requires Inv(r) && BelongsTo(r, id, m) && BelongsTo(r, id, n)
    ensures m == n
  {
    AttributedExactly(r, id);
  }

  lemma BelongsToASlot(r: Roster, id: Identity, n: Slot)
    requires BelongsTo(r, id, n)
    ensures n in r.accounts
  {
  }

  /** The verdict on bytes whose identity is known, and belongs to another slot. */
  lemma TheirsMeans(fp: string -> string, s: State, j: Job, p: Provenance, n: Slot)
    requires Inv(s.roster) && Trusted(p, j.creds)
    requires !KeepsLineage(fp, s, Key(j.current, j.email), j.creds)
    requires BelongsTo(s.roster, p.resolved.value, n) && !Own(s.roster, j.current, p.resolved.value)
    ensures Means(fp, s, j, p, ClassifyAttributed(fp, s, j.current, j.creds, p.resolved.value, Some(n)))
  {
    var r, id := s.roster, p.resolved.value;
    BelongsToASlot(r, id, n);
    LineageIs(fp, s, OwnerKey(r, n), j.creds);
    forall m | BelongsTo(r, id, m) ensures m == n { BelongsToOne(r, id, m, n); }
    assert Proven(r, id, n) <==> Trim(id.uuid) != "" && Trim(r.accounts[n].uuid) == Trim(id.uuid);
  }

  /** The verdict on bytes whose identity is known, and belongs to no slot. */
  lemma NobodysMeans(fp: string -> string, s: State, j: Job, p: Provenance)
    requires Trusted(p, j.creds) && !KeepsLineage(fp, s, Key(j.current, j.email), j.creds)
    requires Nobodys(s.roster, p.resolved.value) && !Own(s.roster, j.current, p.resolved.value)
    ensures Means(fp, s, j, p, ClassifyAttributed(fp, s, j.current, j.creds, p.resolved.value, None))
  {
  }

  /** The verdict means what it should. */
  lemma VerdictMeans(fp: string -> string, s: State, j: Job, p: Provenance)
    requires Inv(s.roster)
    ensures Means(fp, s, j, p, Classify(fp, s, j.current, j.email, j.creds, p))
  {
    var own := Key(j.current, j.email);
    LineageIs(fp, s, own, j.creds);
    if !KeepsLineage(fp, s, own, j.creds) && Trusted(p, j.creds) {
      AttributedExactly(s.roster, p.resolved.value);
      if !Own(s.roster, j.current, p.resolved.value) {
        var owner := Attribute(s.roster, p.resolved.value);
        if owner.Some? { TheirsMeans(fp, s, j, p, owner.value); } else { NobodysMeans(fp, s, j, p); }
      }
    }
  }

  /** No two verdicts mean the same, so the meaning fixes the verdict. */
  lemma OneVerdict(fp: string -> string, s: State, j: Job, p: Provenance, v: Verdict, w: Verdict)
    requires Inv(s.roster) && Means(fp, s, j, p, v) && Means(fp, s, j, p, w)
    ensures v == w
  {
    if (v.Foreign? || v.ForeignSynced?) && (w.Foreign? || w.ForeignSynced?) {
      BelongsToOne(s.roster, p.resolved.value, v.slot, w.slot);
    }
  }

  /** The oracle gives a verdict exactly when that is what the records, the backups and the answer mean. */
  lemma OracleExactly(fp: string -> string, s: State, j: Job, p: Provenance, v: Verdict)
    requires Inv(s.roster)
    ensures Classify(fp, s, j.current, j.email, j.creds, p) == v <==> Means(fp, s, j, p, v)
  {
    VerdictMeans(fp, s, j, p);
    if Means(fp, s, j, p, v) { OneVerdict(fp, s, j, p, v, Classify(fp, s, j.current, j.email, j.creds, p)); }
  }

  // ---- what is filed ---------------------------------------------------------------------------

  /** The answer is trusted, is not the outgoing account, and is either a managed account or a complete stranger. */
  ghost predicate SomebodyElses(fp: string -> string, s: State, j: Job, p: Provenance) {
    && !KeepsLineage(fp, s, Key(j.current, j.email), j.creds)
    && Trusted(p, j.creds) && !Own(s.roster, j.current, p.resolved.value)
    && ((exists n :: BelongsTo(s.roster, p.resolved.value, n)) || Complete(p.resolved.value))
  }

  lemma ElsesVerdict(fp: string -> string, s: State, j: Job, p: Provenance)
    requires Inv(s.roster)
    ensures SomebodyElses(fp, s, j, p) <==> NotOurs(Classify(fp, s, j.current, j.email, j.creds, p))
  {
    VerdictMeans(fp, s, j, p);
  }

  /**
   What has become of the login that was live. Not somebody else's, its credential and the live
   config are filed under the outgoing slot. Otherwise that slot is as it was, and the credential
   is in the stash, unless the owner's own backup has its lineage already.
   */
  ghost predicate HandedOver(fp: string -> string, s: State, t: State, j: Job, p: Provenance) {
    var own := Key(j.current, j.email);
    if SomebodyElses(fp, s, j, p) then
      && SameBackups(s, t, own) && Backup(t, own) != j.creds
      && (j.creds in t.stash
          || exists n :: n in s.roster.accounts && Proven(s.roster, p.resolved.value, n)
                         && KeepsLineage(fp, t, OwnerKey(s.roster, n), j.creds))
    else Backup(t, own) == j.creds && ConfigBackup(t, own) == j.config
  }

  /** What a verdict against the outgoing slot comes to. */
  lemma ElsesIsKept(fp: string -> string, s: State, t: State, j: Job, p: Provenance, v: Verdict)
    requires Means(fp, s, j, p, v) && NotOurs(v) && SomebodyElses(fp, s, j, p) && j.creds != ""
    requires Filed(s, t, j, v) && forall k :: k != Key(j.current, j.email) ==> SameBackups(s, t, k)
    ensures HandedOver(fp, s, t, j, p)
  {
    var own := Key(j.current, j.email);
    assert Backup(s, own) != j.creds;
    if v.ForeignSynced? {
      var k := OwnerKey(s.roster, v.slot);
      assert BelongsTo(s.roster, p.resolved.value, v.slot) && k.slot != j.current;
      assert SameBackups(s, t, k);
    }
  }

  /** A switch files the outgoing login under the outgoing slot exactly when it is not somebody else's. */
  lemma FiledExactly(fp: string -> string, s: State, j: Job, p: Provenance)
    requires Inv(s.roster) && j.creds != "" && NormalSwitch(fp, s, j, p).Switched?
    ensures HandedOver(fp, s, NormalSwitch(fp, s, j, p).s, j, p)
  {
    var t, v := NormalSwitch(fp, s, j, p).s, Classify(fp, s, j.current, j.email, j.creds, p);
    SwitchFilesTheOutgoing(fp, s, j, p);
    ElsesVerdict(fp, s, j, p);
    VerdictMeans(fp, s, j, p);
    if NotOurs(v) { ElsesIsKept(fp, s, t, j, p, v); }
  }

  // ---- which path ---------------------------------------------------------------------------------

  /** Unless forced, the slot that the live login really stands in hands it over, whatever slot is on record as active. */
  lemma LiveLoginIsHandedOver(fp: string -> string, s: State, target: Slot, p: Provenance, n: Slot)
    requires Inv(s.roster) && LiveIn(s, n) && PerformSwitch(fp, s, target, false, p).Switched?
    ensures target in s.roster.accounts
    ensures HandedOver(fp, s, PerformSwitch(fp, s, target, false, p).s, JobOf(s, target, n), p)
  {
    var account := OAuthOf(s.live).value;
    FindsItsSlot(s.roster, n, account.email, account.org);
    TakesNormalPath(fp, s, n, target, p);
    FiledExactly(fp, s, JobOf(s, target, n), p);
  }

  /** There is a live login that the new credential would overwrite. */
  predicate StashIsDue(s: State, c: string) {
    HasIdentity(s.live) && ReadActive(s.live) !in {"", c}
  }

  /** A direct activation stashes the live login exactly when it would overwrite it; only a forced one goes on without. */
  lemma DirectStashesExactly(s: State, target: Slot, forced: bool)
    requires target in s.roster.accounts && DirectSwitch(s, target, forced).Switched?
    ensures var t, due := DirectSwitch(s, target, forced).s, StashIsDue(s, Backup(s, KeyOf(s.roster, target)));
            && (due && Draw(s).ok ==> t.stash == s.stash + [ReadActive(s.live)])
            && (due && !Draw(s).ok ==> forced && t.stash in {s.stash, s.stash + [ReadActive(s.live)]})
            && (!due ==> t.stash == s.stash)
  {
    var k := KeyOf(s.roster, target);
    var d := Displace(s, Backup(s, k), forced);
    InstallKeepsCopies(d.s, target, Backup(s, k), ConfigBackup(s, k));
  }

  lemma ForcedDisplaces(s: State, c: string)
    ensures var d := Displace(s, c, true);
            d.ok && d.s.fates == (if StashIsDue(s, c) then Spent(s).fates else s.fates)
            && d.s == s.(fates := d.s.fates, stash := d.s.stash)
  {
  }

  /** A forced switch reinstalls what is stored, even over the slot's own login or when the stash fails, and files nothing. */
  lemma ForcedSwitchReinstalls(fp: string -> string, s: State, target: Slot, p: Provenance)
    requires target in s.roster.accounts && Activatable(s, KeyOf(s.roster, target))
    requires var c := Backup(s, KeyOf(s.roster, target));
             && Trim(c) != "" && !LooksLikeAPIKey(c)
             && Undisturbed(if StashIsDue(s, c) then Spent(s).fates else s.fates)
    ensures var r, k := PerformSwitch(fp, s, target, true, p), KeyOf(s.roster, target);
            && r.Switched? && r.s.creds == s.creds && r.s.configs == s.configs
            && r.s.roster == s.roster.(active := Some(target))
            && OAuthOf(r.s.live) == ConfigBackup(s, k).oauth && ReadActive(r.s.live) == Backup(s, k)
  {
    var k := KeyOf(s.roster, target);
    ForcedDisplaces(s, Backup(s, k));
    UndisturbedInstall(Displace(s, Backup(s, k), true).s, target, Backup(s, k), ConfigBackup(s, k));
    DirectSwitchActivates(s, target, true);
    DirectKeepsBackups(s, target, true);
  }
}
