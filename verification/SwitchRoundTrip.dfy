/**
 What a switch files, and under which key: the outgoing login's credential and config go together,
 nobody else's backup is touched, and so a switch can be undone by switching back.
 */
module SwitchRoundTrip {
  import opened Basics
  import opened Rosters
  import opened ActiveStore
  import opened Switching
  import opened SwitchTheorems
  import Spans

  // ---- what is filed --------------------------------------------------------------------

  /** The verdict says that the live bytes are not the outgoing slot's. */
  predicate NotOurs(v: Verdict) {
    v.Foreign? || v.ForeignSynced? || v.Alien?
  }

  predicate SameBackups(s: State, t: State, k: Key) {
    Backup(t, k) == Backup(s, k) && ConfigBackup(t, k) == ConfigBackup(s, k)
  }

  lemma PreserveFilesOwnKey(s: State, j: Job, v: Verdict, k: Key)
    requires k != Key(j.current, j.email)
    ensures SameBackups(s, Preserve(s, j, v).s, k)
  {
  }

  /** The login that was handed over, filed under one key; or, not ours, not filed at all. */
  ghost predicate Filed(s: State, t: State, j: Job, v: Verdict) {
    var own := Key(j.current, j.email);
    if NotOurs(v) then SameBackups(s, t, own) && (v.ForeignSynced? || j.creds in t.stash)
    else ConfigBackup(t, own) == j.config && Backup(t, own) == j.creds
  }

  lemma PreserveFiles(s: State, j: Job, v: Verdict)
    requires Preserve(s, j, v).ok && (v.OwnBytes? ==> Backup(s, Key(j.current, j.email)) == j.creds)
    ensures Filed(s, Preserve(s, j, v).s, j, v)
  {
  }

  /** What a config write may leave if it fails: the file as it was, the new one, or the torn one of that write. */
  predicate PossiblyTorn(c: Config, was: Config, wanted: Config, fates: seq<Fate>) {
    c == was || c == wanted || exists i :: 0 <= i < |fates| && !fates[i].ok && fates[i].applied && c == fates[i].junk
  }

  lemma PreserveTears(s: State, j: Job, v: Verdict)
    ensures var own := Key(j.current, j.email);
            PossiblyTorn(ConfigBackup(Preserve(s, j, v).s, own), ConfigBackup(s, own), j.config, s.fates)
  {
    var own := Key(j.current, j.email);
    if v.OwnBytes? {
      ConfigWriteTears(s, own, j.config, s.fates);
    } else if !NotOurs(v) {
      var c := WriteBackup(s, own, j.creds);
      if c.ok { ConfigWriteTears(c.s, own, j.config, s.fates); }
    }
  }

  lemma ConfigWriteTears(s: State, k: Key, c: Config, fates: seq<Fate>)
    requires s.fates == fates || (fates != [] && s.fates == fates[1..])
    ensures PossiblyTorn(ConfigBackup(WriteConfigBackup(s, k, c).s, k), ConfigBackup(s, k), c, fates)
  {
    if s.fates != [] && !s.fates[0].ok && s.fates[0].applied {
      assert s.fates[0] == fates[if s.fates == fates then 0 else 1];
    }
  }

  lemma BodyKeepsStep1(fp: string -> string, s: State, j: Job, p: Provenance)
    ensures var step1 := Preserve(s, j, Classify(fp, s, j.current, j.email, j.creds, p));
            var r := NormalSwitch(fp, s, j, p);
            && r.s.creds == step1.s.creds && r.s.configs == step1.s.configs && r.s.stash == step1.s.stash
            && (r.Switched? ==> step1.ok)
  {
    var v := Classify(fp, s, j.current, j.email, j.creds, p);
    var step1 := Preserve(s, j, v);
    FilledKeepsSlots(s.roster, j, v, p);
    PreserveKeepsLive(s, j, v);
    ActivateKeepsCopies(step1.s, j, Filled(s.roster, j, v, p));
    var b := Body(fp, s, j, p);
    RollbackKeepsCopies(b.s, j, b.marks);
  }

  /** Both states hold the same backups and the same stash. */
  predicate SameFiles(u: State, t: State) {
    t.creds == u.creds && t.configs == u.configs && t.stash == u.stash
  }

  lemma FilesCarryOver(s: State, u: State, t: State, j: Job, v: Verdict, k: Key)
    requires SameFiles(u, t)
    ensures SameBackups(s, t, k) <==> SameBackups(s, u, k)
    ensures Filed(s, t, j, v) <==> Filed(s, u, j, v)
    ensures ConfigBackup(t, k) == ConfigBackup(u, k)
  {
  }

  /** A switch touches no backup but the outgoing slot's own, however it ends. */
  lemma SwitchKeepsOtherBackups(fp: string -> string, s: State, j: Job, p: Provenance, k: Key)
    requires k != Key(j.current, j.email)
    ensures SameBackups(s, NormalSwitch(fp, s, j, p).s, k)
  {
    var v := Classify(fp, s, j.current, j.email, j.creds, p);
    BodyKeepsStep1(fp, s, j, p);
    PreserveFilesOwnKey(s, j, v, k);
    FilesCarryOver(s, Preserve(s, j, v).s, NormalSwitch(fp, s, j, p).s, j, v, k);
  }

  lemma SwitchTearsAtMost(fp: string -> string, s: State, j: Job, p: Provenance)
    ensures var own := Key(j.current, j.email);
            PossiblyTorn(ConfigBackup(NormalSwitch(fp, s, j, p).s, own), ConfigBackup(s, own), j.config, s.fates)
  {
    var v := Classify(fp, s, j.current, j.email, j.creds, p);
    BodyKeepsStep1(fp, s, j, p);
    PreserveTears(s, j, v);
    FilesCarryOver(s, Preserve(s, j, v).s, NormalSwitch(fp, s, j, p).s, j, v, Key(j.current, j.email));
  }

  lemma SwitchedIsFiled(fp: string -> string, s: State, j: Job, p: Provenance)
    requires NormalSwitch(fp, s, j, p).Switched?
    ensures Filed(s, NormalSwitch(fp, s, j, p).s, j, Classify(fp, s, j.current, j.email, j.creds, p))
  {
    var v := Classify(fp, s, j.current, j.email, j.creds, p);
    BodyKeepsStep1(fp, s, j, p);
    OwnBytesAreStored(fp, s, j, p);
    PreserveFiles(s, j, v);
    FilesCarryOver(s, Preserve(s, j, v).s, NormalSwitch(fp, s, j, p).s, j, v, Key(j.current, j.email));
  }

  /**
   A switch that succeeds has filed the outgoing credential together with the config it was live
   with, unless the bytes are proved not to be the slot's, and then neither. In every outcome every
   other key keeps both of its backups, and the slot's own config is the old, the new, or a torn one.
   */
  lemma SwitchFilesTheOutgoing(fp: string -> string, s: State, j: Job, p: Provenance)
    ensures var r := NormalSwitch(fp, s, j, p);
            var own := Key(j.current, j.email);
            && (r.Switched? ==> Filed(s, r.s, j, Classify(fp, s, j.current, j.email, j.creds, p)))
            && (forall k :: k != own ==> SameBackups(s, r.s, k))
            && PossiblyTorn(ConfigBackup(r.s, own), ConfigBackup(s, own), j.config, s.fates)
  {
    var r := NormalSwitch(fp, s, j, p);
    if r.Switched? { SwitchedIsFiled(fp, s, j, p); }
    forall k | k != Key(j.current, j.email) ensures SameBackups(s, r.s, k) { SwitchKeepsOtherBackups(fp, s, j, p, k); }
    SwitchTearsAtMost(fp, s, j, p);
  }

  /** Direct activation touches no backup at all. */
  lemma DirectKeepsBackups(s: State, target: Slot, forced: bool)
    requires target in s.roster.accounts
    ensures DirectSwitch(s, target, forced).s.creds == s.creds && DirectSwitch(s, target, forced).s.configs == s.configs
  {
    var k := Key(target, s.roster.accounts[target].email);
    var d := Displace(s, Backup(s, k), forced);
    if ConfigBackup(s, k).Good? { InstallKeepsCopies(d.s, target, Backup(s, k), ConfigBackup(s, k)); }
  }

  lemma FindsItsSlot(r: Roster, n: Slot, email: string, org: string)
    requires Inv(r) && Holds(r, n, email, org)
    ensures FindSlot(r, email, org) == Some(n)
  {
    FindSlotFinds(r, email, org);
    Spans.UniqueHolder(r, FindSlot(r, email, org).value, n, email, org);
  }

  /** The resolved identity is the outgoing account's: by its recorded uuid, or by email and organization with no other uuid recorded. */
  predicate NamesOurs(r: Roster, current: Slot, id: Identity) {
    || OwnUUID(r, current, id)
    || (id.email != "" && Holds(r, current, id.email, id.org)
        && (Trim(id.uuid) == "" || Trim(r.accounts[current].uuid) in {"", Trim(id.uuid)}))
  }

  /** The live bytes are of the lineage in the slot's backup, or the endpoint names them as the slot's own. */
  predicate AreOurs(fp: string -> string, s: State, j: Job, p: Provenance) {
    || (Backup(s, Key(j.current, j.email)) != "" && SameLineage(fp, Backup(s, Key(j.current, j.email)), j.creds))
    || (p.live == Some(j.creds) && p.resolved.Some? && NamesOurs(s.roster, j.current, p.resolved.value))
  }

  lemma AttributedHome(r: Roster, current: Slot, id: Identity)
    requires Inv(r) && NamesOurs(r, current, id) && !OwnUUID(r, current, id)
    ensures Attribute(r, id) == Some(current)
  {
    FindsItsSlot(r, current, id.email, id.org);
  }

  lemma OursIsOwn(fp: string -> string, s: State, j: Job, p: Provenance)
    requires Inv(s.roster) && AreOurs(fp, s, j, p)
    ensures Classify(fp, s, j.current, j.email, j.creds, p) in {OwnBytes, OwnFamily, OwnRotated}
  {
    if p.resolved.Some? && p.live == Some(j.creds) && !OwnUUID(s.roster, j.current, p.resolved.value)
       && NamesOurs(s.roster, j.current, p.resolved.value) {
      AttributedHome(s.roster, j.current, p.resolved.value);
    }
  }

  /** Bytes that are the outgoing slot's own, rotated or not, are filed there with the live config. */
  lemma OurBytesAreFiled(fp: string -> string, s: State, j: Job, p: Provenance)
    requires Inv(s.roster) && AreOurs(fp, s, j, p) && NormalSwitch(fp, s, j, p).Switched?
    ensures var t, own := NormalSwitch(fp, s, j, p).s, Key(j.current, j.email);
            Backup(t, own) == j.creds && ConfigBackup(t, own) == j.config
  {
    SwitchFilesTheOutgoing(fp, s, j, p);
    OursIsOwn(fp, s, j, p);
  }

  /** A resolved uuid fills a blank one on the outgoing record of a login found rotated; no other record changes. */
  lemma SwitchBackfills(fp: string -> string, s: State, j: Job, p: Provenance, n: Slot)
    requires NormalSwitch(fp, s, j, p).Switched? && n in s.roster.accounts
    ensures var t, v := NormalSwitch(fp, s, j, p).s, Classify(fp, s, j.current, j.email, j.creds, p);
            && n in t.roster.accounts
            && t.roster.accounts[n] ==
                 if n == j.current && v.OwnRotated? && p.resolved.Some? && s.roster.accounts[n].uuid == ""
                 then s.roster.accounts[n].(uuid := p.resolved.value.uuid) else s.roster.accounts[n]
  {
    var v := Classify(fp, s, j.current, j.email, j.creds, p);
    PreserveKeepsLive(s, j, v);
    ActivatesTheTarget(Preserve(s, j, v).s, j, Filled(s.roster, j, v, p));
  }

  // ---- nothing fails ----------------------------------------------------------------------

  ghost predicate Undisturbed(fates: seq<Fate>) {
    forall i :: 0 <= i < |fates| ==> fates[i].ok && fates[i].cleared
  }

  lemma DrawsGo(s: State)
    requires Undisturbed(s.fates)
    ensures Draw(s).ok && Draw(s).cleared && Undisturbed(Spent(s).fates)
  {
  }

  /** The slot has a credential and a config with an account section to switch to. */
  predicate Activatable(s: State, k: Key) {
    Backup(s, k) != "" && ConfigBackup(s, k).Good? && ConfigBackup(s, k).oauth.Some?
  }

  lemma UndisturbedPreserve(s: State, j: Job, v: Verdict)
    requires Undisturbed(s.fates)
    ensures Preserve(s, j, v).ok && Undisturbed(Preserve(s, j, v).s.fates)
  {
    DrawsGo(s);
    DrawsGo(Spent(s));
  }

  lemma UndisturbedActivate(s: State, j: Job, filled: Roster)
    requires Undisturbed(s.fates) && s.live.config.Good? && Activatable(s, Key(j.target, j.targetEmail))
    ensures Activate(s, j, filled).ok && Undisturbed(Activate(s, j, filled).s.fates)
  {
    var c := Backup(s, Key(j.target, j.targetEmail));
    DrawsGo(s);
    DrawsGo(Spent(s));
    DrawsGo(Spent(Spent(s)));
    WriteKeepsAccount(s.live, c, Draw(s).cleared);
    var a := WriteActive(s, c);
    assert a.ok && a.s.fates == Spent(s).fates && a.s.live.config.Good?;
    var b := WriteConfig(a.s, a.s.live.config.(oauth := ConfigBackup(s, Key(j.target, j.targetEmail)).oauth));
    assert b.ok && b.s.fates == Spent(Spent(s)).fates;
  }

  /** When nothing fails, a switch to a slot that can be activated succeeds. */
  lemma UndisturbedSwitch(fp: string -> string, s: State, j: Job, p: Provenance)
    requires Undisturbed(s.fates) && s.live.config.Good?
    requires j.target != j.current && Activatable(s, Key(j.target, j.targetEmail))
    ensures NormalSwitch(fp, s, j, p).Switched? && Undisturbed(NormalSwitch(fp, s, j, p).s.fates)
  {
    var v := Classify(fp, s, j.current, j.email, j.creds, p);
    UndisturbedPreserve(s, j, v);
    PreserveKeepsLive(s, j, v);
    PreserveFilesOwnKey(s, j, v, Key(j.target, j.targetEmail));
    UndisturbedActivate(Preserve(s, j, v).s, j, Filled(s.roster, j, v, p));
  }

  lemma UndisturbedInstall(s: State, target: Slot, creds: string, config: Config)
    requires Undisturbed(s.fates) && config.Good?
    ensures Install(s, target, creds, config).Switched?
  {
    DrawsGo(s);
    DrawsGo(Spent(s));
    DrawsGo(Spent(Spent(s)));
  }

  /** So does a direct activation. */
  lemma UndisturbedDirectSwitch(s: State, target: Slot, forced: bool)
    requires Undisturbed(s.fates) && target in s.roster.accounts
    ensures DirectSwitch(s, target, forced).Switched? <==> Activatable(s, Key(target, s.roster.accounts[target].email))
  {
    var k := Key(target, s.roster.accounts[target].email);
    DrawsGo(s);
    var d := Displace(s, Backup(s, k), forced);
    assert d.ok && Undisturbed(d.s.fates);
    if ConfigBackup(s, k).Good? { UndisturbedInstall(d.s, target, Backup(s, k), ConfigBackup(s, k)); }
  }

  // ---- there and back ---------------------------------------------------------------------------

  /** The account is the slot's. */
  predicate ShowsSlot(r: Roster, n: Slot, account: Option<Account>) {
    account.Some? && account.value.email != "" && Holds(r, n, account.value.email, account.value.org)
  }

  ghost predicate SameHolders(r: Roster, t: Roster) {
    forall n, email, org :: Holds(t, n, email, org) <==> Holds(r, n, email, org)
  }

  lemma FindsItsSlotAfter(r: Roster, t: Roster, n: Slot, email: string, org: string)
    requires Inv(r) && Holds(r, n, email, org) && SameHolders(r, t)
    ensures FindSlot(t, email, org) == Some(n)
  {
    FindSlotFinds(t, email, org);
    assert Holds(t, n, email, org);
    var m := FindSlot(t, email, org).value;
    assert Holds(r, m, email, org);
    Spans.UniqueHolder(r, m, n, email, org);
  }

  lemma FilledKeepsHolders(r: Roster, j: Job, v: Verdict, p: Provenance)
    ensures SameHolders(r, Filled(r, j, v, p))
  {
  }

  lemma SomethingIsLive(l: Live, c: string)
    requires Trim(c) != ""
    ensures ReadActive(WroteActive(l, c, true)) != ""
  {
    assert Trim("") == "";
  }

  /** A managed login is live in this slot. */
  predicate LiveIn(s: State, n: Slot) {
    ShowsSlot(s.roster, n, OAuthOf(s.live)) && ReadActive(s.live) != ""
  }

  lemma TakesNormalPath(fp: string -> string, s: State, current: Slot, target: Slot, p: Provenance)
    requires LiveIn(s, current) && target in s.roster.accounts
    requires FindSlot(s.roster, OAuthOf(s.live).value.email, OAuthOf(s.live).value.org) == Some(current)
    ensures PerformSwitch(fp, s, target, false, p) == NormalSwitch(fp, s, JobOf(s, target, current), p)
  {
  }

  /** The switch is between managed accounts, and nothing stands in its way. */
  predicate CanSwitch(s: State, current: Slot, target: Slot) {
    && target in s.roster.accounts && target != current && LiveIn(s, current)
    && FindSlot(s.roster, OAuthOf(s.live).value.email, OAuthOf(s.live).value.org) == Some(current)
    && Activatable(s, KeyOf(s.roster, target))
  }

  function VerdictOn(fp: string -> string, s: State, current: Slot, p: Provenance): Verdict
    requires current in s.roster.accounts
  {
    Classify(fp, s, current, s.roster.accounts[current].email, ReadActive(s.live), p)
  }

  lemma SwitchesAway(fp: string -> string, s: State, current: Slot, target: Slot, p: Provenance)
    requires Undisturbed(s.fates) && CanSwitch(s, current, target)
    ensures PerformSwitch(fp, s, target, false, p) == NormalSwitch(fp, s, JobOf(s, target, current), p)
    ensures PerformSwitch(fp, s, target, false, p).Switched?
    ensures Undisturbed(PerformSwitch(fp, s, target, false, p).s.fates)
  {
    TakesNormalPath(fp, s, current, target, p);
    UndisturbedSwitch(fp, s, JobOf(s, target, current), p);
  }

  /** What is filed once the switch is made. */
  lemma SwitchAwayFiles(fp: string -> string, s: State, current: Slot, target: Slot, p: Provenance)
    requires Undisturbed(s.fates) && CanSwitch(s, current, target)
    ensures var t := PerformSwitch(fp, s, target, false, p).s;
            && (forall k :: k != KeyOf(s.roster, current) ==> SameBackups(s, t, k))
            && Filed(s, t, JobOf(s, target, current), VerdictOn(fp, s, current, p))
  {
    var j := JobOf(s, target, current);
    assert j.email == s.roster.accounts[current].email;
    SwitchesAway(fp, s, current, target, p);
    SwitchFilesTheOutgoing(fp, s, j, p);
  }

  /** The slot's account is live and on record as active, with its credential written. */
  ghost predicate Shows(s: State, t: State, n: Slot, k: Key)
    requires ConfigBackup(s, k).Good?
  {
    && SameHolders(s.roster, t.roster) && t.roster.active == Some(n)
    && OAuthOf(t.live) == ConfigBackup(s, k).oauth
    && ReadActive(t.live) == ReadActive(WroteActive(s.live, Backup(s, k), true))
  }

  lemma NormalShows(fp: string -> string, s: State, j: Job, p: Provenance)
    requires NormalSwitch(fp, s, j, p).Switched? && Undisturbed(s.fates) && j.target != j.current
    requires ConfigBackup(s, Key(j.target, j.targetEmail)).Good?
    ensures Shows(s, NormalSwitch(fp, s, j, p).s, j.target, Key(j.target, j.targetEmail))
  {
    var v := Classify(fp, s, j.current, j.email, j.creds, p);
    var u := Preserve(s, j, v).s;
    PreserveKeepsLive(s, j, v);
    PreserveFilesOwnKey(s, j, v, Key(j.target, j.targetEmail));
    UndisturbedPreserve(s, j, v);
    DrawsGo(u);
    FilledKeepsHolders(s.roster, j, v, p);
    SwitchedIsActivated(fp, s, j, p);
    ActivatedShows(u, j, Filled(s.roster, j, v, p));
  }

  /** What is live and on record once the switch is made. */
  lemma SwitchAwayShows(fp: string -> string, s: State, current: Slot, target: Slot, p: Provenance)
    requires Undisturbed(s.fates) && CanSwitch(s, current, target)
    ensures Shows(s, PerformSwitch(fp, s, target, false, p).s, target, KeyOf(s.roster, target))
  {
    SwitchesAway(fp, s, current, target, p);
    NormalShows(fp, s, JobOf(s, target, current), p);
  }

  lemma SwitchedIsActivated(fp: string -> string, s: State, j: Job, p: Provenance)
    requires NormalSwitch(fp, s, j, p).Switched?
    ensures var v := Classify(fp, s, j.current, j.email, j.creds, p);
            var b := Activate(Preserve(s, j, v).s, j, Filled(s.roster, j, v, p));
            b.ok && NormalSwitch(fp, s, j, p).s == b.s
  {
  }

  lemma ActivatedShows(s: State, j: Job, filled: Roster)
    requires Activate(s, j, filled).ok
    ensures var t, k := Activate(s, j, filled).s, Key(j.target, j.targetEmail);
            && t.roster == filled.(active := Some(j.target)) && OAuthOf(t.live) == ConfigBackup(s, k).oauth
            && ReadActive(t.live) == ReadActive(WroteActive(s.live, Backup(s, k), Draw(s).cleared))
  {
    ActivatedLive(s, j, filled);
    var w := WroteActive(s.live, Backup(s, Key(j.target, j.targetEmail)), Draw(s).cleared);
    assert ReadActive(w.(config := w.config.(oauth := ConfigBackup(s, Key(j.target, j.targetEmail)).oauth))) == ReadActive(w);
  }

  /** Written back once the other axis is cleared, the credential is what it was. */
  predicate Restorable(c: string) {
    Trim(c) != "" && (LooksLikeAPIKey(c) ==> Trim(c) == c)
  }

  /**
   When nothing fails, switching away from a live login and back shows its account again, records
   its slot as active, and reads its credential exactly if that is not blank and, for an API key,
   has no surrounding space. The outgoing bytes must not have been proved somebody else's.
   */
  lemma SwitchAndBack(fp: string -> string, s: State, current: Slot, target: Slot, p: Provenance, q: Provenance)
    requires Inv(s.roster) && Undisturbed(s.fates) && target in s.roster.accounts && target != current
    requires LiveIn(s, current) && Activatable(s, KeyOf(s.roster, target))
    requires ShowsSlot(s.roster, target, ConfigBackup(s, KeyOf(s.roster, target)).oauth)
    requires Trim(Backup(s, KeyOf(s.roster, target))) != ""
    requires !NotOurs(VerdictOn(fp, s, current, p))
    ensures var r := PerformSwitch(fp, s, target, false, p);
            var b := PerformSwitch(fp, r.s, current, false, q);
            && r.Switched? && OAuthOf(r.s.live) == ConfigBackup(s, KeyOf(s.roster, target)).oauth
            && b.Switched? && OAuthOf(b.s.live) == OAuthOf(s.live) && b.s.roster.active == Some(current)
            && (ReadActive(b.s.live) == ReadActive(s.live) <==> Restorable(ReadActive(s.live)))
  {
    FindsItsSlot(s.roster, current, OAuthOf(s.live).value.email, OAuthOf(s.live).value.org);
    SwitchesAway(fp, s, current, target, p);
    SwitchAwayShows(fp, s, current, target, p);
    CanSwitchBack(fp, s, current, target, p);
    var t := PerformSwitch(fp, s, target, false, p).s;
    SwitchesAway(fp, t, target, current, q);
    SwitchAwayShows(fp, t, target, current, q);
    WriteReadsBackExactly(t.live, ReadActive(s.live), true);
  }

  lemma CanSwitchBack(fp: string -> string, s: State, current: Slot, target: Slot, p: Provenance)
    requires Inv(s.roster) && Undisturbed(s.fates) && CanSwitch(s, current, target)
    requires ShowsSlot(s.roster, target, ConfigBackup(s, KeyOf(s.roster, target)).oauth)
    requires Trim(Backup(s, KeyOf(s.roster, target))) != "" && !NotOurs(VerdictOn(fp, s, current, p))
    ensures var t := PerformSwitch(fp, s, target, false, p).s;
            && CanSwitch(t, target, current) && Undisturbed(t.fates)
            && KeyOf(t.roster, current) == KeyOf(s.roster, current)
            && Backup(t, KeyOf(s.roster, current)) == ReadActive(s.live)
            && ConfigBackup(t, KeyOf(s.roster, current)) == s.live.config
  {
    var t := PerformSwitch(fp, s, target, false, p).s;
    SwitchesAway(fp, s, current, target, p);
    SwitchAwayFiles(fp, s, current, target, p);
    SwitchAwayShows(fp, s, current, target, p);
    SomethingIsLive(s.live, Backup(s, KeyOf(s.roster, target)));
    LiveThere(s.roster, t, current, target, OAuthOf(s.live).value);
  }

  lemma LiveThere(r: Roster, t: State, current: Slot, target: Slot, here: Account)
    requires Inv(r) && SameHolders(r, t.roster) && ShowsSlot(r, target, OAuthOf(t.live)) && ReadActive(t.live) != ""
    requires Holds(r, current, here.email, here.org)
    ensures LiveIn(t, target) && current in t.roster.accounts && KeyOf(t.roster, current) == KeyOf(r, current)
    ensures FindSlot(t.roster, OAuthOf(t.live).value.email, OAuthOf(t.live).value.org) == Some(target)
  {
    var there := OAuthOf(t.live).value;
    FindsItsSlotAfter(r, t.roster, target, there.email, there.org);
    assert Holds(t.roster, target, there.email, there.org) && Holds(t.roster, current, here.email, here.org);
  }
}
