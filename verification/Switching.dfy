/**
 Switching the live login to another account, on a platform without a Keychain.

 Refresh-token fingerprints are an arbitrary function `fp`; the identity that the profile
 endpoint resolved before the lock was taken is an input. Session-mode warnings, printing,
 replanning and the locks themselves are not modelled here.
 */
module Switching {
  import opened Basics
  import opened Rosters
  import opened ActiveStore

  /** `applied`/`junk`: what a failed write left; `cleared`: whether a best-effort clearing worked. */
  datatype Fate = Fate(ok: bool, applied: bool, cleared: bool, junk: Config)

  const SMOOTH := Fate(true, true, true, Missing)

  datatype State = State(live: Live, creds: map<Key, string>, configs: map<Key, Config>,
                         stash: seq<string>, roster: Roster, fates: seq<Fate>)

  datatype Res = Res(ok: bool, s: State)

  function Draw(s: State): Fate {
    if s.fates == [] then SMOOTH else s.fates[0]
  }

  function Spent(s: State): State {
    if s.fates == [] then s else s.(fates := s.fates[1..])
  }

  function Backup(s: State, k: Key): string {
    if k in s.creds then s.creds[k] else ""
  }

  function ConfigBackup(s: State, k: Key): Config {
    if k in s.configs then s.configs[k] else Missing
  }

  // ---- primitive writes -------------------------------------------------------------

  /** An error from the first write of either axis leaves the login as it was. */
  function WriteActive(s: State, c: string): Res {
    var f := Draw(s);
    Res(f.ok, if f.ok then Spent(s).(live := WroteActive(s.live, c, f.cleared)) else Spent(s))
  }

  /** The config file is replaced by a rename. */
  function WriteConfig(s: State, c: Config): Res {
    var f := Draw(s);
    Res(f.ok, if f.ok then Spent(s).(live := s.live.(config := c)) else Spent(s))
  }

  function WriteBackup(s: State, k: Key, c: string): Res {
    var f := Draw(s);
    Res(f.ok, if f.ok || f.applied then Spent(s).(creds := s.creds[k := c]) else Spent(s))
  }

  function WriteConfigBackup(s: State, k: Key, c: Config): Res {
    var f := Draw(s);
    Res(f.ok, if f.ok then Spent(s).(configs := s.configs[k := c])
              else if f.applied then Spent(s).(configs := s.configs[k := f.junk]) else Spent(s))
  }

  /** The entry is written before the manifest, so a failure may still leave the bytes. */
  function Stash(s: State, c: string): Res {
    var f := Draw(s);
    Res(f.ok, if f.ok || f.applied then Spent(s).(stash := s.stash + [c]) else Spent(s))
  }

  function WriteRoster(s: State, r: Roster): Res {
    var f := Draw(s);
    Res(f.ok, if f.ok then Spent(s).(roster := r) else Spent(s))
  }

  // ---- the ownership oracle ---------------------------------------------------------

  datatype Identity = Identity(uuid: string, email: string, org: string)

  /** The live bytes read before the lock, and the owner the profile endpoint named for them. */
  datatype Provenance = Provenance(live: Option<string>, resolved: Option<Identity>)

  datatype Verdict =
    | OwnBytes | OwnFamily | OwnRotated
    | Foreign(slot: Slot) | ForeignSynced(slot: Slot)
    | Alien | Unresolved

  predicate SameLineage(fp: string -> string, a: string, b: string) {
    if a == "" || b == "" then a == b else fp(a) == fp(b)
  }

  /** The record's uuid equals the resolved one, and so does its organization. */
  predicate CarriesUUID(r: Roster, n: Slot, uuid: string, org: string) {
    n in r.accounts && r.accounts[n].uuid != "" && r.accounts[n].uuid == uuid && r.accounts[n].org == org
  }

  function ScanUUID(r: Roster, slots: seq<Slot>, uuid: string, org: string): Option<Slot> {
    if slots == [] then None
    else if CarriesUUID(r, slots[0], uuid, org) then Some(slots[0])
    else ScanUUID(r, slots[1..], uuid, org)
  }

  /** Rotation order, then whatever the sequence does not list. */
  function ScanOrder(r: Roster): seq<Slot> {
    r.sequence + Ascending(r.accounts.Keys - Elements(r.sequence))
  }

  /** The slot the resolved identity belongs to, by email and organization unless the uuid conflicts, then by uuid. */
  function Attribute(r: Roster, id: Identity): Option<Slot> {
    var uuid := Trim(id.uuid);
    var byEmail := if id.email != "" then FindSlot(r, id.email, id.org) else None;
    var agreed :=
      if byEmail.Some? && uuid != "" && byEmail.value in r.accounts
         && Trim(r.accounts[byEmail.value].uuid) != "" && Trim(r.accounts[byEmail.value].uuid) != uuid
      then None else byEmail;
    if agreed.None? && uuid != "" then ScanUUID(r, ScanOrder(r), uuid, id.org) else agreed
  }

  predicate OwnUUID(r: Roster, current: Slot, id: Identity) {
    && current in r.accounts
    && Trim(id.uuid) != "" && Trim(r.accounts[current].uuid) == Trim(id.uuid)
    && (id.org == "" || r.accounts[current].org == "" || id.org == r.accounts[current].org)
  }

  function Classify(fp: string -> string, s: State, current: Slot, email: string, live: string,
                    p: Provenance): Verdict {
    var backup := Backup(s, Key(current, email));
    if backup != "" && backup == live then OwnBytes
    else if backup != "" && SameLineage(fp, backup, live) then OwnFamily
    else if p.resolved.None? || p.live != Some(live) then Unresolved
    else if OwnUUID(s.roster, current, p.resolved.value) then OwnRotated
    else ClassifyOther(fp, s, current, live, p.resolved.value)
  }

  function ClassifyOther(fp: string -> string, s: State, current: Slot, live: string, id: Identity): Verdict {
    ClassifyAttributed(fp, s, current, live, id, Attribute(s.roster, id))
  }

  /** Foreign only with the record's own uuid to say so; an attribution to another slot without it is an alien. */
  function ClassifyAttributed(fp: string -> string, s: State, current: Slot, live: string, id: Identity,
                              owner: Option<Slot>): Verdict {
    match owner
    case None => if id.email != "" && id.org != "" then Alien else Unresolved
    case Some(slot) =>
      if slot == current then OwnRotated
      else if slot !in s.roster.accounts || Trim(id.uuid) == "" || Trim(s.roster.accounts[slot].uuid) != Trim(id.uuid)
      then Alien
      else
        var theirs := Backup(s, Key(slot, s.roster.accounts[slot].email));
        if theirs != "" && (theirs == live || SameLineage(fp, theirs, live)) then ForeignSynced(slot) else Foreign(slot)
  }

  // ---- the switch ---------------------------------------------------------------------

  /** What a switch knows when it starts: the two slots and the outgoing login. */
  datatype Job = Job(target: Slot, targetEmail: string, current: Slot, email: string,
                     creds: string, config: Config)

  function WriteBoth(s: State, j: Job): Res {
    var c := WriteBackup(s, Key(j.current, j.email), j.creds);
    if c.ok then WriteConfigBackup(c.s, Key(j.current, j.email), j.config) else c
  }

  /** Step 1: the outgoing credential goes where the verdict says. */
  function Preserve(s: State, j: Job, v: Verdict): Res {
    match v
    case Foreign(_) => Stash(s, j.creds)
    case Alien => Stash(s, j.creds)
    case ForeignSynced(_) => Res(true, s)
    case OwnBytes => WriteConfigBackup(s, Key(j.current, j.email), j.config)
    case _ => WriteBoth(s, j)
  }

  datatype Mark = CredsWritten | ConfigWritten | SequenceUpdated

  datatype Progress = Progress(ok: bool, marks: seq<Mark>, s: State)

  /** Steps 2 to 5: activate the target's credential, splice its account into the config, record it. */
  function Activate(s: State, j: Job, filled: Roster): Progress {
    var creds := Backup(s, Key(j.target, j.targetEmail));
    var config := ConfigBackup(s, Key(j.target, j.targetEmail));
    if creds == "" || config.Missing? then Progress(false, [], s)
    else
      var a := WriteActive(s, creds);
      if !a.ok then Progress(false, [], a.s)
      else if !config.Good? || config.oauth.None? || !a.s.live.config.Good? then Progress(false, [CredsWritten], a.s)
      else
        var b := WriteConfig(a.s, a.s.live.config.(oauth := config.oauth));
        if !b.ok then Progress(false, [CredsWritten], b.s)
        else
          var c := WriteRoster(b.s, filled.(active := Some(j.target)));
          if c.ok then Progress(true, [CredsWritten, ConfigWritten, SequenceUpdated], c.s)
          else Progress(false, [CredsWritten, ConfigWritten], c.s)
  }

  /** A resolved uuid fills a blank one on the outgoing record, in the roster about to be written. */
  function Filled(r: Roster, j: Job, v: Verdict, p: Provenance): Roster {
    if v.OwnRotated? && p.resolved.Some? && p.resolved.value.uuid != "" && j.current in r.accounts
       && r.accounts[j.current].uuid == ""
    then r.(accounts := r.accounts[j.current := r.accounts[j.current].(uuid := p.resolved.value.uuid)])
    else r
  }

  function Body(fp: string -> string, s: State, j: Job, p: Provenance): Progress {
    var v := Classify(fp, s, j.current, j.email, j.creds, p);
    var step1 := Preserve(s, j, v);
    if !step1.ok then Progress(false, [], step1.s) else Activate(step1.s, j, Filled(s.roster, j, v, p))
  }

  function Undo(s: State, j: Job, m: Mark): Res {
    match m
    case CredsWritten => WriteActive(s, j.creds)
    case ConfigWritten => WriteConfig(s, j.config)
    case SequenceUpdated => WriteRoster(s, s.roster.(active := Some(j.current)))
  }

  /** Undoes the completed steps in reverse order, and goes on past a failure. */
  function Rollback(s: State, j: Job, marks: seq<Mark>): Res
    decreases |marks|
  {
    if marks == [] then Res(true, s)
    else
      var u := Undo(s, j, marks[|marks| - 1]);
      var rest := Rollback(u.s, j, marks[..|marks| - 1]);
      Res(u.ok && rest.ok, rest.s)
  }

  datatype Result =
    | Switched(s: State)
    | Failed(s: State)
    | RolledBack(s: State)
    | RollbackFailed(s: State)

  function NormalSwitch(fp: string -> string, s: State, j: Job, p: Provenance): Result {
    var b := Body(fp, s, j, p);
    if b.ok then Switched(b.s)
    else if b.marks == [] then Failed(b.s)
    else
      var u := Rollback(b.s, j, b.marks);
      if u.ok then RolledBack(u.s) else RollbackFailed(u.s)
  }

  predicate HasIdentity(l: Live) {
    OAuthOf(l).Some? && OAuthOf(l).value.email != ""
  }

  /** Direct activation: no managed login to hand over, or a forced rewrite. */
  function Displace(s: State, targetCreds: string, forced: bool): Res {
    var had := ReadActive(s.live);
    if !HasIdentity(s.live) || had == "" || had == targetCreds then Res(true, s)
    else
      var st := Stash(s, had);
      Res(st.ok || forced, st.s)
  }

  function Spliced(live: Config, target: Config): Config
    requires target.Good?
  {
    if live.Good? && live != BLANK then live.(oauth := target.oauth) else target
  }

  /** Writes the target over the live login; on failure puts back, if there was an identity, what was written. */
  function Install(s: State, target: Slot, creds: string, config: Config): Result
    requires config.Good?
  {
    var a := WriteActive(s, creds);
    if !a.ok then Failed(a.s)
    else
      var b := WriteConfig(a.s, Spliced(a.s.live.config, config));
      var c := if b.ok then WriteRoster(b.s, s.roster.(active := Some(target))) else b;
      if c.ok then Switched(c.s)
      else if !HasIdentity(s.live) then Failed(c.s)
      else PutBack(c.s, s.live, b.ok)
  }

  function PutBack(s: State, was: Live, configWritten: bool): Result {
    var u := if configWritten then WriteConfig(s, was.config) else Res(true, s);
    var v := WriteActive(u.s, ReadActive(was));
    if u.ok && v.ok then RolledBack(v.s) else RollbackFailed(v.s)
  }

  /** The source reports every failure here alike; the two rollback outcomes only differ in its log. */
  function DirectSwitch(s: State, target: Slot, forced: bool): Result
    requires target in s.roster.accounts
  {
    var k := Key(target, s.roster.accounts[target].email);
    var creds, config := Backup(s, k), ConfigBackup(s, k);
    if creds == "" || !config.Good? || config.oauth.None? then Failed(s)
    else
      var d := Displace(s, creds, forced);
      if d.ok then Install(d.s, target, creds, config) else Failed(d.s)
  }

  /** The live login decides the path: normal when it is a managed one, direct otherwise. */
  function PerformSwitch(fp: string -> string, s: State, target: Slot, forced: bool, p: Provenance): Result {
    if target !in s.roster.accounts then Failed(s)
    else
      var current := if HasIdentity(s.live)
                     then FindSlot(s.roster, OAuthOf(s.live).value.email, OAuthOf(s.live).value.org)
                     else s.roster.active;
      if forced || !HasIdentity(s.live) || current.None? then DirectSwitch(s, target, forced)
      else if ReadActive(s.live) == "" then Failed(s)
      else NormalSwitch(fp, s, JobOf(s, target, current.value), p)
  }

  function JobOf(s: State, target: Slot, current: Slot): Job
    requires target in s.roster.accounts && HasIdentity(s.live)
  {
    Job(target, s.roster.accounts[target].email, current, OAuthOf(s.live).value.email,
        ReadActive(s.live), s.live.config)
  }
}
