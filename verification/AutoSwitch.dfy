/**
 One tick of the automatic switcher: poll, decide, freshen, switch.

 The usage readings, the clock, the refresh endpoint, and whether a switch or a file write works
 are inputs of the tick. Fingerprints are an arbitrary function `fp`. Only real ticks are
 modelled, not dry runs; events are not modelled, except the outcome and the switch itself.
 */
module AutoSwitch {
  import opened Basics
  import opened Ranking

  datatype Account = Account(email: string, uuid: string, org: string, apiKey: bool, creds: string)

  datatype Entry = Entry(email: string, fingerprint: Option<string>)

  /** The state file that every engine on the machine shares. */
  datatype StateFile = StateFile(quarantine: map<Slot, Entry>, lastSwitchAt: Option<real>)

  datatype Reading = Known(h: real, renewal: Option<real>) | Expired | Unknown

  datatype Settings = Settings(threshold: real, hysteresis: real, cooldown: real,
                               unhealthyTicks: nat, includeApi: bool, strategy: Strategy)

  datatype Owner = Owner(uuid: string, org: string)

  datatype Refresh = Rotated(creds: string, owner: Option<Owner>) | InvalidGrant | Failed

  /** What happens if the tick tries to freshen this slot. */
  datatype Chance = Chance(liveSession: bool, parses: bool, nearExpiry: bool, refresh: Refresh,
                           persists: bool, quarantines: bool)

  const CALM := Chance(false, true, false, Failed, true, true)

  datatype SwitchResult = Done(recorded: bool) | AlreadyActive | Broken

  datatype Inputs = Inputs(now: real, later: real, readings: map<Slot, Reading>, switchable: seq<Slot>,
                           chances: map<Slot, Chance>, releases: bool, result: SwitchResult)

  datatype Sys = Sys(current: Option<Slot>, accounts: map<Slot, Account>, file: StateFile,
                     unhealthy: nat, idleSince: Option<real>)

  datatype Outcome = Switched | NoAction | Blocked | Errored

  datatype Trigger = AtLimit | Proactive | Failover

  /** `moved`: the slot the live login really went to, and why. */
  datatype Ticked = Ticked(outcome: Outcome, moved: Option<(Slot, Trigger)>, sys: Sys)

  /** Thirty minutes of an expired token in an idle session. */
  const IDLE_HOLD_MAX := 1800.0

  function EmailOf(s: Sys, n: Slot): string {
    if n in s.accounts then s.accounts[n].email else ""
  }

  function CredsOf(s: Sys, n: Slot): string {
    if n in s.accounts then s.accounts[n].creds else ""
  }

  predicate IsApiKey(s: Sys, n: Slot) {
    n in s.accounts && s.accounts[n].apiKey
  }

  function Print(fp: string -> string, creds: string): Option<string> {
    if creds == "" then None else Some(fp(creds))
  }

  function ReadingOf(i: Inputs, n: Slot): Reading {
    if n in i.readings then i.readings[n] else Unknown
  }

  function ChanceOf(i: Inputs, n: Slot): Chance {
    if n in i.chances then i.chances[n] else CALM
  }

  // ---- quarantine -------------------------------------------------------------------

  /** The slot still has the email and the credential it was quarantined with. */
  predicate StillSame(fp: string -> string, s: Sys, n: Slot, e: Entry) {
    EmailOf(s, n) != "" && EmailOf(s, n) == e.email && Print(fp, CredsOf(s, n)) == e.fingerprint
  }

  function Released(fp: string -> string, s: Sys): Sys {
    var kept := map n | n in s.file.quarantine && StillSame(fp, s, n, s.file.quarantine[n]) :: s.file.quarantine[n];
    s.(file := s.file.(quarantine := kept))
  }

  function Quarantined(fp: string -> string, s: Sys, n: Slot): Sys {
    s.(file := s.file.(quarantine := s.file.quarantine[n := Entry(EmailOf(s, n), Print(fp, CredsOf(s, n)))]))
  }

  // ---- the decision -----------------------------------------------------------------

  predicate InCooldown(f: StateFile, now: real, cooldown: real) {
    f.lastSwitchAt.Some? && now - f.lastSwitchAt.value < cooldown
  }

  datatype Decision = Hold(outcome: Outcome, sys: Sys) | Go(trigger: Trigger, sys: Sys)

  function DecideUnknown(s: Sys, r: Reading, now: real, settings: Settings): Decision {
    var since := if r.Expired? then Some(if s.idleSince.Some? then s.idleSince.value else now) else None;
    var t := s.(idleSince := since);
    if since.Some? && now - since.value <= IDLE_HOLD_MAX then Hold(NoAction, t.(unhealthy := 0))
    else
      var u := t.(unhealthy := t.unhealthy + 1);
      if u.unhealthy < settings.unhealthyTicks then Hold(NoAction, u) else Go(Failover, u)
  }

  function Decide(s: Sys, cur: Slot, i: Inputs, settings: Settings): Decision {
    if IsApiKey(s, cur) && !settings.includeApi then Hold(NoAction, s)
    else
      match ReadingOf(i, cur)
      case Known(h, _) =>
        var t := s.(unhealthy := 0, idleSince := None);
        if 100.0 - h < settings.threshold then Hold(NoAction, t)
        else if h <= 0.0 then Go(AtLimit, t)
        else if InCooldown(t.file, i.now, settings.cooldown) then Hold(NoAction, t)
        else Go(Proactive, t)
      case r => DecideUnknown(s, r, i.now, settings)
  }

  // ---- candidates ---------------------------------------------------------------------

  function Candidates(s: Sys, cur: Slot, slots: seq<Slot>): seq<Slot> {
    if slots == [] then []
    else
      var rest := Candidates(s, cur, slots[1..]);
      if slots[0] != cur && slots[0] !in s.file.quarantine then [slots[0]] + rest else rest
  }

  function OfKind(s: Sys, slots: seq<Slot>, apiKey: bool): seq<Slot> {
    if slots == [] then []
    else if IsApiKey(s, slots[0]) == apiKey then [slots[0]] + OfKind(s, slots[1..], apiKey)
    else OfKind(s, slots[1..], apiKey)
  }

  /** Not at its limit; and, for a proactive switch, below the threshold and better by the margin. */
  predicate Qualifies(i: Inputs, n: Slot, trigger: Trigger, active: Reading, settings: Settings) {
    var r := ReadingOf(i, n);
    && r.Known? && r.h > 0.0
    && (trigger.Proactive? && active.Known? ==> 100.0 - r.h < settings.threshold && r.h - active.h >= settings.hysteresis)
  }

  function Qualifying(i: Inputs, slots: seq<Slot>, trigger: Trigger, active: Reading, settings: Settings): seq<Qual> {
    if slots == [] then []
    else
      var rest := Qualifying(i, slots[1..], trigger, active, settings);
      if Qualifies(i, slots[0], trigger, active, settings)
      then [Qual(ReadingOf(i, slots[0]).h, ReadingOf(i, slots[0]).renewal, slots[0])] + rest else rest
  }

  function Numbers(q: seq<Qual>): seq<Slot> {
    seq(|q|, k requires 0 <= k < |q| => q[k].num)
  }

  /** The targets in the order they are tried; API-key accounts are the last resort. */
  function Ordered(s: Sys, cur: Slot, i: Inputs, trigger: Trigger, settings: Settings): seq<Slot> {
    var candidates := Candidates(s, cur, i.switchable);
    var q := Qualifying(i, OfKind(s, candidates, false), trigger, ReadingOf(i, cur), settings);
    var ordered := Numbers(Arrange(Rule(settings.strategy, settings.threshold), q));
    if ordered == [] && settings.includeApi then OfKind(s, candidates, true) else ordered
  }

  // ---- freshening -----------------------------------------------------------------------

  datatype Status = Ok | Dead | Conflict | Transient | Skip | PersistFailed

  /** Whether the token's owner is someone else than the slot's record says. */
  predicate OwnerConflicts(a: Account, owner: Option<Owner>) {
    && owner.Some? && Trim(owner.value.uuid) != ""
    && if owner.value.org != "" && a.org != "" && owner.value.org != a.org then true
       else a.uuid != "" && a.uuid != Trim(owner.value.uuid)
  }

  function Noted(a: Account, owner: Option<Owner>): Account {
    if owner.Some? && Trim(owner.value.uuid) != "" && a.uuid == "" && !OwnerConflicts(a, owner)
    then a.(uuid := Trim(owner.value.uuid)) else a
  }

  datatype Freshened = Freshened(status: Status, sys: Sys)

  function Freshen(s: Sys, n: Slot, c: Chance): Freshened {
    if IsApiKey(s, n) then Freshened(Ok, s)
    else if c.liveSession then Freshened(Skip, s)
    else if CredsOf(s, n) == "" then Freshened(Transient, s)
    else if !c.parses then Freshened(Dead, s)
    else if !c.nearExpiry then Freshened(Ok, s)
    else
      match c.refresh
      case Rotated(creds, owner) =>
        if creds == "" then Freshened(Transient, s)
        else if !c.persists then Freshened(PersistFailed, s)
        else
          // The rotated credential is stored before anything is asked of its owner.
          var a := s.accounts[n].(creds := creds);
          Freshened(if OwnerConflicts(a, owner) then Conflict else Ok, s.(accounts := s.accounts[n := Noted(a, owner)]))
      case InvalidGrant => Freshened(Dead, s)
      case Failed => Freshened(Transient, s)
  }

  // ---- the switch ---------------------------------------------------------------------------

  function Perform(s: Sys, n: Slot, trigger: Trigger, i: Inputs, settings: Settings): Ticked {
    if trigger.Proactive? && InCooldown(s.file, i.later, settings.cooldown) then Ticked(NoAction, None, s)
    else
      match i.result
      case Broken => Ticked(Errored, None, s)
      case AlreadyActive => Ticked(NoAction, None, s)
      case Done(recorded) =>
        var t := s.(current := Some(n));
        if recorded then Ticked(Switched, Some((n, trigger)), t.(file := t.file.(lastSwitchAt := Some(i.later))))
        else Ticked(Errored, Some((n, trigger)), t)
  }

  function Try(fp: string -> string, s: Sys, ordered: seq<Slot>, trigger: Trigger, i: Inputs, settings: Settings,
               failed: bool): Ticked
    decreases |ordered|
  {
    if ordered == [] then Ticked(if failed then Errored else Blocked, None, s)
    else
      var n := ordered[0];
      var c := ChanceOf(i, n);
      var f := Freshen(s, n, c);
      match f.status
      case Ok => Perform(f.sys, n, trigger, i, settings)
      case PersistFailed => Ticked(Errored, None, f.sys)
      case Skip => Try(fp, f.sys, ordered[1..], trigger, i, settings, failed)
      case Transient => Try(fp, f.sys, ordered[1..], trigger, i, settings, true)
      case _ =>
        if c.quarantines then Try(fp, Quarantined(fp, f.sys, n), ordered[1..], trigger, i, settings, failed)
        else Ticked(Errored, None, f.sys)
  }

  /** A tick. A refused write to the state file ends it with an error. */
  function Tick(fp: string -> string, s0: Sys, i: Inputs, settings: Settings): Ticked {
    if Released(fp, s0).file != s0.file && !i.releases then Ticked(Errored, None, s0)
    else
      var s := Released(fp, s0);
      if s.current.None? then Ticked(NoAction, None, s)
      else
        match Decide(s, s.current.value, i, settings)
        case Hold(outcome, t) => Ticked(outcome, None, t)
        case Go(trigger, t) => Try(fp, t, Ordered(t, t.current.value, i, trigger, settings), trigger, i, settings, false)
  }
}
