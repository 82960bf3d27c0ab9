/** The switcher engine as the program runs it: fields updated in place, loops over the accounts. */
module AutoSwitchEngine {
  import opened Basics
  import opened Ranking
  import opened AutoSwitch

  class Engine {
    var current: Option<Slot>
    var accounts: map<Slot, Account>
    var file: StateFile
    var unhealthyTicks: nat
    var idleHoldSince: Option<real>

    ghost function V(): Sys
      reads this
    {
      Sys(current, accounts, file, unhealthyTicks, idleHoldSince)
    }

    constructor (s: Sys)
      ensures V() == s
    {
      current, accounts, file, unhealthyTicks, idleHoldSince := s.current, s.accounts, s.file, s.unhealthy, s.idleSince;
    }

    function Now(): (s: Sys)
      reads this
      ensures s == V()
    {
      Sys(current, accounts, file, unhealthyTicks, idleHoldSince)
    }

    /** Drops the entries whose account or credential was replaced. */
    method ReleaseRecoveredQuarantines(fp: string -> string, i: Inputs) returns (ok: bool)
      modifies this`file
      ensures ok == (Released(fp, old(V())).file == old(file) || i.releases)
      ensures V() == if ok then Released(fp, old(V())) else old(V())
    {
      var released := Released(fp, Now());
      if released.file == file { return true; }
      ok := i.releases;
      if ok { file := released.file; }
    }

    method Quarantine(fp: string -> string, n: Slot, c: Chance) returns (ok: bool)
      modifies this`file
      ensures ok == c.quarantines && V() == if ok then Quarantined(fp, old(V()), n) else old(V())
    {
      ok := c.quarantines;
      if ok {
        file := file.(quarantine := file.quarantine[n := Entry(EmailOf(Now(), n), Print(fp, CredsOf(Now(), n)))]);
      }
    }

    /** Counts unhealthy ticks, or holds while an idle session owns an expired token. */
    method CountUnhealthy(r: Reading, now: real, settings: Settings) returns (go: bool)
      modifies this`unhealthyTicks, this`idleHoldSince
      ensures DecideUnknown(old(V()), r, now, settings) == if go then Go(Failover, V()) else Hold(NoAction, V())
    {
      if r.Expired? {
        if idleHoldSince.None? { idleHoldSince := Some(now); }
        if now - idleHoldSince.value <= IDLE_HOLD_MAX {
          unhealthyTicks := 0;
          return false;
        }
      } else {
        idleHoldSince := None;
      }
      unhealthyTicks := unhealthyTicks + 1;
      go := unhealthyTicks >= settings.unhealthyTicks;
    }

    method ChooseTrigger(cur: Slot, i: Inputs, settings: Settings) returns (d: Option<Trigger>)
      modifies this`unhealthyTicks, this`idleHoldSince
      ensures Decide(old(V()), cur, i, settings) == if d.Some? then Go(d.value, V()) else Hold(NoAction, V())
    {
      if IsApiKey(Now(), cur) && !settings.includeApi { return None; }
      var r := ReadingOf(i, cur);
      if r.Known? {
        unhealthyTicks, idleHoldSince := 0, None;
        if 100.0 - r.h < settings.threshold { return None; }
        if r.h <= 0.0 { return Some(AtLimit); }
        return if InCooldown(file, i.now, settings.cooldown) then None else Some(Proactive);
      }
      var go := CountUnhealthy(r, i.now, settings);
      d := if go then Some(Failover) else None;
    }

    method ListCandidates(cur: Slot, slots: seq<Slot>) returns (candidates: seq<Slot>)
      ensures candidates == Candidates(V(), cur, slots)
    {
      candidates := [];
      for k := 0 to |slots|
        invariant candidates + Candidates(V(), cur, slots[k..]) == Candidates(V(), cur, slots)
      {
        assert slots[k..][1..] == slots[k + 1..];
        if slots[k] != cur && slots[k] !in file.quarantine { candidates := candidates + [slots[k]]; }
      }
    }

    method SplitByKind(slots: seq<Slot>) returns (oauth: seq<Slot>, apiKeys: seq<Slot>)
      ensures oauth == OfKind(V(), slots, false) && apiKeys == OfKind(V(), slots, true)
    {
      oauth, apiKeys := [], [];
      var s := Now();
      for k := 0 to |slots|
        invariant oauth + OfKind(s, slots[k..], false) == OfKind(s, slots, false)
        invariant apiKeys + OfKind(s, slots[k..], true) == OfKind(s, slots, true)
      {
        var rest := slots[k..];
        assert rest[0] == slots[k] && rest[1..] == slots[k + 1..];
        if IsApiKey(s, slots[k]) { apiKeys := apiKeys + [slots[k]]; } else { oauth := oauth + [slots[k]]; }
      }
    }

    /** The qualification gates; the same for every strategy. */
    method Qualify(slots: seq<Slot>, i: Inputs, trigger: Trigger, active: Reading, settings: Settings)
      returns (q: seq<Qual>)
      ensures q == Qualifying(i, slots, trigger, active, settings)
    {
      q := [];
      for k := 0 to |slots|
        invariant q + Qualifying(i, slots[k..], trigger, active, settings) == Qualifying(i, slots, trigger, active, settings)
      {
        assert slots[k..][1..] == slots[k + 1..];
        var r := ReadingOf(i, slots[k]);
        if r.Known? && r.h > 0.0 {
          if !trigger.Proactive? || !active.Known? || (100.0 - r.h < settings.threshold && r.h - active.h >= settings.hysteresis) {
            q := q + [Qual(r.h, r.renewal, slots[k])];
          }
        }
      }
    }

    method SelectCandidates(cur: Slot, i: Inputs, trigger: Trigger, settings: Settings) returns (ordered: seq<Slot>)
      ensures ordered == Ordered(V(), cur, i, trigger, settings)
    {
      var candidates := ListCandidates(cur, i.switchable);
      var oauth, apiKeys := SplitByKind(candidates);
      var qualifying := Qualify(oauth, i, trigger, ReadingOf(i, cur), settings);
      var a := new Qual[|qualifying|](k requires 0 <= k < |qualifying| => qualifying[k]);
      assert a[..] == qualifying;
      SortQualifying(a, Rule(settings.strategy, settings.threshold));
      ordered := Numbers(a[..]);
      if ordered == [] && settings.includeApi { ordered := apiKeys; }
    }

    method FreshenTarget(n: Slot, c: Chance) returns (status: Status)
      modifies this`accounts
      ensures Freshened(status, V()) == Freshen(old(V()), n, c)
    {
      if IsApiKey(Now(), n) { return Ok; }
      if c.liveSession { return Skip; }
      if CredsOf(Now(), n) == "" { return Transient; }
      if !c.parses { return Dead; }
      if !c.nearExpiry { return Ok; }
      match c.refresh {
        case InvalidGrant => status := Dead;
        case Failed => status := Transient;
        case Rotated(creds, owner) =>
          if creds == "" { return Transient; }
          if !c.persists { return PersistFailed; }
          accounts := accounts[n := accounts[n].(creds := creds)];
          status := NoteTokenIdentity(n, owner);
      }
    }

    /** Checks the owner the refresh named; a blank uuid is filled when nothing conflicts. */
    method NoteTokenIdentity(n: Slot, owner: Option<Owner>) returns (status: Status)
      requires n in accounts
      modifies this`accounts
      ensures status == if OwnerConflicts(old(accounts[n]), owner) then Conflict else Ok
      ensures accounts == old(accounts)[n := Noted(old(accounts[n]), owner)]
    {
      status := Ok;
      var a := accounts[n];
      assert accounts == accounts[n := a];
      if owner.None? || Trim(owner.value.uuid) == "" { return; }
      if owner.value.org != "" && a.org != "" && owner.value.org != a.org { return Conflict; }
      if a.uuid == "" {
        accounts := accounts[n := a.(uuid := Trim(owner.value.uuid))];
        return;
      }
      if a.uuid != Trim(owner.value.uuid) { status := Conflict; }
    }

    method PerformSwitch(n: Slot, trigger: Trigger, i: Inputs, settings: Settings)
      returns (outcome: Outcome, moved: Option<(Slot, Trigger)>)
      modifies this`current, this`file
      ensures Ticked(outcome, moved, V()) == Perform(old(V()), n, trigger, i, settings)
    {
      if trigger.Proactive? && InCooldown(file, i.later, settings.cooldown) { return NoAction, None; }
      match i.result {
        case Broken => return Errored, None;
        case AlreadyActive => return NoAction, None;
        case Done(recorded) =>
          current := Some(n);
          moved := Some((n, trigger));
          outcome := if recorded then Switched else Errored;
          if recorded { file := file.(lastSwitchAt := Some(i.later)); }
      }
    }

    method TickInner(fp: string -> string, i: Inputs, settings: Settings)
      returns (outcome: Outcome, moved: Option<(Slot, Trigger)>)
      modifies this
      ensures Ticked(outcome, moved, V()) == Tick(fp, old(V()), i, settings)
    {
      moved := None;
      var released := ReleaseRecoveredQuarantines(fp, i);
      if !released { return Errored, None; }
      if current.None? { return NoAction, None; }
      var trigger := ChooseTrigger(current.value, i, settings);
      if trigger.None? { return NoAction, None; }
      var ordered := SelectCandidates(current.value, i, trigger.value, settings);
      outcome, moved := TryInOrder(fp, ordered, trigger.value, i, settings);
    }

    method TryInOrder(fp: string -> string, ordered: seq<Slot>, trigger: Trigger, i: Inputs, settings: Settings)
      returns (outcome: Outcome, moved: Option<(Slot, Trigger)>)
      modifies this
      ensures Ticked(outcome, moved, V()) == Try(fp, old(V()), ordered, trigger, i, settings, false)
    {
      moved := None;
      var transientFailure := false;
      for k := 0 to |ordered|
        invariant Try(fp, old(V()), ordered, trigger, i, settings, false)
               == Try(fp, V(), ordered[k..], trigger, i, settings, transientFailure)
      {
        assert ordered[k..][1..] == ordered[k + 1..];
        var c := ChanceOf(i, ordered[k]);
        var status := FreshenTarget(ordered[k], c);
        match status {
          case Ok =>
            outcome, moved := PerformSwitch(ordered[k], trigger, i, settings);
            return;
          case PersistFailed => return Errored, None;
          case Transient => transientFailure := true;
          case Skip =>
          case _ =>
            var written := Quarantine(fp, ordered[k], c);
            if !written { return Errored, None; }
        }
      }
      outcome := if transientFailure then Errored else Blocked;
    }
  }
}
