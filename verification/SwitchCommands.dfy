/** The switch as the program runs it: ordered writes in place, a ledger of completed steps, a reverse rollback. */
module SwitchCommands {
  import opened Basics
  import opened Rosters
  import opened ActiveStore
  import opened Switching

  class Switcher {
    var live: Live
    var creds: map<Key, string>
    var configs: map<Key, Config>
    var stash: seq<string>
    var roster: Roster
    var fates: seq<Fate>
    /** The ledger: steps completed by the switch in progress. */
    var completedSteps: seq<Mark>

    ghost function V(): State
      reads this
    {
      State(live, creds, configs, stash, roster, fates)
    }

    constructor (s: State)
      ensures V() == s && completedSteps == []
    {
      live, creds, configs, stash, roster, fates := s.live, s.creds, s.configs, s.stash, s.roster, s.fates;
      completedSteps := [];
    }

    method NextFate() returns (f: Fate)
      modifies this`fates
      ensures f == Draw(old(V())) && V() == Spent(old(V()))
    {
      f := SMOOTH;
      if fates != [] {
        f := fates[0];
        fates := fates[1..];
      }
    }

    /** The OAuth axis: the credentials file, then the key dropped from the config if it can be. */
    method WriteOAuthCredentials(c: string, cleared: bool)
      modifies this`live
      ensures live == WroteOAuth(old(live), c, cleared)
    {
      live := live.(credFile := Some(c));
      if cleared && live.config.Good? && live.config.apiKey.Some? {
        live := live.(config := live.config.(apiKey := None));
      }
    }

    /** The key axis: the approved form and the key in the config, then the credentials file removed if it can be. */
    method WriteManagedCredentials(key: string, cleared: bool)
      modifies this`live
      ensures live == WroteManaged(old(live), key, cleared)
    {
      var cfg := if live.config.Good? then live.config else BLANK;
      var form := ApprovedForm(key);
      if form !in cfg.approved {
        cfg := cfg.(approved := cfg.approved + [form]);
      }
      live := live.(config := cfg.(apiKey := Some(key)));
      if cleared {
        live := live.(credFile := None);
      }
    }

    method WriteActiveLogin(c: string) returns (ok: bool)
      modifies this`live, this`fates
      ensures Res(ok, V()) == WriteActive(old(V()), c)
    {
      var f := NextFate();
      ok := f.ok;
      if ok {
        if LooksLikeAPIKey(c) {
          WriteManagedCredentials(Trim(c), f.cleared);
        } else {
          WriteOAuthCredentials(c, f.cleared);
        }
      }
    }

    method WriteConfigFile(c: Config) returns (ok: bool)
      modifies this`live, this`fates
      ensures Res(ok, V()) == WriteConfig(old(V()), c)
    {
      var f := NextFate();
      ok := f.ok;
      if ok { live := live.(config := c); }
    }

    method WriteAccountCredentials(k: Key, c: string) returns (ok: bool)
      modifies this`creds, this`fates
      ensures Res(ok, V()) == WriteBackup(old(V()), k, c)
    {
      var f := NextFate();
      ok := f.ok;
      if ok || f.applied { creds := creds[k := c]; }
    }

    method WriteAccountConfig(k: Key, c: Config) returns (ok: bool)
      modifies this`configs, this`fates
      ensures Res(ok, V()) == WriteConfigBackup(old(V()), k, c)
    {
      var f := NextFate();
      ok := f.ok;
      if ok { configs := configs[k := c]; } else if f.applied { configs := configs[k := f.junk]; }
    }

    method StashLiveCredential(c: string) returns (ok: bool)
      modifies this`stash, this`fates
      ensures Res(ok, V()) == Stash(old(V()), c)
    {
      var f := NextFate();
      ok := f.ok;
      if ok || f.applied { stash := stash + [c]; }
    }

    method WriteSequence(r: Roster) returns (ok: bool)
      modifies this`roster, this`fates
      ensures Res(ok, V()) == WriteRoster(old(V()), r)
    {
      var f := NextFate();
      ok := f.ok;
      if ok { roster := r; }
    }

    /** Step 1 of a normal switch. */
    method BackUpOutgoing(j: Job, v: Verdict) returns (ok: bool)
      modifies this`stash, this`creds, this`configs, this`fates
      ensures Res(ok, V()) == Preserve(old(V()), j, v)
    {
      ok := true;
      var k := Key(j.current, j.email);
      match v {
        case Foreign(_) => ok := StashLiveCredential(j.creds);
        case Alien => ok := StashLiveCredential(j.creds);
        case ForeignSynced(_) =>
        case OwnBytes => ok := WriteAccountConfig(k, j.config);
        case _ =>
          ok := WriteAccountCredentials(k, j.creds);
          if ok { ok := WriteAccountConfig(k, j.config); }
      }
    }

    /** Steps 1 to 5; the ledger records each completed step. */
    method NormalSwitchBody(fp: string -> string, j: Job, p: Provenance) returns (ok: bool)
      requires completedSteps == []
      modifies this
      ensures Progress(ok, completedSteps, V()) == Body(fp, old(V()), j, p)
    {
      var v := Classify(fp, State(live, creds, configs, stash, roster, fates), j.current, j.email, j.creds, p);
      var filled := Filled(roster, j, v, p);
      ok := BackUpOutgoing(j, v);
      if ok { ok := ActivateTarget(j, filled); }
    }

    /** Steps 2 to 5. */
    method ActivateTarget(j: Job, filled: Roster) returns (ok: bool)
      requires completedSteps == []
      modifies this
      ensures Progress(ok, completedSteps, V()) == Activate(old(V()), j, filled)
    {
      var k := Key(j.target, j.targetEmail);
      var targetCreds := if k in creds then creds[k] else "";
      var targetConfig := if k in configs then configs[k] else Missing;
      ok := false;
      if targetCreds == "" || targetConfig.Missing? { return; }
      ok := WriteActiveLogin(targetCreds);
      if !ok { return; }
      completedSteps := completedSteps + [CredsWritten];
      if !targetConfig.Good? || targetConfig.oauth.None? || !live.config.Good? { return false; }
      ok := WriteConfigFile(live.config.(oauth := targetConfig.oauth));
      if !ok { return; }
      completedSteps := completedSteps + [ConfigWritten];
      ok := WriteSequence(filled.(active := Some(j.target)));
      if ok { completedSteps := completedSteps + [SequenceUpdated]; }
    }

    method RollbackStep(j: Job, m: Mark) returns (ok: bool)
      modifies this
      ensures Res(ok, V()) == Undo(old(V()), j, m) && completedSteps == old(completedSteps)
    {
      match m {
        case CredsWritten => ok := WriteActiveLogin(j.creds);
        case ConfigWritten => ok := WriteConfigFile(j.config);
        case SequenceUpdated => ok := WriteSequence(roster.(active := Some(j.current)));
      }
    }

    /** Every completed step undone, last first; an error does not stop the rest. */
    method RollbackAll(j: Job) returns (success: bool)
      modifies this
      ensures Res(success, V()) == Rollback(old(V()), j, old(completedSteps))
    {
      success := true;
      var i := |completedSteps|;
      assert completedSteps[..i] == completedSteps;
      while i > 0
        invariant 0 <= i <= |completedSteps| && completedSteps == old(completedSteps)
        invariant Rollback(old(V()), j, completedSteps).ok == (success && Rollback(V(), j, completedSteps[..i]).ok)
        invariant Rollback(old(V()), j, completedSteps).s == Rollback(V(), j, completedSteps[..i]).s
      {
        i := i - 1;
        assert completedSteps[..i + 1][..i] == completedSteps[..i];
        var ok := RollbackStep(j, completedSteps[i]);
        if !ok { success := false; }
      }
    }

    method PerformNormalSwitch(fp: string -> string, j: Job, p: Provenance) returns (switched: bool, rolledBack: bool)
      requires completedSteps == []
      modifies this
      ensures var r := NormalSwitch(fp, old(V()), j, p);
              V() == r.s && switched == r.Switched? && rolledBack == r.RolledBack?
    {
      rolledBack := false;
      switched := NormalSwitchBody(fp, j, p);
      if !switched && completedSteps != [] {
        rolledBack := RollbackAll(j);
      }
    }

    /** `directActivate`: the target over whatever login is live. */
    method DirectActivate(target: Slot, forced: bool) returns (switched: bool, rolledBack: bool)
      requires target in roster.accounts
      modifies this
      ensures var r := DirectSwitch(old(V()), target, forced);
              V() == r.s && switched == r.Switched? && rolledBack == r.RolledBack?
    {
      switched, rolledBack := false, false;
      var k := Key(target, roster.accounts[target].email);
      var targetCreds := if k in creds then creds[k] else "";
      var targetConfig := if k in configs then configs[k] else Missing;
      if targetCreds == "" || !targetConfig.Good? || targetConfig.oauth.None? { return; }
      var outgoing := ReadActive(live);
      if HasIdentity(live) && outgoing != "" && outgoing != targetCreds {
        var stashed := StashLiveCredential(outgoing);
        if !stashed && !forced { return; }
      }
      switched, rolledBack := InstallOver(target, targetCreds, targetConfig);
    }

    /** The target over the live login; if a later write fails, what was written is put back. */
    method InstallOver(target: Slot, targetCreds: string, targetConfig: Config)
      returns (switched: bool, rolledBack: bool)
      requires targetConfig.Good?
      modifies this
      ensures var r := Install(old(V()), target, targetCreds, targetConfig);
              V() == r.s && switched == r.Switched? && rolledBack == r.RolledBack?
    {
      switched, rolledBack := false, false;
      var had := HasIdentity(live);
      var rollbackCreds, rollbackConfig := ReadActive(live), live.config;
      var data := roster;
      var credsWritten := WriteActiveLogin(targetCreds);
      if !credsWritten { return; }
      var configWritten := WriteConfigFile(Spliced(live.config, targetConfig));
      if configWritten { switched := WriteSequence(data.(active := Some(target))); }
      if !switched && had {
        rolledBack := true;
        if configWritten { rolledBack := WriteConfigFile(rollbackConfig); }
        var restored := WriteActiveLogin(rollbackCreds);
        rolledBack := rolledBack && restored;
      }
    }

    /** `performSwitch`, under the locks. */
    method Switch(fp: string -> string, target: Slot, forced: bool, p: Provenance)
      returns (switched: bool, rolledBack: bool)
      requires completedSteps == []
      modifies this
      ensures var r := PerformSwitch(fp, old(V()), target, forced, p);
              V() == r.s && switched == r.Switched? && rolledBack == r.RolledBack?
    {
      switched, rolledBack := false, false;
      if target !in roster.accounts { return; }
      if !HasIdentity(live) {
        switched, rolledBack := DirectActivate(target, forced);
        return;
      }
      var current := FindSlot(roster, live.config.oauth.value.email, live.config.oauth.value.org);
      if forced || current.None? {
        switched, rolledBack := DirectActivate(target, forced);
      } else {
        var had := ReadActive(live);
        if had == "" { return; }
        var j := Job(target, roster.accounts[target].email, current.value, live.config.oauth.value.email, had, live.config);
        switched, rolledBack := PerformNormalSwitch(fp, j, p);
      }
    }
  }
}
