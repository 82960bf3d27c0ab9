/**
 Several switcher engines sharing one state file: every interleaving of their locked
 read-modify-writes, with a clock that never goes back.

 An engine takes the lock to switch or to edit the quarantine, reads the whole file, and writes
 the whole file back. It may die at any point; the operating system then frees its lock. Reads of
 the state file are reliable, and its replacement is atomic.
 */
module SharedState {
  import opened Basics
  import opened AutoSwitch

  /** What an engine took the lock for. */
  datatype Errand =
    | ToSwitch(trigger: Trigger, cooldown: real)
    | ToQuarantine(n: Slot, entry: Entry)
    | ToRelease(slots: set<Slot>)

  datatype Phase =
    | Idle
    | Locked(errand: Errand)
    | HasRead(errand: Errand, copy: StateFile)
    | Switching(errand: Errand, copy: StateFile)

  datatype Event =
    | Began(engine: nat, trigger: Trigger, cooldown: real, at: real)
    | Recorded(engine: nat, at: real)

  datatype Sys = Sys(clock: real, lock: Option<nat>, file: StateFile, engines: map<nat, Phase>, events: seq<Event>)

  // ---- steps ------------------------------------------------------------------------

  ghost predicate Acquire(s: Sys, t: Sys, p: nat, e: Errand) {
    && p in s.engines && s.engines[p].Idle? && s.lock.None?
    && t == s.(lock := Some(p), engines := s.engines[p := Locked(e)])
  }

  ghost predicate ReadFile(s: Sys, t: Sys, p: nat) {
    && p in s.engines && s.engines[p].Locked?
    && t == s.(engines := s.engines[p := HasRead(s.engines[p].errand, s.file)])
  }

  /** The re-check under the lock; the losing engine goes home. */
  ghost predicate Recheck(s: Sys, t: Sys, p: nat) {
    && p in s.engines && s.engines[p].HasRead? && s.engines[p].errand.ToSwitch?
    && var e := s.engines[p].errand;
       if e.trigger.Proactive? && InCooldown(s.engines[p].copy, s.clock, e.cooldown)
       then t == s.(lock := None, engines := s.engines[p := Idle])
       else t == s.(engines := s.engines[p := Switching(e, s.engines[p].copy)],
                    events := s.events + [Began(p, e.trigger, e.cooldown, s.clock)])
  }

  ghost predicate Record(s: Sys, t: Sys, p: nat) {
    && p in s.engines && s.engines[p].Switching?
    && t == s.(file := s.engines[p].copy.(lastSwitchAt := Some(s.clock)), lock := None,
               engines := s.engines[p := Idle], events := s.events + [Recorded(p, s.clock)])
  }

  ghost predicate Edit(s: Sys, t: Sys, p: nat) {
    && p in s.engines && s.engines[p].HasRead? && !s.engines[p].errand.ToSwitch?
    && var e := s.engines[p].errand;
       var q := s.engines[p].copy.quarantine;
       t == s.(file := s.engines[p].copy.(quarantine := if e.ToQuarantine? then q[e.n := e.entry] else q - e.slots),
               lock := None, engines := s.engines[p := Idle])
  }

  /** A switch that failed, a refused write, or a dead process: the lock goes, the file stays. */
  ghost predicate GiveUp(s: Sys, t: Sys, p: nat) {
    && p in s.engines && !s.engines[p].Idle?
    && t == s.(lock := None, engines := s.engines[p := Idle])
  }

  ghost predicate Pass(s: Sys, t: Sys) {
    t.clock >= s.clock && t == s.(clock := t.clock)
  }

  ghost predicate Step(s: Sys, t: Sys, p: nat) {
    || (exists e :: Acquire(s, t, p, e))
    || ReadFile(s, t, p) || Recheck(s, t, p) || Record(s, t, p) || Edit(s, t, p) || GiveUp(s, t, p)
    || Pass(s, t)
  }

  ghost predicate Moves(s: Sys, t: Sys) {
    exists p :: Step(s, t, p)
  }

  ghost predicate Initial(s: Sys) {
    s.lock.None? && s.events == [] && forall p :: p in s.engines ==> s.engines[p].Idle?
  }

  ghost predicate Run(run: seq<Sys>) {
    && run != [] && Initial(run[0])
    && forall i, j :: 0 <= i < |run| && j == i + 1 && j < |run| ==> Moves(run[i], run[j])
  }

  // ---- what holds --------------------------------------------------------------------

  /** The time of the last recorded switch in a history that began with `start`. */
  function LastRecorded(events: seq<Event>, start: Option<real>): Option<real> {
    if events == [] then start
    else if events[|events| - 1].Recorded? then Some(events[|events| - 1].at)
    else LastRecorded(events[..|events| - 1], start)
  }

  /** Each proactive switch began at least its engine's cooldown after the last recorded one. */
  ghost predicate Spaced(events: seq<Event>, start: Option<real>) {
    forall k :: 0 <= k < |events| && events[k].Began? && events[k].trigger.Proactive? ==>
      var last := LastRecorded(events[..k], start);
      last.Some? ==> events[k].at - last.value >= events[k].cooldown
  }

  /** Recorded times never run ahead of the clock. */
  ghost predicate Timely(s: Sys) {
    forall k :: 0 <= k < |s.events| ==> s.events[k].at <= s.clock
  }

  ghost predicate Good(s: Sys, start: Option<real>) {
    && (forall p :: p in s.engines && !s.engines[p].Idle? ==> s.lock == Some(p))
    && (forall p :: p in s.engines && (s.engines[p].HasRead? || s.engines[p].Switching?) ==> s.engines[p].copy == s.file)
    && s.file.lastSwitchAt == LastRecorded(s.events, start)
    && Spaced(s.events, start)
    && Timely(s)
  }

  lemma SpacedAppend(events: seq<Event>, e: Event, start: Option<real>)
    requires Spaced(events, start)
    requires e.Began? && e.trigger.Proactive? && LastRecorded(events, start).Some? ==>
               e.at - LastRecorded(events, start).value >= e.cooldown
    ensures Spaced(events + [e], start)
  {
    var all := events + [e];
    forall k | 0 <= k < |all| && all[k].Began? && all[k].trigger.Proactive?
      ensures LastRecorded(all[..k], start).Some? ==> all[k].at - LastRecorded(all[..k], start).value >= all[k].cooldown
    {
      if k < |events| {
        assert all[..k] == events[..k];
      } else {
        assert all[..k] == events;
      }
    }
  }

  lemma LastRecordedAppend(events: seq<Event>, e: Event, start: Option<real>)
    ensures LastRecorded(events + [e], start) == if e.Recorded? then Some(e.at) else LastRecorded(events, start)
  {
    assert (events + [e])[..|events|] == events;
  }

  lemma RecheckKeepsGood(s: Sys, t: Sys, p: nat, start: Option<real>)
    requires Good(s, start) && Recheck(s, t, p)
    ensures Good(t, start)
  {
    var e := s.engines[p].errand;
    if t.events != s.events {
      var b := Began(p, e.trigger, e.cooldown, s.clock);
      SpacedAppend(s.events, b, start);
      LastRecordedAppend(s.events, b, start);
    }
  }

  lemma RecordKeepsGood(s: Sys, t: Sys, p: nat, start: Option<real>)
    requires Good(s, start) && Record(s, t, p)
    ensures Good(t, start)
  {
    SpacedAppend(s.events, Recorded(p, s.clock), start);
    LastRecordedAppend(s.events, Recorded(p, s.clock), start);
  }

  lemma StepKeepsGood(s: Sys, t: Sys, p: nat, start: Option<real>)
    requires Good(s, start) && Step(s, t, p)
    ensures Good(t, start)
  {
    if Recheck(s, t, p) {
      RecheckKeepsGood(s, t, p, start);
    } else if Record(s, t, p) {
      RecordKeepsGood(s, t, p, start);
    } else if Edit(s, t, p) {
      assert t.file.lastSwitchAt == s.file.lastSwitchAt;
    }
  }

  lemma {:induction false} RunIsGood(run: seq<Sys>, i: nat)
    requires Run(run) && i < |run|
    ensures Good(run[i], run[0].file.lastSwitchAt)
  {
    if i > 0 {
      RunIsGood(run, i - 1);
      assert Moves(run[i - 1], run[i]);
      var p :| Step(run[i - 1], run[i], p);
      StepKeepsGood(run[i - 1], run[i], p, run[0].file.lastSwitchAt);
    }
  }

  /** In every interleaving of the engines, no proactive switch begins inside a cooldown. */
  lemma CooldownIsRespected(run: seq<Sys>, i: nat, k: nat)
    requires Run(run) && i < |run| && k < |run[i].events|
    requires run[i].events[k].Began? && run[i].events[k].trigger.Proactive?
    ensures var last := LastRecorded(run[i].events[..k], run[0].file.lastSwitchAt);
            last.Some? ==> run[i].events[k].at - last.value >= run[i].events[k].cooldown
  {
    RunIsGood(run, i);
  }

  /** No quarantine write, of whatever engine, erases the time of the last recorded switch. */
  lemma RecordedSwitchIsNeverErased(run: seq<Sys>, i: nat)
    requires Run(run) && i < |run|
    ensures run[i].file.lastSwitchAt == LastRecorded(run[i].events, run[0].file.lastSwitchAt)
  {
    RunIsGood(run, i);
  }

  // ---- and the work gets done ------------------------------------------------------------

  /** With the lock free and outside the cooldown, an idle engine can switch and record it. */
  lemma EngineCanSwitch(s: Sys, p: nat, trigger: Trigger, cooldown: real) returns (run: seq<Sys>)
    requires p in s.engines && s.engines[p].Idle? && s.lock.None?
    requires trigger.Proactive? ==> !InCooldown(s.file, s.clock, cooldown)
    ensures |run| == 5 && run[0] == s
    ensures forall i, j :: 0 <= i < |run| && j == i + 1 && j < |run| ==> Moves(run[i], run[j])
    ensures run[4].lock.None? && run[4].file == s.file.(lastSwitchAt := Some(s.clock))
  {
    var e := ToSwitch(trigger, cooldown);
    var locked := s.(lock := Some(p), engines := s.engines[p := Locked(e)]);
    var read := locked.(engines := locked.engines[p := HasRead(e, s.file)]);
    var on := read.(engines := read.engines[p := Switching(e, s.file)], events := s.events + [Began(p, trigger, cooldown, s.clock)]);
    var done := on.(file := s.file.(lastSwitchAt := Some(s.clock)), lock := None, engines := on.engines[p := Idle],
                    events := on.events + [Recorded(p, s.clock)]);
    assert Acquire(s, locked, p, e) && Step(s, locked, p);
    assert ReadFile(locked, read, p) && Step(locked, read, p);
    assert Recheck(read, on, p) && Step(read, on, p);
    assert Record(on, done, p) && Step(on, done, p);
    run := [s, locked, read, on, done];
  }
}
