/**
 The switcher does its work: a tick moves exactly when the readings call for it and somebody can
 take over. Nothing here speaks of the decision, of the order of targets or of the loop over them.
 */
module AutoSwitchProgress {
  import opened Basics
  import opened Ranking
  import opened AutoSwitch
  import opened AutoSwitchTheorems

  // ---- what calls for a switch ---------------------------------------------------------

  /** The engine watches the active account at all. */
  predicate Watched(s: Sys, settings: Settings) {
    s.current.Some? && (IsApiKey(s, s.current.value) ==> settings.includeApi)
  }

  /** The usage is unreadable and the tick counts: the token is not held to be idle, or has been for over half an hour. */
  predicate Unreadable(s: Sys, i: Inputs, cur: Slot) {
    var r := ReadingOf(i, cur);
    r == Unknown || (r.Expired? && s.idleSince.Some? && i.now - s.idleSince.value > IDLE_HOLD_MAX)
  }

  /** The active account is at its limit; or above the threshold, out of cooldown; or unreadable for long enough. */
  predicate Due(s: Sys, i: Inputs, settings: Settings, trigger: Trigger)
    requires s.current.Some?
  {
    var r := ReadingOf(i, s.current.value);
    match trigger
    case AtLimit => r.Known? && r.h <= 0.0 && 100.0 - r.h >= settings.threshold
    case Proactive =>
      && r.Known? && r.h > 0.0 && 100.0 - r.h >= settings.threshold
      && !InCooldown(s.file, i.now, settings.cooldown) && !InCooldown(s.file, i.later, settings.cooldown)
    case Failover => Unreadable(s, i, s.current.value) && s.unhealthy + 1 >= settings.unhealthyTicks
  }

  // ---- who can take over ------------------------------------------------------------------

  /** In quarantine, for the email and the credential that are still stored. */
  predicate Barred(fp: string -> string, s: Sys, n: Slot) {
    && n in s.file.quarantine && EmailOf(s, n) != "" && EmailOf(s, n) == s.file.quarantine[n].email
    && Print(fp, CredsOf(s, n)) == s.file.quarantine[n].fingerprint
  }

  predicate Another(fp: string -> string, s: Sys, i: Inputs, n: Slot) {
    n in i.switchable && s.current != Some(n) && !Barred(fp, s, n)
  }

  /** It has quota left; and for a proactive switch it is below the threshold, and better by the margin. */
  predicate BetterOff(s: Sys, i: Inputs, settings: Settings, trigger: Trigger, n: Slot)
    requires s.current.Some?
  {
    var mine, theirs := ReadingOf(i, s.current.value), ReadingOf(i, n);
    && theirs.Known? && theirs.h > 0.0
    && (trigger.Proactive? && mine.Known? ==>
          100.0 - theirs.h < settings.threshold && theirs.h - mine.h >= settings.hysteresis)
  }

  /** An OAuth account that is better off; or, when there is none, an API-key account, if they are included. */
  ghost predicate Target(fp: string -> string, s: Sys, i: Inputs, settings: Settings, trigger: Trigger, n: Slot)
    requires s.current.Some?
  {
    && Another(fp, s, i, n)
    && if IsApiKey(s, n)
       then settings.includeApi
            && forall m :: Another(fp, s, i, m) && !IsApiKey(s, m) ==> !BetterOff(s, i, settings, trigger, m)
       else BetterOff(s, i, settings, trigger, n)
  }

  /** The token works: it is not near its end, or it was rotated, stored, and not found to be somebody else's. */
  predicate Fresh(s: Sys, i: Inputs, n: Slot) {
    var c := ChanceOf(i, n);
    IsApiKey(s, n)
    || (!c.liveSession && CredsOf(s, n) != "" && c.parses
        && (c.nearExpiry ==>
              && c.refresh.Rotated? && c.refresh.creds != "" && c.persists
              && !OwnerConflicts(s.accounts[n], c.refresh.owner)))
  }

  /** The stored credential is looked at: an OAuth account that has one, and no session of its own. */
  predicate Examined(s: Sys, i: Inputs, n: Slot) {
    !IsApiKey(s, n) && !ChanceOf(i, n).liveSession && CredsOf(s, n) != ""
  }

  /** It does not parse, or its refresh is refused for good, or gives the token of somebody else. */
  predicate Rejected(s: Sys, i: Inputs, n: Slot) {
    var c := ChanceOf(i, n);
    && Examined(s, i, n)
    && if !c.parses then true
       else c.nearExpiry
            && match c.refresh
               case Rotated(creds, owner) => creds != "" && OwnerConflicts(s.accounts[n], owner)
               case InvalidGrant => true
               case Failed => false
  }

  /** Nothing is known against it, but it cannot be used now: nothing is stored, or the refresh failed. */
  predicate Hampered(s: Sys, i: Inputs, n: Slot) {
    var c := ChanceOf(i, n);
    && !IsApiKey(s, n) && !c.liveSession
    && (CredsOf(s, n) == "" || (c.parses && c.nearExpiry && (c.refresh.Failed? || (c.refresh.Rotated? && c.refresh.creds == ""))))
  }

  /** No write is refused, and the switch itself works and is recorded. */
  ghost predicate NothingRefused(i: Inputs) {
    i.releases && i.result == Done(true) && forall n :: ChanceOf(i, n).persists && ChanceOf(i, n).quarantines
  }

  // ---- the pieces ---------------------------------------------------------------------------

  lemma FreshIsReady(s: Sys, i: Inputs, n: Slot)
    ensures Fresh(s, i, n) <==> Ready(s, i, n)
  {
  }

  lemma ReleasedBars(fp: string -> string, s: Sys, n: Slot)
    ensures n in Released(fp, s).file.quarantine <==> Barred(fp, s, n)
    ensures Released(fp, s) == s.(file := Released(fp, s).file)
    ensures Released(fp, s).file.lastSwitchAt == s.file.lastSwitchAt
  {
  }

  lemma DueDecides(s: Sys, i: Inputs, settings: Settings, trigger: Trigger)
    requires Watched(s, settings) && Due(s, i, settings, trigger)
    ensures var d := Decide(s, s.current.value, i, settings);
            && d.Go? && d.trigger == trigger
            && d.sys == s.(unhealthy := d.sys.unhealthy, idleSince := d.sys.idleSince)
  {
  }

  /** A switch is decided only if it is due, but for the cooldown that is looked at again when it is made. */
  lemma DecidesDue(s: Sys, i: Inputs, settings: Settings)
    requires s.current.Some? && Decide(s, s.current.value, i, settings).Go?
    ensures var d := Decide(s, s.current.value, i, settings);
            && Watched(s, settings)
            && (Due(s, i, settings, d.trigger)
                || (d.trigger == Proactive && InCooldown(s.file, i.later, settings.cooldown)))
            && d.sys == s.(unhealthy := d.sys.unhealthy, idleSince := d.sys.idleSince)
  {
  }

  lemma GoIsOutOfCooldown(s: Sys, i: Inputs, settings: Settings)
    requires s.current.Some?
    ensures var d := Decide(s, s.current.value, i, settings);
            d.Go? && d.trigger.Proactive? ==> !InCooldown(s.file, i.now, settings.cooldown)
  {
  }

  lemma OAuthTargets(s: Sys, cur: Slot, i: Inputs, trigger: Trigger, settings: Settings, n: Slot)
    ensures var q := Qualifying(i, OfKind(s, Candidates(s, cur, i.switchable), false), trigger, ReadingOf(i, cur), settings);
            n in Numbers(Arrange(Rule(settings.strategy, settings.threshold), q)) <==>
              && n in i.switchable && n != cur && n !in s.file.quarantine && !IsApiKey(s, n)
              && Qualifies(i, n, trigger, ReadingOf(i, cur), settings)
  {
    var candidates := Candidates(s, cur, i.switchable);
    var slots := OfKind(s, candidates, false);
    var q := Qualifying(i, slots, trigger, ReadingOf(i, cur), settings);
    var ordered := Arrange(Rule(settings.strategy, settings.threshold), q);
    CandidatesAre(s, cur, i.switchable, n);
    OfKindAre(s, candidates, false, n);
    if n in Numbers(ordered) {
      var k :| 0 <= k < |ordered| && ordered[k].num == n;
      ArrangedAre(Rule(settings.strategy, settings.threshold), q, ordered[k]);
      QualifyingAre(i, slots, trigger, ReadingOf(i, cur), settings, ordered[k]);
    }
    if n in slots && Qualifies(i, n, trigger, ReadingOf(i, cur), settings) {
      var x := Qual(ReadingOf(i, n).h, ReadingOf(i, n).renewal, n);
      QualifyingAre(i, slots, trigger, ReadingOf(i, cur), settings, x);
      ArrangedAre(Rule(settings.strategy, settings.threshold), q, x);
      var k :| 0 <= k < |ordered| && ordered[k] == x;
      assert Numbers(ordered)[k] == n;
    }
  }

  lemma KeyTargets(s: Sys, cur: Slot, i: Inputs, n: Slot)
    ensures n in OfKind(s, Candidates(s, cur, i.switchable), true)
       <==> n in i.switchable && n != cur && n !in s.file.quarantine && IsApiKey(s, n)
  {
    CandidatesAre(s, cur, i.switchable, n);
    OfKindAre(s, Candidates(s, cur, i.switchable), true, n);
  }

  /** What freshening finds, when the rotated credential can be stored. */
  lemma StatusIs(s: Sys, i: Inputs, n: Slot)
    requires ChanceOf(i, n).persists
    ensures var status := Freshen(s, n, ChanceOf(i, n)).status;
            && (status == Ok <==> Fresh(s, i, n))
            && (status in {Dead, Conflict} <==> Rejected(s, i, n))
            && (status == Transient <==> Hampered(s, i, n))
            && status != PersistFailed
  {
  }

  /** The state in which the tick chooses, seen from the one it found. */
  ghost predicate Follows(fp: string -> string, s: Sys, t: Sys) {
    && t.accounts == s.accounts && t.current == s.current
    && forall n :: n in t.file.quarantine <==> Barred(fp, s, n)
  }

  lemma AnotherIs(fp: string -> string, s: Sys, t: Sys, i: Inputs, n: Slot)
    requires s.current.Some? && Follows(fp, s, t)
    ensures Another(fp, s, i, n) <==> n in i.switchable && n != s.current.value && n !in t.file.quarantine
    ensures IsApiKey(t, n) == IsApiKey(s, n)
  {
  }

  /** Who is tried: exactly the targets. */
  lemma TriedAreTargets(fp: string -> string, s: Sys, t: Sys, i: Inputs, settings: Settings, trigger: Trigger, n: Slot)
    requires s.current.Some? && Follows(fp, s, t)
    ensures n in Ordered(t, s.current.value, i, trigger, settings) <==> Target(fp, s, i, settings, trigger, n)
  {
    var cur := s.current.value;
    var q := Qualifying(i, OfKind(t, Candidates(t, cur, i.switchable), false), trigger, ReadingOf(i, cur), settings);
    var oauth := Numbers(Arrange(Rule(settings.strategy, settings.threshold), q));
    forall m ensures m in oauth <==> Another(fp, s, i, m) && !IsApiKey(s, m) && BetterOff(s, i, settings, trigger, m) {
      OAuthTargets(t, cur, i, trigger, settings, m);
      AnotherIs(fp, s, t, i, m);
    }
    KeyTargets(t, cur, i, n);
    AnotherIs(fp, s, t, i, n);
    if oauth != [] { assert oauth[0] in oauth; }
  }

  // ---- trying ---------------------------------------------------------------------------------

  predicate Recheck(s: Sys, i: Inputs, settings: Settings, trigger: Trigger) {
    trigger.Proactive? ==> !InCooldown(s.file, i.later, settings.cooldown)
  }

  lemma ReadyElsewhere(s: Sys, t: Sys, i: Inputs, n: Slot)
    requires SameAccount(s, t, n)
    ensures Ready(s, i, n) <==> Ready(t, i, n)
  {
    FreshenDependsOnItsSlot(s, t, n, ChanceOf(i, n));
  }

  lemma NotReadyGoesOn(s: Sys, i: Inputs, n: Slot)
    requires NothingRefused(i) && !Ready(s, i, n)
    ensures GoesOn(Freshen(s, n, ChanceOf(i, n)), ChanceOf(i, n))
  {
  }

  lemma NextKeeps(fp: string -> string, s: Sys, i: Inputs, n: Slot, m: Slot)
    requires m != n
    ensures var t := NextSys(fp, Freshen(s, n, ChanceOf(i, n)), n);
            SameAccount(s, t, m) && t.file.lastSwitchAt == s.file.lastSwitchAt
  {
    FreshenLeavesOthers(s, n, ChanceOf(i, n), m);
    FreshenIsLocal(s, n, ChanceOf(i, n));
  }

  lemma PerformsMove(s: Sys, n: Slot, trigger: Trigger, i: Inputs, settings: Settings)
    requires i.result == Done(true) && Recheck(s, i, settings, trigger)
    ensures var t := Perform(s, n, trigger, i, settings);
            t.outcome == Switched && t.moved == Some((n, trigger)) && t.sys.current == Some(n)
            && t.sys.file.lastSwitchAt == Some(i.later)
  {
  }

  /** With nothing refused, somebody who is ready is reached, unless somebody else is first. */
  lemma {:induction false} TryingMoves(fp: string -> string, s: Sys, ordered: seq<Slot>, trigger: Trigger, i: Inputs,
                                       settings: Settings, failed: bool, n: Slot)
    requires NothingRefused(i) && Recheck(s, i, settings, trigger) && n in ordered && Ready(s, i, n)
    ensures var t := Try(fp, s, ordered, trigger, i, settings, failed);
            && t.outcome == Switched && t.moved.Some? && t.moved.value.0 in ordered && t.moved.value.1 == trigger
            && t.sys.current == Some(t.moved.value.0) && t.sys.file.lastSwitchAt == Some(i.later)
    decreases |ordered|
  {
    var m := ordered[0];
    var f := Freshen(s, m, ChanceOf(i, m));
    FreshenIsLocal(s, m, ChanceOf(i, m));
    TryUnfolds(fp, s, ordered, trigger, i, settings, failed);
    if Ready(s, i, m) {
      PerformsMove(f.sys, m, trigger, i, settings);
    } else {
      NotReadyGoesOn(s, i, m);
      NextKeeps(fp, s, i, m, n);
      ReadyElsewhere(s, NextSys(fp, f, m), i, n);
      TryingMoves(fp, NextSys(fp, f, m), ordered[1..], trigger, i, settings, failed || f.status == Transient, n);
    }
  }

  // ---- the tick ------------------------------------------------------------------------------------

  lemma TickTries(fp: string -> string, s: Sys, i: Inputs, settings: Settings)
    requires i.releases && s.current.Some? && Chosen(fp, s, i, settings).Go?
    ensures var d := Chosen(fp, s, i, settings);
            Tick(fp, s, i, settings) ==
              Try(fp, d.sys, Ordered(d.sys, s.current.value, i, d.trigger, settings), d.trigger, i, settings, false)
  {
  }

  lemma ChosenFollows(fp: string -> string, s: Sys, i: Inputs, settings: Settings)
    requires s.current.Some?
    ensures var t := Chosen(fp, s, i, settings).sys;
            Follows(fp, s, t) && t.file.lastSwitchAt == s.file.lastSwitchAt
  {
    forall n ensures n in Released(fp, s).file.quarantine <==> Barred(fp, s, n) { ReleasedBars(fp, s, n); }
    ReleasedBars(fp, s, s.current.value);
    DecideKeepsFile(Released(fp, s), s.current.value, i, settings);
    DecideKeepsCurrent(Released(fp, s), s.current.value, i, settings);
  }

  lemma DecideKeepsCurrent(s: Sys, cur: Slot, i: Inputs, settings: Settings)
    ensures Decide(s, cur, i, settings).sys.current == s.current
  {
  }

  lemma DueAfterRelease(fp: string -> string, s: Sys, i: Inputs, settings: Settings, trigger: Trigger)
    requires s.current.Some?
    ensures Due(Released(fp, s), i, settings, trigger) <==> Due(s, i, settings, trigger)
    ensures Watched(Released(fp, s), settings) <==> Watched(s, settings)
  {
    ReleasedBars(fp, s, s.current.value);
  }

  /** A switch that is due, with a target whose token works, is made in that very tick, to such a target, and its time recorded. */
  lemma DueSwitchIsMade(fp: string -> string, s: Sys, i: Inputs, settings: Settings, trigger: Trigger, n: Slot)
    requires NothingRefused(i) && Watched(s, settings) && Due(s, i, settings, trigger)
    requires Target(fp, s, i, settings, trigger, n) && Fresh(s, i, n)
    ensures var t := Tick(fp, s, i, settings);
            && t.outcome == Switched && t.moved.Some? && t.moved.value.1 == trigger
            && t.sys.current == Some(t.moved.value.0) && t.sys.file.lastSwitchAt == Some(i.later)
            && Target(fp, s, i, settings, trigger, t.moved.value.0)
  {
    DueAfterRelease(fp, s, i, settings, trigger);
    DueDecides(Released(fp, s), i, settings, trigger);
    TickTries(fp, s, i, settings);
    ChosenFollows(fp, s, i, settings);
    var d := Chosen(fp, s, i, settings);
    TriedAreTargets(fp, s, d.sys, i, settings, trigger, n);
    FreshIsReady(s, i, n);
    ReadyElsewhere(s, d.sys, i, n);
    TryingMoves(fp, d.sys, Ordered(d.sys, s.current.value, i, trigger, settings), trigger, i, settings, false, n);
    TriedAreTargets(fp, s, d.sys, i, settings, trigger, Tick(fp, s, i, settings).moved.value.0);
  }

  /** And only such a switch is made. */
  lemma OnlyDueSwitchIsMade(fp: string -> string, s: Sys, i: Inputs, settings: Settings)
    requires i.releases && NoRepeats(i.switchable) && Tick(fp, s, i, settings).moved.Some?
    ensures var m := Tick(fp, s, i, settings).moved.value;
            Watched(s, settings) && Due(s, i, settings, m.1) && Target(fp, s, i, settings, m.1, m.0) && Fresh(s, i, m.0)
  {
    var k := TickPicksFirstReady(fp, s, i, settings);
    var d := Chosen(fp, s, i, settings);
    var n := Tick(fp, s, i, settings).moved.value.0;
    DecidesDue(Released(fp, s), i, settings);
    DueAfterRelease(fp, s, i, settings, d.trigger);
    ProactiveIsOutOfCooldown(fp, s, i, settings);
    ReleasedBars(fp, s, n);
    ChosenFollows(fp, s, i, settings);
    TriedAreTargets(fp, s, d.sys, i, settings, d.trigger, n);
    ReadyElsewhere(s, d.sys, i, n);
    FreshIsReady(s, i, n);
  }

  /** Somebody can take over for this reason. */
  ghost predicate CanTakeOver(fp: string -> string, s: Sys, i: Inputs, settings: Settings, trigger: Trigger)
    requires s.current.Some?
  {
    exists n :: Target(fp, s, i, settings, trigger, n) && Fresh(s, i, n)
  }

  /**
   When nothing is refused, a tick switches for a reason exactly if that reason is due and a target
   with a working token is there. Which of the targets it is, the ranking says.
   */
  lemma TickMovesExactly(fp: string -> string, s: Sys, i: Inputs, settings: Settings, trigger: Trigger)
    requires NothingRefused(i) && NoRepeats(i.switchable) && Watched(s, settings)
    ensures (Tick(fp, s, i, settings).moved.Some? && Tick(fp, s, i, settings).moved.value.1 == trigger)
       <==> Due(s, i, settings, trigger) && CanTakeOver(fp, s, i, settings, trigger)
  {
    if Tick(fp, s, i, settings).moved.Some? { OnlyDueSwitchIsMade(fp, s, i, settings); }
    if Due(s, i, settings, trigger) && CanTakeOver(fp, s, i, settings, trigger) {
      var n :| Target(fp, s, i, settings, trigger, n) && Fresh(s, i, n);
      DueSwitchIsMade(fp, s, i, settings, trigger, n);
    }
  }

  // ---- failover over a run ----------------------------------------------------------------------------

  /** Beats in a row that could not read the active account; the engine's count carries over, everything else may change. */
  ghost predicate Blind(fp: string -> string, run: seq<Beat>, settings: Settings) {
    && (forall k :: 0 <= k < |run| ==>
          && run[k].input.releases && Watched(run[k].before, settings)
          && Unreadable(run[k].before, run[k].input, run[k].before.current.value))
    && forall k, m :: 0 <= k < |run| && m == k + 1 && m < |run| ==>
         run[m].before.unhealthy == Tick(fp, run[k].before, run[k].input, settings).sys.unhealthy
  }

  lemma BlindTickCounts(fp: string -> string, b: Beat, settings: Settings)
    requires b.input.releases && Watched(b.before, settings)
    requires Unreadable(b.before, b.input, b.before.current.value)
    ensures Tick(fp, b.before, b.input, settings).sys.unhealthy == b.before.unhealthy + 1
  {
    ReleasedBars(fp, b.before, b.before.current.value);
    var d := Chosen(fp, b.before, b.input, settings);
    if d.Go? {
      TickTries(fp, b.before, b.input, settings);
      TryKeepsCount(fp, d.sys, Ordered(d.sys, b.before.current.value, b.input, d.trigger, settings), d.trigger, b.input,
                    settings, false);
    }
  }

  lemma {:induction false} BlindRunCounts(fp: string -> string, run: seq<Beat>, settings: Settings, k: nat)
    requires Blind(fp, run, settings) && k < |run|
    ensures run[k].before.unhealthy >= k
  {
    if k > 0 {
      BlindRunCounts(fp, run, settings, k - 1);
      BlindTickCounts(fp, run[k - 1], settings);
    }
  }

  /** After as many unreadable ticks in a row as the settings ask for, the last of them fails over, if somebody can take over. */
  lemma BlindRunFailsOver(fp: string -> string, run: seq<Beat>, settings: Settings, n: Slot)
    requires Blind(fp, run, settings) && run != [] && |run| >= settings.unhealthyTicks
    requires var b := run[|run| - 1];
             && NothingRefused(b.input)
             && Target(fp, b.before, b.input, settings, Failover, n) && Fresh(b.before, b.input, n)
    ensures var b := run[|run| - 1];
            var t := Tick(fp, b.before, b.input, settings);
            && t.outcome == Switched && t.moved.Some? && t.moved.value.1 == Failover
            && Target(fp, b.before, b.input, settings, Failover, t.moved.value.0)
  {
    BlindRunCounts(fp, run, settings, |run| - 1);
    var b := run[|run| - 1];
    DueSwitchIsMade(fp, b.before, b.input, settings, Failover, n);
  }

  // ---- quarantine does its work ---------------------------------------------------------------------------

  lemma QuarantinedIsLocked(fp: string -> string, s: Sys, i: Inputs, n: Slot)
    requires EmailOf(s, n) != "" && Rejected(s, i, n) && ChanceOf(i, n).persists
    ensures Locked(fp, NextSys(fp, Freshen(s, n, ChanceOf(i, n)), n), n)
  {
    StatusIs(s, i, n);
    FreshenIsLocal(s, n, ChanceOf(i, n));
  }

  /** Every target that is tried and found dead or somebody else's is in quarantine, and stays, when the tick ends. */
  lemma {:induction false} RejectedAreLocked(fp: string -> string, s: Sys, ordered: seq<Slot>, trigger: Trigger,
                                             i: Inputs, settings: Settings, failed: bool, k: nat)
    requires NothingRefused(i) && NoRepeats(ordered) && k < |ordered|
    requires forall j :: 0 <= j <= k ==> !Ready(s, i, ordered[j])
    requires Rejected(s, i, ordered[k]) && EmailOf(s, ordered[k]) != ""
    ensures Locked(fp, Try(fp, s, ordered, trigger, i, settings, failed).sys, ordered[k])
    decreases |ordered|
  {
    var m, rest := ordered[0], ordered[1..];
    var f := Freshen(s, m, ChanceOf(i, m));
    var next := NextSys(fp, f, m);
    var later := failed || f.status == Transient;
    FreshenIsLocal(s, m, ChanceOf(i, m));
    TryUnfolds(fp, s, ordered, trigger, i, settings, failed);
    NotReadyGoesOn(s, i, m);
    if k == 0 {
      QuarantinedIsLocked(fp, s, i, m);
      TryKeepsLocked(fp, next, rest, trigger, i, settings, later, m);
    } else {
      forall j | 0 <= j < |rest| ensures SameAccount(s, next, rest[j]) && rest[j] != m {
        assert rest[j] == ordered[j + 1];
        NextKeeps(fp, s, i, m, rest[j]);
      }
      forall j | 0 <= j <= k - 1 ensures !Ready(next, i, rest[j]) {
        assert rest[j] == ordered[j + 1];
        ReadyElsewhere(s, next, i, rest[j]);
      }
      assert rest[k - 1] == ordered[k];
      FreshenDependsOnItsSlot(s, next, rest[k - 1], ChanceOf(i, rest[k - 1]));
      RejectedAreLocked(fp, next, rest, trigger, i, settings, later, k - 1);
    }
  }

  /** In a tick that is due and finds nobody to take over, every target rejected for its token ends in quarantine. */
  lemma RejectedTargetsAreLocked(fp: string -> string, s: Sys, i: Inputs, settings: Settings, trigger: Trigger, n: Slot)
    requires NothingRefused(i) && NoRepeats(i.switchable) && Watched(s, settings) && Due(s, i, settings, trigger)
    requires !CanTakeOver(fp, s, i, settings, trigger)
    requires Target(fp, s, i, settings, trigger, n) && Rejected(s, i, n) && EmailOf(s, n) != ""
    ensures Locked(fp, Tick(fp, s, i, settings).sys, n)
  {
    DueAfterRelease(fp, s, i, settings, trigger);
    DueDecides(Released(fp, s), i, settings, trigger);
    TickTries(fp, s, i, settings);
    ChosenFollows(fp, s, i, settings);
    var d := Chosen(fp, s, i, settings);
    var ordered := Ordered(d.sys, s.current.value, i, trigger, settings);
    OrderedNoRepeats(d.sys, s.current.value, i, trigger, settings);
    TriedAreTargets(fp, s, d.sys, i, settings, trigger, n);
    var k :| 0 <= k < |ordered| && ordered[k] == n;
    forall j | 0 <= j <= k ensures !Ready(d.sys, i, ordered[j]) {
      TriedAreTargets(fp, s, d.sys, i, settings, trigger, ordered[j]);
      FreshIsReady(s, i, ordered[j]);
      ReadyElsewhere(s, d.sys, i, ordered[j]);
    }
    FreshenDependsOnItsSlot(s, d.sys, n, ChanceOf(i, n));
    RejectedAreLocked(fp, d.sys, ordered, trigger, i, settings, false, k);
  }

  // ---- the outcome when nobody takes over -------------------------------------------------------------------

  lemma {:induction false} TryingFails(fp: string -> string, s: Sys, ordered: seq<Slot>, trigger: Trigger, i: Inputs,
                                       settings: Settings, failed: bool)
    requires NothingRefused(i) && NoRepeats(ordered) && forall n :: n in ordered ==> !Fresh(s, i, n)
    ensures var t := Try(fp, s, ordered, trigger, i, settings, failed);
            && t.moved.None?
            && t.outcome == if failed || exists n :: n in ordered && Hampered(s, i, n) then Errored else Blocked
    decreases |ordered|
  {
    if ordered != [] {
      var m, rest := ordered[0], ordered[1..];
      var f := Freshen(s, m, ChanceOf(i, m));
      var next := NextSys(fp, f, m);
      StatusIs(s, i, m);
      TryUnfolds(fp, s, ordered, trigger, i, settings, failed);
      forall n | n in rest ensures !Fresh(next, i, n) && (Hampered(next, i, n) <==> Hampered(s, i, n)) {
        assert n in ordered && n != m;
        NextKeeps(fp, s, i, m, n);
      }
      assert forall n :: n in ordered <==> n == m || n in rest;
      TryingFails(fp, next, rest, trigger, i, settings, failed || f.status == Transient);
    }
  }

  /** A switch that is due and finds nobody is an error if some target could not be examined now, and otherwise blocked. */
  lemma StuckTick(fp: string -> string, s: Sys, i: Inputs, settings: Settings, trigger: Trigger)
    requires NothingRefused(i) && NoRepeats(i.switchable) && Watched(s, settings) && Due(s, i, settings, trigger)
    requires !CanTakeOver(fp, s, i, settings, trigger)
    ensures var t := Tick(fp, s, i, settings);
            && t.moved.None?
            && t.outcome == if exists n :: Target(fp, s, i, settings, trigger, n) && Hampered(s, i, n)
                            then Errored else Blocked
  {
    DueAfterRelease(fp, s, i, settings, trigger);
    DueDecides(Released(fp, s), i, settings, trigger);
    TickTries(fp, s, i, settings);
    ChosenFollows(fp, s, i, settings);
    var d := Chosen(fp, s, i, settings);
    var ordered := Ordered(d.sys, s.current.value, i, trigger, settings);
    OrderedNoRepeats(d.sys, s.current.value, i, trigger, settings);
    forall n ensures n in ordered <==> Target(fp, s, i, settings, trigger, n) {
      TriedAreTargets(fp, s, d.sys, i, settings, trigger, n);
    }
    TryingFails(fp, d.sys, ordered, trigger, i, settings, false);
  }

  /** While nothing is due a tick does nothing, and says so. */
  lemma QuietTick(fp: string -> string, s: Sys, i: Inputs, settings: Settings)
    requires i.releases && i.now <= i.later
    requires s.current.Some? && Watched(s, settings) ==> forall trigger :: !Due(s, i, settings, trigger)
    ensures Tick(fp, s, i, settings).outcome == NoAction && Tick(fp, s, i, settings).moved.None?
  {
    if s.current.Some? {
      ReleasedBars(fp, s, s.current.value);
      var d := Chosen(fp, s, i, settings);
      if d.Go? {
        DecidesDue(Released(fp, s), i, settings);
        DueAfterRelease(fp, s, i, settings, d.trigger);
        GoIsOutOfCooldown(Released(fp, s), i, settings);
      }
    }
  }
}
