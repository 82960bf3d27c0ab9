/** Ticks over time: no flapping, the best target wins, a quarantined account stays out. */
module AutoSwitchTheorems {
  import opened Basics
  import opened Ranking
  import opened AutoSwitch

  // ---- who is tried -----------------------------------------------------------------

  lemma {:induction false} CandidatesAre(s: Sys, cur: Slot, slots: seq<Slot>, n: Slot)
    ensures n in Candidates(s, cur, slots) <==> n in slots && n != cur && n !in s.file.quarantine
  {
    if slots != [] {
      CandidatesAre(s, cur, slots[1..], n);
      assert n in slots <==> n == slots[0] || n in slots[1..];
    }
  }

  lemma {:induction false} OfKindAre(s: Sys, slots: seq<Slot>, apiKey: bool, n: Slot)
    ensures n in OfKind(s, slots, apiKey) <==> n in slots && IsApiKey(s, n) == apiKey
  {
    if slots != [] {
      OfKindAre(s, slots[1..], apiKey, n);
      assert n in slots <==> n == slots[0] || n in slots[1..];
    }
  }

  lemma {:induction false} QualifyingAre(i: Inputs, slots: seq<Slot>, trigger: Trigger, active: Reading,
                                         settings: Settings, q: Qual)
    ensures q in Qualifying(i, slots, trigger, active, settings)
       <==> q.num in slots && Qualifies(i, q.num, trigger, active, settings)
            && q.h == ReadingOf(i, q.num).h && q.renewal == ReadingOf(i, q.num).renewal
  {
    if slots != [] {
      QualifyingAre(i, slots[1..], trigger, active, settings, q);
      assert q.num in slots <==> q.num == slots[0] || q.num in slots[1..];
    }
  }

  lemma ArrangedAre(rule: Rule, s: seq<Qual>, q: Qual)
    ensures q in Arrange(rule, s) <==> q in s
  {
    ArrangeIsStableSort(rule, s);
    assert q in multiset(s) <==> q in s;
    assert q in multiset(Arrange(rule, s)) <==> q in Arrange(rule, s);
  }

  /** Whoever is tried is switchable, not the active account and not in quarantine; an OAuth account qualifies. */
  lemma OrderedAre(s: Sys, cur: Slot, i: Inputs, trigger: Trigger, settings: Settings, n: Slot)
    requires n in Ordered(s, cur, i, trigger, settings)
    ensures n in i.switchable && n != cur && n !in s.file.quarantine
    ensures IsApiKey(s, n) ==> settings.includeApi
    ensures !IsApiKey(s, n) ==> Qualifies(i, n, trigger, ReadingOf(i, cur), settings)
  {
    var candidates := Candidates(s, cur, i.switchable);
    var slots := OfKind(s, candidates, false);
    var q := Qualifying(i, slots, trigger, ReadingOf(i, cur), settings);
    var rule := Rule(settings.strategy, settings.threshold);
    CandidatesAre(s, cur, i.switchable, n);
    OfKindAre(s, candidates, false, n);
    OfKindAre(s, candidates, true, n);
    if n in Numbers(Arrange(rule, q)) {
      var k :| 0 <= k < |Arrange(rule, q)| && Arrange(rule, q)[k].num == n;
      ArrangedAre(rule, q, Arrange(rule, q)[k]);
      QualifyingAre(i, slots, trigger, ReadingOf(i, cur), settings, Arrange(rule, q)[k]);
    }
  }

  // ---- one candidate at a time ---------------------------------------------------------

  /** The loop goes on to the next candidate, from this state. */
  predicate GoesOn(f: Freshened, c: Chance) {
    f.status == Skip || f.status == Transient || ((f.status == Dead || f.status == Conflict) && c.quarantines)
  }

  function NextSys(fp: string -> string, f: Freshened, n: Slot): Sys {
    if f.status == Dead || f.status == Conflict then Quarantined(fp, f.sys, n) else f.sys
  }

  lemma TryUnfolds(fp: string -> string, s: Sys, ordered: seq<Slot>, trigger: Trigger, i: Inputs,
                   settings: Settings, failed: bool)
    requires ordered != []
    ensures var n := ordered[0];
            var f := Freshen(s, n, ChanceOf(i, n));
            Try(fp, s, ordered, trigger, i, settings, failed) ==
              if GoesOn(f, ChanceOf(i, n))
              then Try(fp, NextSys(fp, f, n), ordered[1..], trigger, i, settings, failed || f.status == Transient)
              else if f.status == Ok then Perform(f.sys, n, trigger, i, settings)
              else Ticked(Errored, None, f.sys)
  {
  }

  // ---- the account switched to ---------------------------------------------------------

  /** Freshening a slot changes that slot's account and nothing else. */
  lemma FreshenIsLocal(s: Sys, n: Slot, c: Chance)
    ensures var t := Freshen(s, n, c).sys;
            && t == s.(accounts := t.accounts)
            && (forall m :: m != n ==>
                  EmailOf(t, m) == EmailOf(s, m) && CredsOf(t, m) == CredsOf(s, m) && IsApiKey(t, m) == IsApiKey(s, m))
            && EmailOf(t, n) == EmailOf(s, n) && IsApiKey(t, n) == IsApiKey(s, n)
            && t.accounts - {n} == s.accounts - {n}
  {
  }

  /** What freshening a slot comes to depends on that slot's account alone. */
  lemma FreshenDependsOnItsSlot(s: Sys, t: Sys, n: Slot, c: Chance)
    requires (n in s.accounts <==> n in t.accounts) && (n in s.accounts ==> s.accounts[n] == t.accounts[n])
    ensures Freshen(s, n, c).status == Freshen(t, n, c).status
  {
  }

  predicate Ready(s: Sys, i: Inputs, n: Slot) {
    Freshen(s, n, ChanceOf(i, n)).status == Ok
  }

  predicate SameAccount(s: Sys, t: Sys, n: Slot) {
    (n in s.accounts <==> n in t.accounts) && (n in s.accounts ==> s.accounts[n] == t.accounts[n])
  }

  lemma FreshenLeavesOthers(s: Sys, n: Slot, c: Chance, m: Slot)
    requires m != n
    ensures SameAccount(s, Freshen(s, n, c).sys, m)
  {
  }

  lemma {:induction false} FirstReadyWins(fp: string -> string, s: Sys, ordered: seq<Slot>, trigger: Trigger,
                                          i: Inputs, settings: Settings, failed: bool) returns (k: nat)
    requires NoRepeats(ordered) && Try(fp, s, ordered, trigger, i, settings, failed).moved.Some?
    ensures k < |ordered| && Try(fp, s, ordered, trigger, i, settings, failed).moved.value == (ordered[k], trigger)
    ensures Ready(s, i, ordered[k]) && forall j :: 0 <= j < k ==> !Ready(s, i, ordered[j])
    decreases |ordered|
  {
    var n := ordered[0];
    var f := Freshen(s, n, ChanceOf(i, n));
    TryUnfolds(fp, s, ordered, trigger, i, settings, failed);
    if f.status == Ok {
      k := 0;
    } else {
      var next := NextSys(fp, f, n);
      var rest := ordered[1..];
      var k1 := FirstReadyWins(fp, next, rest, trigger, i, settings, failed || f.status == Transient);
      k := k1 + 1;
      forall j | 0 <= j < |rest| ensures Ready(next, i, rest[j]) == Ready(s, i, rest[j]) {
        assert rest[j] == ordered[j + 1] != n;
        FreshenLeavesOthers(s, n, ChanceOf(i, n), rest[j]);
        FreshenDependsOnItsSlot(s, next, rest[j], ChanceOf(i, rest[j]));
      }
      forall j | 0 <= j < k ensures !Ready(s, i, ordered[j]) {
        if j > 0 { assert ordered[j] == rest[j - 1]; }
      }
    }
  }

  lemma {:induction false} CandidatesNoRepeats(s: Sys, cur: Slot, slots: seq<Slot>)
    requires NoRepeats(slots)
    ensures NoRepeats(Candidates(s, cur, slots))
  {
    if slots != [] {
      CandidatesNoRepeats(s, cur, slots[1..]);
      CandidatesAre(s, cur, slots[1..], slots[0]);
    }
  }

  lemma {:induction false} OfKindNoRepeats(s: Sys, slots: seq<Slot>, apiKey: bool)
    requires NoRepeats(slots)
    ensures NoRepeats(OfKind(s, slots, apiKey))
  {
    if slots != [] {
      OfKindNoRepeats(s, slots[1..], apiKey);
      OfKindAre(s, slots[1..], apiKey, slots[0]);
    }
  }

  ghost predicate DistinctSlots(q: seq<Qual>) {
    forall a, b :: 0 <= a < b < |q| ==> q[a].num != q[b].num
  }

  lemma {:induction false} QualifyingDistinct(i: Inputs, slots: seq<Slot>, trigger: Trigger, active: Reading,
                                              settings: Settings)
    requires NoRepeats(slots)
    ensures DistinctSlots(Qualifying(i, slots, trigger, active, settings))
  {
    if slots != [] {
      var rest := Qualifying(i, slots[1..], trigger, active, settings);
      QualifyingDistinct(i, slots[1..], trigger, active, settings);
      forall q | q in rest ensures q.num != slots[0] {
        QualifyingAre(i, slots[1..], trigger, active, settings, q);
      }
    }
  }

  lemma {:induction false} InsertDistinct(rule: Rule, x: Qual, s: seq<Qual>)
    requires DistinctSlots(s) && forall y :: y in s ==> y.num != x.num
    ensures DistinctSlots(Insert(rule, x, s))
  {
    if s != [] && Before(rule, s[0], x) {
      InsertDistinct(rule, x, s[1..]);
      var r := Insert(rule, x, s[1..]);
      InsertIsPermutation(rule, x, s[1..]);
      forall y | y in r ensures y.num != s[0].num {
        assert y in multiset(r);
        assert y == x || y in s[1..];
      }
    }
  }

  lemma {:induction false} ArrangeDistinct(rule: Rule, s: seq<Qual>)
    requires DistinctSlots(s)
    ensures DistinctSlots(Arrange(rule, s))
  {
    if s != [] {
      ArrangeDistinct(rule, s[1..]);
      forall y | y in Arrange(rule, s[1..]) ensures y.num != s[0].num {
        ArrangedAre(rule, s[1..], y);
      }
      InsertDistinct(rule, s[0], Arrange(rule, s[1..]));
    }
  }

  lemma OrderedNoRepeats(s: Sys, cur: Slot, i: Inputs, trigger: Trigger, settings: Settings)
    requires NoRepeats(i.switchable)
    ensures NoRepeats(Ordered(s, cur, i, trigger, settings))
  {
    var candidates := Candidates(s, cur, i.switchable);
    CandidatesNoRepeats(s, cur, i.switchable);
    OfKindNoRepeats(s, candidates, false);
    OfKindNoRepeats(s, candidates, true);
    QualifyingDistinct(i, OfKind(s, candidates, false), trigger, ReadingOf(i, cur), settings);
    var qualifying := Qualifying(i, OfKind(s, candidates, false), trigger, ReadingOf(i, cur), settings);
    ArrangeDistinct(Rule(settings.strategy, settings.threshold), qualifying);
  }

  /** The state in which a tick chooses, when it gets that far. */
  function Chosen(fp: string -> string, s0: Sys, i: Inputs, settings: Settings): Decision
    requires s0.current.Some?
  {
    Decide(Released(fp, s0), s0.current.value, i, settings)
  }

  /**
   The account a tick switches to is the first, in the order of the strategy, that freshens to a
   usable credential; every one before it was tried and failed.
   */
  lemma TickPicksFirstReady(fp: string -> string, s0: Sys, i: Inputs, settings: Settings) returns (k: nat)
    requires NoRepeats(i.switchable) && Tick(fp, s0, i, settings).moved.Some?
    ensures s0.current.Some? && Chosen(fp, s0, i, settings).Go?
    ensures var d := Chosen(fp, s0, i, settings);
            var ordered := Ordered(d.sys, s0.current.value, i, d.trigger, settings);
            && k < |ordered| && Tick(fp, s0, i, settings).moved.value == (ordered[k], d.trigger)
            && Ready(d.sys, i, ordered[k]) && forall j :: 0 <= j < k ==> !Ready(d.sys, i, ordered[j])
  {
    var d := Chosen(fp, s0, i, settings);
    OrderedNoRepeats(d.sys, s0.current.value, i, d.trigger, settings);
    k := FirstReadyWins(fp, d.sys, Ordered(d.sys, s0.current.value, i, d.trigger, settings), d.trigger, i, settings, false);
  }

  // ---- no flapping -------------------------------------------------------------------------

  /** How badly off the active account is: fine, above the threshold, or at its limit or unreadable. */
  function Rank(readings: map<Slot, Reading>, cur: Slot, settings: Settings): nat {
    if cur !in readings || !readings[cur].Known? then 2
    else if 100.0 - readings[cur].h < settings.threshold then 0
    else if readings[cur].h > 0.0 then 1
    else 2
  }

  lemma {:induction false} TryMovesWithin(fp: string -> string, s: Sys, ordered: seq<Slot>, trigger: Trigger,
                                          i: Inputs, settings: Settings, failed: bool)
    ensures var t := Try(fp, s, ordered, trigger, i, settings, failed);
            if t.moved.Some? then t.moved.value.0 in ordered && t.moved.value.1 == trigger && t.sys.current == Some(t.moved.value.0)
            else t.sys.current == s.current
    decreases |ordered|
  {
    if ordered != [] {
      var n := ordered[0];
      var f := Freshen(s, n, ChanceOf(i, n));
      FreshenIsLocal(s, n, ChanceOf(i, n));
      TryUnfolds(fp, s, ordered, trigger, i, settings, failed);
      if GoesOn(f, ChanceOf(i, n)) {
        TryMovesWithin(fp, NextSys(fp, f, n), ordered[1..], trigger, i, settings, failed || f.status == Transient);
      }
    }
  }

  /** Every real switch goes to a strictly better-off account; from rank one it is a proactive one. */
  lemma MoveLowersRank(fp: string -> string, s: Sys, i: Inputs, settings: Settings)
    requires !settings.includeApi
    ensures var t := Tick(fp, s, i, settings);
            if t.moved.None? then t.sys.current == s.current
            else
              && s.current.Some? && t.sys.current == Some(t.moved.value.0)
              && Rank(i.readings, t.moved.value.0, settings) < Rank(i.readings, s.current.value, settings)
              && (t.moved.value.1 == Proactive <==> Rank(i.readings, s.current.value, settings) == 1)
  {
    if s.current.Some? {
      var d := Chosen(fp, s, i, settings);
      if d.Go? {
        var ordered := Ordered(d.sys, s.current.value, i, d.trigger, settings);
        TryMovesWithin(fp, d.sys, ordered, d.trigger, i, settings, false);
        var t := Try(fp, d.sys, ordered, d.trigger, i, settings, false);
        if t.moved.Some? {
          OrderedAre(d.sys, s.current.value, i, d.trigger, settings, t.moved.value.0);
        }
      }
    }
  }

  /** A tick and the state it found. */
  datatype Beat = Beat(before: Sys, input: Inputs)

  /**
   Beats of one engine while readings stay the same and nobody else moves the live login. Tokens,
   files, quarantines, the clock and every outcome are free to change from beat to beat.
   */
  ghost predicate Steady(fp: string -> string, run: seq<Beat>, readings: map<Slot, Reading>, settings: Settings) {
    && (forall k :: 0 <= k < |run| ==> run[k].input.readings == readings)
    && forall k, m :: 0 <= k < |run| && m == k + 1 && m < |run| ==>
         run[m].before.current == Tick(fp, run[k].before, run[k].input, settings).sys.current
  }

  /** The triggers of the real switches of a run, in order. */
  function Moves(fp: string -> string, run: seq<Beat>, settings: Settings): seq<Trigger> {
    if run == [] then []
    else
      var t := Tick(fp, run[0].before, run[0].input, settings);
      (if t.moved.Some? then [t.moved.value.1] else []) + Moves(fp, run[1..], settings)
  }

  function RankOf(readings: map<Slot, Reading>, cur: Option<Slot>, settings: Settings): nat {
    if cur.None? then 0 else Rank(readings, cur.value, settings)
  }

  lemma {:induction false} MovesAreBounded(fp: string -> string, run: seq<Beat>, readings: map<Slot, Reading>,
                                           settings: Settings)
    requires !settings.includeApi && Steady(fp, run, readings, settings)
    ensures run != [] ==> |Moves(fp, run, settings)| <= RankOf(readings, run[0].before.current, settings)
    ensures run != [] && RankOf(readings, run[0].before.current, settings) <= 1 ==>
              forall k :: 0 <= k < |Moves(fp, run, settings)| ==> Moves(fp, run, settings)[k] == Proactive
    ensures forall k :: 1 <= k < |Moves(fp, run, settings)| ==> Moves(fp, run, settings)[k] == Proactive
    decreases |run|
  {
    if run != [] {
      MoveLowersRank(fp, run[0].before, run[0].input, settings);
      var rest := run[1..];
      forall k, m | 0 <= k < |rest| && m == k + 1 && m < |rest|
        ensures rest[m].before.current == Tick(fp, rest[k].before, rest[k].input, settings).sys.current
      {
        assert rest[k] == run[k + 1] && rest[m] == run[m + 1];
      }
      MovesAreBounded(fp, rest, readings, settings);
      if rest != [] { assert rest[0] == run[1]; }
    }
  }

  /** With the readings fixed, however long the engine runs, it switches at most twice, the second time proactively. */
  lemma NoFlapping(fp: string -> string, run: seq<Beat>, readings: map<Slot, Reading>, settings: Settings)
    requires !settings.includeApi && Steady(fp, run, readings, settings)
    ensures |Moves(fp, run, settings)| <= 2
    ensures |Moves(fp, run, settings)| == 2 ==> Moves(fp, run, settings)[1] == Proactive && Moves(fp, run, settings)[0] != Proactive
  {
    MovesAreBounded(fp, run, readings, settings);
    FirstOfTwo(fp, run, readings, settings);
  }

  lemma {:induction false} FirstOfTwo(fp: string -> string, run: seq<Beat>, readings: map<Slot, Reading>,
                                      settings: Settings)
    requires !settings.includeApi && Steady(fp, run, readings, settings)
    ensures |Moves(fp, run, settings)| >= 2 ==> Moves(fp, run, settings)[0] != Proactive
    decreases |run|
  {
    if run != [] {
      MoveLowersRank(fp, run[0].before, run[0].input, settings);
      var rest := run[1..];
      forall k, m | 0 <= k < |rest| && m == k + 1 && m < |rest|
        ensures rest[m].before.current == Tick(fp, rest[k].before, rest[k].input, settings).sys.current
      {
        assert rest[k] == run[k + 1] && rest[m] == run[m + 1];
      }
      MovesAreBounded(fp, rest, readings, settings);
      FirstOfTwo(fp, rest, readings, settings);
      if rest != [] { assert rest[0] == run[1]; }
    }
  }

  // ---- quarantine -----------------------------------------------------------------------------

  /** In quarantine, with the email and credential it was put there for. */
  predicate Locked(fp: string -> string, s: Sys, n: Slot) {
    n in s.file.quarantine && StillSame(fp, s, n, s.file.quarantine[n])
  }

  lemma {:induction false} TryKeepsLocked(fp: string -> string, s: Sys, ordered: seq<Slot>, trigger: Trigger,
                                          i: Inputs, settings: Settings, failed: bool, n: Slot)
    requires Locked(fp, s, n) && n !in ordered
    ensures Locked(fp, Try(fp, s, ordered, trigger, i, settings, failed).sys, n)
    decreases |ordered|
  {
    if ordered != [] {
      var m := ordered[0];
      var f := Freshen(s, m, ChanceOf(i, m));
      FreshenIsLocal(s, m, ChanceOf(i, m));
      assert Locked(fp, f.sys, n);
      TryUnfolds(fp, s, ordered, trigger, i, settings, failed);
      if GoesOn(f, ChanceOf(i, m)) {
        TryKeepsLocked(fp, NextSys(fp, f, m), ordered[1..], trigger, i, settings, failed || f.status == Transient, n);
      }
    }
  }

  lemma ReleasedKeepsLocked(fp: string -> string, s: Sys, n: Slot)
    requires Locked(fp, s, n)
    ensures Locked(fp, Released(fp, s), n)
  {
  }

  lemma DecideKeepsFile(s: Sys, cur: Slot, i: Inputs, settings: Settings)
    ensures Decide(s, cur, i, settings).sys.file == s.file && Decide(s, cur, i, settings).sys.accounts == s.accounts
  {
  }

  lemma RoundKeepsLocked(fp: string -> string, s: Sys, cur: Slot, i: Inputs, trigger: Trigger, settings: Settings,
                         n: Slot)
    requires Locked(fp, s, n)
    ensures var t := Try(fp, s, Ordered(s, cur, i, trigger, settings), trigger, i, settings, false);
            Locked(fp, t.sys, n) && (t.moved.Some? ==> t.moved.value.0 != n)
  {
    var ordered := Ordered(s, cur, i, trigger, settings);
    if n in ordered { OrderedAre(s, cur, i, trigger, settings, n); }
    TryKeepsLocked(fp, s, ordered, trigger, i, settings, false, n);
    TryMovesWithin(fp, s, ordered, trigger, i, settings, false);
  }

  lemma TickKeepsLocked(fp: string -> string, s0: Sys, i: Inputs, settings: Settings, n: Slot)
    requires Locked(fp, s0, n)
    ensures Locked(fp, Tick(fp, s0, i, settings).sys, n)
    ensures Tick(fp, s0, i, settings).moved.Some? ==> Tick(fp, s0, i, settings).moved.value.0 != n
  {
    ReleasedKeepsLocked(fp, s0, n);
    if s0.current.Some? {
      var d := Chosen(fp, s0, i, settings);
      DecideKeepsFile(Released(fp, s0), s0.current.value, i, settings);
      if d.Go? { RoundKeepsLocked(fp, d.sys, s0.current.value, i, d.trigger, settings, n); }
    }
  }

  /**
   Beats between which anything may change except what the quarantine is about: the slot's email,
   the lineage of its stored credential, and its entry in the state file.
   */
  ghost predicate Undisturbed(fp: string -> string, run: seq<Beat>, settings: Settings, n: Slot) {
    forall k, m :: 0 <= k < |run| && m == k + 1 && m < |run| ==>
      var t := Tick(fp, run[k].before, run[k].input, settings).sys;
      && EmailOf(run[m].before, n) == EmailOf(t, n)
      && Print(fp, CredsOf(run[m].before, n)) == Print(fp, CredsOf(t, n))
      && (n in t.file.quarantine ==> n in run[m].before.file.quarantine && run[m].before.file.quarantine[n] == t.file.quarantine[n])
  }

  /** A quarantined account is never switched to until its email or its stored credential changes. */
  lemma {:induction false} QuarantineHolds(fp: string -> string, run: seq<Beat>, settings: Settings, n: Slot, k: nat)
    requires Undisturbed(fp, run, settings, n) && k < |run| && Locked(fp, run[0].before, n)
    ensures Locked(fp, run[k].before, n)
    ensures var t := Tick(fp, run[k].before, run[k].input, settings); t.moved.Some? ==> t.moved.value.0 != n
  {
    if k > 0 {
      QuarantineHolds(fp, run, settings, n, k - 1);
      TickKeepsLocked(fp, run[k - 1].before, run[k - 1].input, settings, n);
    }
    TickKeepsLocked(fp, run[k].before, run[k].input, settings, n);
  }

  lemma {:induction false} TryLocksWhatItQuarantines(fp: string -> string, s: Sys, ordered: seq<Slot>,
                                                     trigger: Trigger, i: Inputs, settings: Settings, failed: bool,
                                                     n: Slot)
    requires NoRepeats(ordered) && n !in s.file.quarantine && EmailOf(s, n) != ""
    ensures n in Try(fp, s, ordered, trigger, i, settings, failed).sys.file.quarantine ==>
              Locked(fp, Try(fp, s, ordered, trigger, i, settings, failed).sys, n)
    decreases |ordered|
  {
    if ordered != [] {
      var m := ordered[0];
      var rest := ordered[1..];
      var f := Freshen(s, m, ChanceOf(i, m));
      FreshenIsLocal(s, m, ChanceOf(i, m));
      TryUnfolds(fp, s, ordered, trigger, i, settings, failed);
      if GoesOn(f, ChanceOf(i, m)) {
        var next := NextSys(fp, f, m);
        var later := failed || f.status == Transient;
        if n in next.file.quarantine {
          assert m == n && n !in rest;
          TryKeepsLocked(fp, next, rest, trigger, i, settings, later, n);
        } else {
          TryLocksWhatItQuarantines(fp, next, rest, trigger, i, settings, later, n);
        }
      }
    }
  }

  /**
   A quarantine written by a tick matches what is stored when the tick ends, also when the token
   was rotated first and then found to be somebody else's, and also when the same tick had released
   a stale entry of the slot. So the next tick does not release it.
   */
  lemma QuarantineStartsLocked(fp: string -> string, s0: Sys, i: Inputs, settings: Settings, n: Slot)
    requires NoRepeats(i.switchable) && n !in Released(fp, s0).file.quarantine && EmailOf(s0, n) != ""
    requires Released(fp, s0).file == s0.file || i.releases
    requires n in Tick(fp, s0, i, settings).sys.file.quarantine
    ensures Locked(fp, Tick(fp, s0, i, settings).sys, n)
  {
    if s0.current.Some? {
      var d := Chosen(fp, s0, i, settings);
      if d.Go? {
        OrderedNoRepeats(d.sys, s0.current.value, i, d.trigger, settings);
        var ordered := Ordered(d.sys, s0.current.value, i, d.trigger, settings);
        TryLocksWhatItQuarantines(fp, d.sys, ordered, d.trigger, i, settings, false, n);
      }
    }
  }

  // ---- patience --------------------------------------------------------------------------------

  /** The tick gets as far as reading the active account. */
  predicate Watches(fp: string -> string, b: Beat, settings: Settings) {
    && (Released(fp, b.before).file == b.before.file || b.input.releases)
    && b.before.current.Some?
    && (!IsApiKey(b.before, b.before.current.value) || settings.includeApi)
  }

  /** How many ticks in a row, up to the last, found the active account's usage unreadable. */
  function Streak(fp: string -> string, run: seq<Beat>, settings: Settings): nat {
    if run == [] then 0
    else
      var b, before := run[|run| - 1], Streak(fp, run[..|run| - 1], settings);
      if !Watches(fp, b, settings) then before
      else if ReadingOf(b.input, b.before.current.value).Known? then 0
      else before + 1
  }

  /** The engine's own counter carries over from tick to tick; everything else may change. */
  ghost predicate Counts(fp: string -> string, run: seq<Beat>, settings: Settings) {
    && (run != [] ==> run[0].before.unhealthy == 0)
    && forall k, m :: 0 <= k < |run| && m == k + 1 && m < |run| ==>
         run[m].before.unhealthy == Tick(fp, run[k].before, run[k].input, settings).sys.unhealthy
  }

  lemma {:induction false} TryKeepsCount(fp: string -> string, s: Sys, ordered: seq<Slot>, trigger: Trigger,
                                         i: Inputs, settings: Settings, failed: bool)
    ensures Try(fp, s, ordered, trigger, i, settings, failed).sys.unhealthy == s.unhealthy
    decreases |ordered|
  {
    if ordered != [] {
      var f := Freshen(s, ordered[0], ChanceOf(i, ordered[0]));
      FreshenIsLocal(s, ordered[0], ChanceOf(i, ordered[0]));
      TryUnfolds(fp, s, ordered, trigger, i, settings, failed);
      if GoesOn(f, ChanceOf(i, ordered[0])) {
        TryKeepsCount(fp, NextSys(fp, f, ordered[0]), ordered[1..], trigger, i, settings, failed || f.status == Transient);
      }
    }
  }

  /** One tick's count: reset by a reading, raised by at most one without, and a failover only at the limit. */
  lemma TickCounts(fp: string -> string, b: Beat, settings: Settings)
    ensures var t := Tick(fp, b.before, b.input, settings);
            && (!Watches(fp, b, settings) ==> t.sys.unhealthy == b.before.unhealthy && t.moved.None?)
            && (Watches(fp, b, settings) && ReadingOf(b.input, b.before.current.value).Known? ==> t.sys.unhealthy == 0)
            && (Watches(fp, b, settings) && !ReadingOf(b.input, b.before.current.value).Known? ==>
                  t.sys.unhealthy <= b.before.unhealthy + 1)
            && (t.moved.Some? && t.moved.value.1 == Failover ==>
                  && Watches(fp, b, settings) && !ReadingOf(b.input, b.before.current.value).Known?
                  && settings.unhealthyTicks <= b.before.unhealthy + 1)
  {
    if b.before.current.Some? {
      var d := Chosen(fp, b.before, b.input, settings);
      if d.Go? {
        var ordered := Ordered(d.sys, b.before.current.value, b.input, d.trigger, settings);
        TryKeepsCount(fp, d.sys, ordered, d.trigger, b.input, settings, false);
        TryMovesWithin(fp, d.sys, ordered, d.trigger, b.input, settings, false);
      }
    }
  }

  lemma {:induction false} CountIsAStreak(fp: string -> string, run: seq<Beat>, settings: Settings)
    requires Counts(fp, run, settings) && run != []
    ensures var b := run[|run| - 1];
            && Tick(fp, b.before, b.input, settings).sys.unhealthy <= Streak(fp, run, settings)
            && b.before.unhealthy <= Streak(fp, run[..|run| - 1], settings)
    decreases |run|
  {
    var init := run[..|run| - 1];
    TickCounts(fp, run[|run| - 1], settings);
    if init != [] {
      CountIsAStreak(fp, init, settings);
      assert init[|init| - 1] == run[|run| - 2];
    }
  }

  /** A failover happens only after as many unreadable ticks in a row as the settings ask for. */
  lemma FailoverIsPatient(fp: string -> string, run: seq<Beat>, settings: Settings)
    requires Counts(fp, run, settings) && run != []
    ensures var t := Tick(fp, run[|run| - 1].before, run[|run| - 1].input, settings);
            t.moved.Some? && t.moved.value.1 == Failover ==> settings.unhealthyTicks <= Streak(fp, run, settings)
  {
    CountIsAStreak(fp, run, settings);
    TickCounts(fp, run[|run| - 1], settings);
  }

  /**
   Beats of one engine, all within half an hour of `start`, during which the active account's token
   is expired in an idle session. The engine's own note of when that began carries over from tick
   to tick; everything else may change.
   */
  ghost predicate Idles(fp: string -> string, run: seq<Beat>, settings: Settings, start: real) {
    && (run != [] ==> run[0].before.idleSince.None?)
    && (forall k :: 0 <= k < |run| ==>
          && start <= run[k].input.now <= start + IDLE_HOLD_MAX
          && (run[k].before.current.Some? ==> ReadingOf(run[k].input, run[k].before.current.value).Expired?))
    && forall k, m :: 0 <= k < |run| && m == k + 1 && m < |run| ==>
         run[m].before.idleSince == Tick(fp, run[k].before, run[k].input, settings).sys.idleSince
  }

  predicate NotedSince(s: Sys, start: real) {
    s.idleSince.Some? ==> start <= s.idleSince.value
  }

  lemma IdleTickHolds(fp: string -> string, b: Beat, settings: Settings, start: real)
    requires NotedSince(b.before, start) && start <= b.input.now <= start + IDLE_HOLD_MAX
    requires b.before.current.Some? ==> ReadingOf(b.input, b.before.current.value).Expired?
    ensures var t := Tick(fp, b.before, b.input, settings);
            && t.moved.None? && NotedSince(t.sys, start)
            && t.sys.unhealthy in {b.before.unhealthy, 0} && t.sys.current == b.before.current
  {
  }

  /** For half an hour of an expired token in an idle session the engine neither switches nor counts towards a failover. */
  lemma {:induction false} IdleHoldIsPatient(fp: string -> string, run: seq<Beat>, settings: Settings, start: real,
                                             k: nat)
    requires Idles(fp, run, settings, start) && k < |run|
    ensures NotedSince(run[k].before, start)
    ensures var t := Tick(fp, run[k].before, run[k].input, settings);
            t.moved.None? && t.sys.unhealthy <= run[k].before.unhealthy
  {
    if k > 0 {
      IdleHoldIsPatient(fp, run, settings, start, k - 1);
      IdleTickHolds(fp, run[k - 1], settings, start);
    }
    IdleTickHolds(fp, run[k], settings, start);
  }

  lemma {:induction false} TryMovesOutOfCooldown(fp: string -> string, s: Sys, ordered: seq<Slot>, i: Inputs,
                                                 settings: Settings, failed: bool)
    requires Try(fp, s, ordered, Proactive, i, settings, failed).moved.Some?
    ensures !InCooldown(s.file, i.later, settings.cooldown)
    decreases |ordered|
  {
    var f := Freshen(s, ordered[0], ChanceOf(i, ordered[0]));
    FreshenIsLocal(s, ordered[0], ChanceOf(i, ordered[0]));
    TryUnfolds(fp, s, ordered, Proactive, i, settings, failed);
    if GoesOn(f, ChanceOf(i, ordered[0])) {
      TryMovesOutOfCooldown(fp, NextSys(fp, f, ordered[0]), ordered[1..], i, settings, failed || f.status == Transient);
    }
  }

  /** A proactive switch is outside the cooldown both when it is decided and when it is made. */
  lemma ProactiveIsOutOfCooldown(fp: string -> string, s: Sys, i: Inputs, settings: Settings)
    ensures var t := Tick(fp, s, i, settings);
            t.moved.Some? && t.moved.value.1 == Proactive ==>
              !InCooldown(s.file, i.now, settings.cooldown) && !InCooldown(s.file, i.later, settings.cooldown)
  {
    if s.current.Some? {
      var d := Chosen(fp, s, i, settings);
      if d.Go? {
        var ordered := Ordered(d.sys, s.current.value, i, d.trigger, settings);
        TryMovesWithin(fp, d.sys, ordered, d.trigger, i, settings, false);
        if d.trigger == Proactive && Try(fp, d.sys, ordered, Proactive, i, settings, false).moved.Some? {
          TryMovesOutOfCooldown(fp, d.sys, ordered, i, settings, false);
        }
      }
    }
  }

  /** The account's token is due for rotation, and the rotation is granted and stored. */
  predicate Rotates(a: Account, c: Chance) {
    && !a.apiKey && !c.liveSession && a.creds != "" && c.parses && c.nearExpiry
    && c.refresh.Rotated? && c.refresh.creds != "" && c.persists
  }

  /** What a blank uuid becomes: the owner's, trimmed, unless the organizations differ. */
  function Backfill(a: Account, owner: Option<Owner>): string {
    if owner.None? || (owner.value.org != "" && a.org != "" && owner.value.org != a.org) then "" else Trim(owner.value.uuid)
  }

  /**
   Freshening never rewrites an identity: a uuid is only ever filled in, where it was blank, with the
   owner's and without a conflict. A token near its end is replaced by the rotated one, once stored.
   */
  lemma FreshenKeepsIdentity(s: Sys, n: Slot, c: Chance)
    requires n in s.accounts
    ensures var a, b := s.accounts[n], Freshen(s, n, c).sys.accounts[n];
            && b.email == a.email && b.org == a.org && b.apiKey == a.apiKey
            && (a.uuid != "" ==> b.uuid == a.uuid)
            && (b.uuid != a.uuid ==> Freshen(s, n, c).status == Ok)
            && (b.creds != a.creds ==> c.refresh.Rotated? && b.creds == c.refresh.creds && c.persists)
            && (Rotates(a, c) ==> b.creds == c.refresh.creds && (a.uuid == "" ==> b.uuid == Backfill(a, c.refresh.owner)))
  {
  }
}
