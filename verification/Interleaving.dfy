/**
 Any number of cswap processes running at once, each asking its user first and committing
 inside the store lock later.

 A process is stopped between any two of its steps for as long as the others like, and may
 leave the lock early: an error, a failed write and a crash all look like that here.
 */
module Interleaving {
  import opened Basics
  import opened Rosters
  import opened Spans

  datatype Phase =
    | Fresh
    | Asked(shown: Option<Occupant>)
    | Holding(premise: Option<Occupant>, base: Roster)
    | Finished

  datatype Process = Process(cmd: Command, phase: Phase)

  /** One locked span in the order of lock acquisition: how many of its rosters it committed. */
  datatype Entry = Entry(pid: nat, cmd: Command, shown: Option<Occupant>, commits: nat)

  /** `past` lists every roster that has been on disk, the current one last. */
  datatype Sys = Sys(disk: Roster, lock: Option<nat>, procs: map<nat, Process>, log: seq<Entry>, past: seq<Roster>)

  ghost predicate Initial(s: Sys) {
    && Inv(s.disk) && s.lock == None && s.log == [] && s.past == [s.disk]
    && forall p :: p in s.procs ==> s.procs[p].phase == Fresh
  }

  /** The slot whose occupant an add must ask about, if it must ask at all. */
  predicate MustAsk(c: Command) {
    (c.Add? || c.AddToken?) && c.slot.Some? && !c.assumeYes
  }

  function AddedEmail(c: Command): string
    requires c.Add? || c.AddToken?
  {
    if c.Add? then c.login.email else TokenEmail(c.slot, c.email, c.apiKey)
  }

  function AddedOrg(c: Command): string
    requires c.Add? || c.AddToken?
  {
    if c.Add? then c.login.org else ""
  }

  /**
   The question. An add reads the occupant of its slot under a lock it gives back; a remove
   resolves its identifier with no lock at all. The others have nothing to ask.
   */
  ghost predicate Ask(s: Sys, t: Sys, p: nat) {
    && p in s.procs && s.procs[p].phase == Fresh
    && var c := s.procs[p].cmd;
       if MustAsk(c) then
         && s.lock == None
         && var shown := SlotOccupant(s.disk, c.slot.value, AddedEmail(c), AddedOrg(c));
            t == s.(procs := s.procs[p := Process(c, Asked(shown))])
       else if c.Remove? then
         && Resolve(s.disk, c.id).Found? && Resolve(s.disk, c.id).slot in s.disk.accounts
         && t == s.(procs := s.procs[p := Process(c, Asked(Some(OccupantOf(s.disk, Resolve(s.disk, c.id).slot))))])
       else
         t == s.(procs := s.procs[p := Process(c, Asked(None))])
  }

  /** Taking the lock and reading the roster inside it. */
  ghost predicate Enter(s: Sys, t: Sys, p: nat) {
    && p in s.procs && s.procs[p].phase.Asked? && s.lock == None
    && var c, shown := s.procs[p].cmd, s.procs[p].phase.shown;
       t == s.(lock := Some(p),
               procs := s.procs[p := Process(c, Holding(shown, s.disk))],
               log := s.log + [Entry(p, c, shown, 0)])
  }

  /** One roster write of the span, decided from the roster read on entry. */
  ghost predicate Write(s: Sys, t: Sys, p: nat) {
    && p in s.procs && s.procs[p].phase.Holding? && s.lock == Some(p) && s.log != []
    && var c, h, last := s.procs[p].cmd, s.procs[p].phase, s.log[|s.log| - 1];
       var span := SpanOf(c, h.premise, h.base);
       && span.Commit? && last.commits < |span.rosters|
       && var next := span.rosters[last.commits];
          t == s.(disk := next, past := s.past + [next],
                  log := s.log[..|s.log| - 1] + [last.(commits := last.commits + 1)])
  }

  /** Releasing the lock: done, refused, failed or dead. */
  ghost predicate Leave(s: Sys, t: Sys, p: nat) {
    && p in s.procs && s.procs[p].phase.Holding? && s.lock == Some(p)
    && t == s.(lock := None, procs := s.procs[p := s.procs[p].(phase := Finished)])
  }

  ghost predicate Step(s: Sys, t: Sys, p: nat) {
    Ask(s, t, p) || Enter(s, t, p) || Write(s, t, p) || Leave(s, t, p)
  }

  ghost predicate Moves(s: Sys, t: Sys) {
    exists p :: Step(s, t, p)
  }

  ghost predicate Run(run: seq<Sys>) {
    && run != [] && Initial(run[0])
    && forall i, j :: 0 <= i && j == i + 1 < |run| ==> Moves(run[i], run[j])
  }

  // ---- the serial execution the log describes --------------------------------------

  function AfterEntry(r: Roster, e: Entry): Roster {
    var span := SpanOf(e.cmd, e.shown, r);
    if 0 < e.commits && span.Commit? && e.commits <= |span.rosters| then span.rosters[e.commits - 1] else r
  }

  /** The spans of the log executed one after the other, each reading what the last one left. */
  function Serial(r: Roster, log: seq<Entry>): Roster {
    if log == [] then r else AfterEntry(Serial(r, log[..|log| - 1]), log[|log| - 1])
  }

  ghost predicate WasOnDisk(s: Sys, shown: Option<Occupant>) {
    shown.Some? ==>
      exists i :: 0 <= i < |s.past| && shown.value.slot in s.past[i].accounts
                  && OccupantOf(s.past[i], shown.value.slot) == shown.value
  }

  ghost predicate ProcessOk(s: Sys, p: nat)
    requires p in s.procs
  {
    match s.procs[p].phase
    case Fresh => forall i :: 0 <= i < |s.log| ==> s.log[i].pid != p
    case Asked(shown) => (forall i :: 0 <= i < |s.log| ==> s.log[i].pid != p) && WasOnDisk(s, shown)
    case Holding(premise, base) => s.lock == Some(p)
    case Finished => s.lock != Some(p)
  }

  ghost predicate ProcessesOk(s: Sys) {
    forall p :: p in s.procs ==> ProcessOk(s, p)
  }

  ghost predicate HolderOk(s: Sys, start: Roster) {
    s.lock.Some? ==>
      && s.log != [] && s.lock.value in s.procs
      && var last, h := s.log[|s.log| - 1], s.procs[s.lock.value];
         && h.phase.Holding? && last.pid == s.lock.value && last.cmd == h.cmd && last.shown == h.phase.premise
         && h.phase.base == Serial(start, s.log[..|s.log| - 1]) && Inv(h.phase.base)
  }

  ghost predicate Good(s: Sys, start: Roster) {
    && s.past != [] && s.past[|s.past| - 1] == s.disk
    && s.disk == Serial(start, s.log) && Inv(s.disk)
    && ProcessesOk(s)
    && HolderOk(s, start)
    && (forall i :: 0 <= i < |s.log| ==> WasOnDisk(s, s.log[i].shown))
    && (forall i, j :: 0 <= i < j < |s.log| ==> s.log[i].pid != s.log[j].pid)
  }

  /** Whatever a process was shown stands on disk at that moment. */
  lemma ShownIsOnDisk(s: Sys, t: Sys, p: nat) returns (shown: Option<Occupant>)
    requires Ask(s, t, p)
    ensures p in s.procs && s.procs[p].phase == Fresh
    ensures t == s.(procs := s.procs[p := Process(s.procs[p].cmd, Asked(shown))])
    ensures shown.Some? ==> shown.value.slot in s.disk.accounts && OccupantOf(s.disk, shown.value.slot) == shown.value
  {
    shown := t.procs[p].phase.shown;
  }

  lemma PastGrows(s: Sys, t: Sys, shown: Option<Occupant>)
    requires WasOnDisk(s, shown) && s.past <= t.past
    ensures WasOnDisk(t, shown)
  {
    if shown.Some? {
      var i :| 0 <= i < |s.past| && shown.value.slot in s.past[i].accounts
               && OccupantOf(s.past[i], shown.value.slot) == shown.value;
      assert t.past[i] == s.past[i];
    }
  }

  /** The disk, past and log are as they were; only phases and the lock moved. */
  ghost predicate SameHistory(s: Sys, t: Sys) {
    t.disk == s.disk && t.past == s.past && t.log == s.log
  }

  lemma LogStaysShown(s: Sys, t: Sys)
    requires t.past == s.past && t.log == s.log
    requires forall i :: 0 <= i < |s.log| ==> WasOnDisk(s, s.log[i].shown)
    ensures forall i :: 0 <= i < |t.log| ==> WasOnDisk(t, t.log[i].shown)
  {
    forall i | 0 <= i < |t.log| ensures WasOnDisk(t, t.log[i].shown) { PastGrows(s, t, s.log[i].shown); }
  }

  /** A process that took no part in the step is as well off as before. */
  lemma BystanderOk(s: Sys, t: Sys, q: nat)
    requires q in s.procs && q in t.procs && t.procs[q] == s.procs[q] && ProcessOk(s, q)
    requires s.past <= t.past && forall i :: 0 <= i < |t.log| && t.log[i].pid == q ==> i < |s.log| && s.log[i].pid == q
    requires t.lock == s.lock || (s.lock != Some(q) && t.lock != Some(q))
    ensures ProcessOk(t, q)
  {
    if s.procs[q].phase.Asked? { PastGrows(s, t, s.procs[q].phase.shown); }
  }

  lemma AskKeepsProcesses(s: Sys, t: Sys, p: nat)
    requires ProcessesOk(s) && Ask(s, t, p) && s.past != [] && s.past[|s.past| - 1] == s.disk
    ensures ProcessesOk(t)
  {
    var shown := ShownIsOnDisk(s, t, p);
    assert SameHistory(s, t) && t.lock == s.lock;
    assert t.past[|t.past| - 1] == s.disk;
    assert ProcessOk(s, p);
    assert WasOnDisk(t, shown);
    forall q | q in t.procs ensures ProcessOk(t, q) {
      if q != p {
        assert ProcessOk(s, q);
        BystanderOk(s, t, q);
      }
    }
  }

  lemma AskKeepsHolder(s: Sys, t: Sys, p: nat, start: Roster)
    requires HolderOk(s, start) && Ask(s, t, p)
    ensures HolderOk(t, start)
  {
    var _ := ShownIsOnDisk(s, t, p);
  }

  lemma AskKeepsGood(s: Sys, t: Sys, p: nat, start: Roster)
    requires Good(s, start) && Ask(s, t, p)
    ensures Good(t, start)
  {
    var _ := ShownIsOnDisk(s, t, p);
    assert SameHistory(s, t);
    LogStaysShown(s, t);
    AskKeepsProcesses(s, t, p);
    AskKeepsHolder(s, t, p, start);
  }

  /** Taking the lock appends an entry that carries what the process was shown. */
  lemma EnterLogs(s: Sys, t: Sys, p: nat)
    requires (forall i :: 0 <= i < |s.log| ==> WasOnDisk(s, s.log[i].shown))
    requires p in s.procs && ProcessOk(s, p) && Enter(s, t, p)
    ensures t.log == s.log + [Entry(p, s.procs[p].cmd, s.procs[p].phase.shown, 0)]
    ensures forall i :: 0 <= i < |t.log| ==> WasOnDisk(t, t.log[i].shown)
  {
    forall i | 0 <= i < |t.log| ensures WasOnDisk(t, t.log[i].shown) {
      if i < |s.log| {
        assert t.log[i] == s.log[i];
        PastGrows(s, t, s.log[i].shown);
      } else {
        PastGrows(s, t, s.procs[p].phase.shown);
      }
    }
  }

  lemma EnterKeepsGood(s: Sys, t: Sys, p: nat, start: Roster)
    requires Good(s, start) && Enter(s, t, p)
    ensures Good(t, start)
  {
    assert ProcessOk(s, p);
    EnterLogs(s, t, p);
    assert t.log[..|t.log| - 1] == s.log;
    assert Serial(start, t.log) == Serial(start, s.log);
    forall q | q in t.procs ensures ProcessOk(t, q) {
      if q != p { assert ProcessOk(s, q); BystanderOk(s, t, q); }
    }
    assert HolderOk(t, start);
  }

  /** The log after a write: the last entry has committed one roster more. */
  ghost predicate LogAdvances(s: Sys, t: Sys) {
    && s.log != [] && |t.log| == |s.log| && t.log[..|t.log| - 1] == s.log[..|s.log| - 1]
    && t.log[|t.log| - 1] == s.log[|s.log| - 1].(commits := s.log[|s.log| - 1].commits + 1)
  }

  /** A write puts on disk what the serial execution reaches with one commit more. */
  lemma WriteAdvances(s: Sys, t: Sys, p: nat, start: Roster)
    requires HolderOk(s, start) && Write(s, t, p)
    ensures LogAdvances(s, t) && t.lock == s.lock && t.procs == s.procs && t.past == s.past + [t.disk]
    ensures t.disk == Serial(start, t.log) && Inv(t.disk)
  {
    var h := s.procs[p].phase;
    assert t.log[..|t.log| - 1] == s.log[..|s.log| - 1];
    SpanKeepsInv(s.procs[p].cmd, h.premise, h.base);
  }

  lemma AdvancedEntries(s: Sys, t: Sys, i: nat)
    requires LogAdvances(s, t) && i < |t.log|
    ensures t.log[i].pid == s.log[i].pid && t.log[i].shown == s.log[i].shown
  {
    if i < |t.log| - 1 { assert t.log[i] == t.log[..|t.log| - 1][i] == s.log[..|s.log| - 1][i]; }
  }

  lemma WriteKeepsGood(s: Sys, t: Sys, p: nat, start: Roster)
    requires Good(s, start) && Write(s, t, p)
    ensures Good(t, start)
  {
    WriteAdvances(s, t, p, start);
    AdvanceKeepsGood(s, t, start);
  }

  lemma AdvanceKeepsGood(s: Sys, t: Sys, start: Roster)
    requires Good(s, start) && LogAdvances(s, t) && t.lock == s.lock && t.procs == s.procs && t.past == s.past + [t.disk]
    requires t.disk == Serial(start, t.log) && Inv(t.disk)
    ensures Good(t, start)
  {
    forall i | 0 <= i < |t.log| ensures t.log[i].pid == s.log[i].pid && WasOnDisk(t, t.log[i].shown) {
      AdvancedEntries(s, t, i);
      PastGrows(s, t, s.log[i].shown);
    }
    forall q | q in t.procs ensures ProcessOk(t, q) { assert ProcessOk(s, q); BystanderOk(s, t, q); }
    assert HolderOk(t, start);
  }

  lemma LeaveKeepsGood(s: Sys, t: Sys, p: nat, start: Roster)
    requires Good(s, start) && Leave(s, t, p)
    ensures Good(t, start)
  {
    assert SameHistory(s, t);
    LogStaysShown(s, t);
    forall q | q in t.procs ensures ProcessOk(t, q) {
      if q != p { assert ProcessOk(s, q); BystanderOk(s, t, q); }
    }
    assert HolderOk(t, start);
  }

  lemma {:induction false} RunIsGood(run: seq<Sys>, i: nat)
    requires Run(run) && i < |run|
    ensures Good(run[i], run[0].disk)
  {
    if i > 0 {
      RunIsGood(run, i - 1);
      var s, t := run[i - 1], run[i];
      assert Moves(s, t);
      var p :| Step(s, t, p);
      if Ask(s, t, p) { AskKeepsGood(s, t, p, run[0].disk); }
      else if Enter(s, t, p) { EnterKeepsGood(s, t, p, run[0].disk); }
      else if Write(s, t, p) { WriteKeepsGood(s, t, p, run[0].disk); }
      else { LeaveKeepsGood(s, t, p, run[0].disk); }
    }
  }

  /**
   In every interleaving, at every moment, the roster on disk is what the locked spans give
   when executed serially in the order they took the lock, and it satisfies the invariant.
   */
  lemma Serializable(run: seq<Sys>, i: nat)
    requires Run(run) && i < |run|
    ensures run[i].disk == Serial(run[0].disk, run[i].log) && Inv(run[i].disk)
    ensures forall j, k :: 0 <= j < k < |run[i].log| ==> run[i].log[j].pid != run[i].log[k].pid
  {
    RunIsGood(run, i);
  }

  /**
   No account ever vanishes on evidence that went stale while a question was open. Whatever a
   span made disappear was re-checked under the lock against what its user had been shown, and
   what the user had been shown had really been on disk.
   */
  lemma NothingVanishesUnseen(run: seq<Sys>, i: nat, k: nat, n: Slot)
    requires Run(run) && i < |run| && k < |run[i].log|
    ensures var before, e := Serial(run[0].disk, run[i].log[..k]), run[i].log[k];
            n in before.accounts && !Present(AfterEntry(before, e), before.accounts[n]) ==>
              Justified(e.cmd, e.shown, before, n) && WasOnDisk(run[i], e.shown)
  {
    RunIsGood(run, i);
    var before, e := Serial(run[0].disk, run[i].log[..k]), run[i].log[k];
    if n in before.accounts && !Present(AfterEntry(before, e), before.accounts[n]) {
      StillPresent(before, n, before.accounts[n]);
      VanishedIsJustified(e.cmd, e.shown, before, n, e.commits - 1);
    }
  }

  // ---- and the work gets done ---------------------------------------------------------

  /** A stretch of a run. */
  ghost predicate Path(run: seq<Sys>) {
    run != [] && forall i, j :: 0 <= i && j == i + 1 < |run| ==> Moves(run[i], run[j])
  }

  lemma Prepend(s: Sys, p: nat, rest: seq<Sys>)
    requires Path(rest) && Step(s, rest[0], p)
    ensures Path([s] + rest)
  {
    var run := [s] + rest;
    forall i, j | 0 <= i && j == i + 1 < |run| ensures Moves(run[i], run[j]) {
      if i > 0 { assert run[i] == rest[i - 1] && run[j] == rest[j - 1]; }
    }
  }

  /** The process holds the lock, and the disk is where its commits so far have brought it on its way through this span. */
  ghost predicate Within(s: Sys, p: nat, base: Roster, span: Span) {
    && p in s.procs && s.procs[p].phase.Holding? && s.lock == Some(p) && s.log != [] && span.Commit?
    && var n := s.log[|s.log| - 1].commits;
       n <= |span.rosters| && s.disk == if n == 0 then base else span.rosters[n - 1]
  }

  ghost predicate Midway(s: Sys, p: nat, span: Span) {
    && p in s.procs && s.procs[p].phase.Holding?
    && span == SpanOf(s.procs[p].cmd, s.procs[p].phase.premise, s.procs[p].phase.base)
    && Within(s, p, s.procs[p].phase.base, span)
  }

  function Undone(s: Sys, span: Span): int
    requires s.log != [] && span.Commit?
  {
    |span.rosters| - s.log[|s.log| - 1].commits
  }

  lemma CommitOneMore(s: Sys, p: nat, base: Roster, span: Span) returns (t: Sys)
    requires Within(s, p, base, span) && Undone(s, span) > 0
    ensures var next := span.rosters[s.log[|s.log| - 1].commits];
            t == s.(disk := next, past := s.past + [next],
                    log := s.log[..|s.log| - 1] + [s.log[|s.log| - 1].(commits := s.log[|s.log| - 1].commits + 1)])
    ensures Within(t, p, base, span) && Undone(t, span) == Undone(s, span) - 1
  {
    var last := s.log[|s.log| - 1];
    var next := span.rosters[last.commits];
    t := s.(disk := next, past := s.past + [next],
            log := s.log[..|s.log| - 1] + [last.(commits := last.commits + 1)]);
  }

  /** The state after its next commit. */
  lemma NextCommit(s: Sys, p: nat, span: Span) returns (t: Sys)
    requires Midway(s, p, span) && Undone(s, span) > 0
    ensures Step(s, t, p) && Midway(t, p, span) && Undone(t, span) == Undone(s, span) - 1
    ensures t.procs == s.procs && t.lock == s.lock
  {
    t := CommitOneMore(s, p, s.procs[p].phase.base, span);
    assert Write(s, t, p);
  }

  lemma {:induction false} CommitsTheRest(s: Sys, p: nat, span: Span) returns (run: seq<Sys>)
    requires Midway(s, p, span)
    ensures Path(run) && run[0] == s
    ensures var t := run[|run| - 1];
            t.procs == s.procs && t.lock == s.lock && t.disk == SpanEnd(s.procs[p].phase.base, span)
    decreases Undone(s, span)
  {
    if Undone(s, span) == 0 {
      run := [s];
    } else {
      var t := NextCommit(s, p, span);
      var rest := CommitsTheRest(t, p, span);
      Prepend(s, p, rest);
      run := [s] + rest;
    }
  }

  /** The only thing left to do is to let go of the lock. */
  lemma LetsGo(run: seq<Sys>, p: nat) returns (t: Sys)
    requires Path(run) && p in run[|run| - 1].procs && run[|run| - 1].procs[p].phase.Holding?
    requires run[|run| - 1].lock == Some(p)
    ensures Path(run + [t]) && t.lock == None && t.disk == run[|run| - 1].disk
    ensures p in t.procs && t.procs[p].phase == Finished
  {
    var s := run[|run| - 1];
    t := s.(lock := None, procs := s.procs[p := s.procs[p].(phase := Finished)]);
    assert Leave(s, t, p) && Step(s, t, p);
    var whole := run + [t];
    forall i, j | 0 <= i && j == i + 1 < |whole| ensures Moves(whole[i], whole[j]) {
      if j < |run| { assert Moves(run[i], run[j]); }
    }
  }

  /** Left alone with a free lock, a process that has asked commits its whole span and lets the lock go. */
  lemma AloneItCompletes(s: Sys, p: nat) returns (run: seq<Sys>)
    requires p in s.procs && s.procs[p].phase.Asked? && s.lock == None
    ensures Path(run) && run[0] == s
    ensures var t, span := run[|run| - 1], SpanOf(s.procs[p].cmd, s.procs[p].phase.shown, s.disk);
            && t.lock == None && p in t.procs && t.procs[p].phase == Finished
            && t.disk == if span.Commit? then SpanEnd(s.disk, span) else s.disk
  {
    var c, shown := s.procs[p].cmd, s.procs[p].phase.shown;
    var e := s.(lock := Some(p), procs := s.procs[p := Process(c, Holding(shown, s.disk))],
                log := s.log + [Entry(p, c, shown, 0)]);
    assert Enter(s, e, p) && Step(s, e, p);
    var rest := [e];
    if SpanOf(c, shown, s.disk).Commit? { rest := CommitsTheRest(e, p, SpanOf(c, shown, s.disk)); }
    Prepend(s, p, rest);
    var t := LetsGo([s] + rest, p);
    run := [s] + rest + [t];
  }
}
