/** What a switch promises about the login it replaces. */
module SwitchTheorems {
  import opened Basics
  import opened Rosters
  import opened ActiveStore
  import opened Switching
  import Spans

  // ---- the outgoing credential survives ---------------------------------------------

  /** The endpoint named this slot's account, by its uuid, as the owner of exactly these bytes. */
  predicate NamedOwner(r: Roster, n: Slot, c: string, p: Provenance) {
    && n in r.accounts && p.live == Some(c) && p.resolved.Some?
    && Trim(p.resolved.value.uuid) != "" && Trim(r.accounts[n].uuid) == Trim(p.resolved.value.uuid)
  }

  /**
   The bytes are in the slot's own backup or in the stash, or their lineage is in the backup of
   another slot, the one whose account the endpoint named for them.
   */
  ghost predicate Survives(fp: string -> string, t: State, k: Key, c: string, p: Provenance) {
    || Backup(t, k) == c
    || c in t.stash
    || exists n :: n != k.slot && NamedOwner(t.roster, n, c, p)
                   && SameLineage(fp, Backup(t, Key(n, t.roster.accounts[n].email)), c)
  }

  lemma PreserveStores(s: State, j: Job, v: Verdict)
    requires !v.ForeignSynced? && Preserve(s, j, v).ok
    requires v.OwnBytes? ==> Backup(s, Key(j.current, j.email)) == j.creds
    ensures Backup(Preserve(s, j, v).s, Key(j.current, j.email)) == j.creds || j.creds in Preserve(s, j, v).s.stash
  {
  }

  lemma SyncedSurvives(fp: string -> string, s: State, j: Job, p: Provenance)
    requires j.creds != "" && Classify(fp, s, j.current, j.email, j.creds, p).ForeignSynced?
    ensures Survives(fp, s, Key(j.current, j.email), j.creds, p)
  {
    var n := Classify(fp, s, j.current, j.email, j.creds, p).slot;
    ForeignNamesTheOwner(fp, s, j, p);
    SyncedSharesLineage(fp, s, j, p);
    assert NamedOwner(s.roster, n, j.creds, p);
  }

  lemma SyncedSharesLineage(fp: string -> string, s: State, j: Job, p: Provenance)
    requires j.creds != "" && Classify(fp, s, j.current, j.email, j.creds, p).ForeignSynced?
    ensures var n := Classify(fp, s, j.current, j.email, j.creds, p).slot;
            n in s.roster.accounts && SameLineage(fp, Backup(s, Key(n, s.roster.accounts[n].email)), j.creds)
  {
    var v := Classify(fp, s, j.current, j.email, j.creds, p);
    assert v == ClassifyOther(fp, s, j.current, j.creds, p.resolved.value);
    AttributedSharesLineage(fp, s, j.current, j.creds, p.resolved.value, Attribute(s.roster, p.resolved.value));
  }

  lemma AttributedSharesLineage(fp: string -> string, s: State, current: Slot, live: string, id: Identity,
                                owner: Option<Slot>)
    requires live != "" && ClassifyAttributed(fp, s, current, live, id, owner).ForeignSynced?
    ensures var n := ClassifyAttributed(fp, s, current, live, id, owner).slot;
            n in s.roster.accounts && SameLineage(fp, Backup(s, Key(n, s.roster.accounts[n].email)), live)
  {
  }

  lemma PreserveSaves(fp: string -> string, s: State, j: Job, p: Provenance)
    requires j.creds != ""
    requires Preserve(s, j, Classify(fp, s, j.current, j.email, j.creds, p)).ok
    ensures var t := Preserve(s, j, Classify(fp, s, j.current, j.email, j.creds, p)).s;
            Survives(fp, t, Key(j.current, j.email), j.creds, p)
  {
    var v := Classify(fp, s, j.current, j.email, j.creds, p);
    if v.ForeignSynced? {
      assert Preserve(s, j, v).s == s;
      SyncedSurvives(fp, s, j, p);
    } else {
      OwnBytesAreStored(fp, s, j, p);
      PreserveStores(s, j, v);
    }
  }

  lemma OwnBytesAreStored(fp: string -> string, s: State, j: Job, p: Provenance)
    ensures Classify(fp, s, j.current, j.email, j.creds, p).OwnBytes? ==> Backup(s, Key(j.current, j.email)) == j.creds
  {
    var id := if p.resolved.Some? then p.resolved.value else Identity("", "", "");
    AttributedIsNotOwnBytes(fp, s, j.current, j.creds, id, Attribute(s.roster, id));
  }

  lemma AttributedIsNotOwnBytes(fp: string -> string, s: State, current: Slot, live: string, id: Identity,
                                owner: Option<Slot>)
    ensures !ClassifyAttributed(fp, s, current, live, id, owner).OwnBytes?
  {
  }

  /** From step 2 on, no backup of either kind, no stash entry, no record's slot, email or recorded uuid changes. */
  ghost predicate KeepsCopies(s: State, t: State) {
    && t.creds == s.creds && t.configs == s.configs && t.stash == s.stash
    && t.roster.accounts.Keys == s.roster.accounts.Keys
    && forall n :: n in s.roster.accounts ==>
         && t.roster.accounts[n].email == s.roster.accounts[n].email
         && (s.roster.accounts[n].uuid != "" ==> t.roster.accounts[n].uuid == s.roster.accounts[n].uuid)
  }

  lemma CopiesSurvive(fp: string -> string, s: State, t: State, k: Key, c: string, p: Provenance)
    requires Survives(fp, s, k, c, p) && KeepsCopies(s, t)
    ensures Survives(fp, t, k, c, p)
  {
    if Backup(s, k) != c && c !in s.stash {
      var n :| n != k.slot && NamedOwner(s.roster, n, c, p)
               && SameLineage(fp, Backup(s, Key(n, s.roster.accounts[n].email)), c);
      assert Trim("") == "";
      assert NamedOwner(t.roster, n, c, p);
      assert SameLineage(fp, Backup(t, Key(n, t.roster.accounts[n].email)), c);
    }
  }

  /** At most a blank uuid is filled in. */
  ghost predicate FillsOnly(r: Roster, filled: Roster) {
    && filled.accounts.Keys == r.accounts.Keys
    && forall n :: n in r.accounts ==>
         && filled.accounts[n].email == r.accounts[n].email
         && (r.accounts[n].uuid != "" ==> filled.accounts[n].uuid == r.accounts[n].uuid)
  }

  lemma ActivateWritesTheRoster(s: State, j: Job, filled: Roster)
    ensures var t := Activate(s, j, filled).s;
            && t.creds == s.creds && t.configs == s.configs && t.stash == s.stash
            && (t.roster == s.roster || t.roster == filled.(active := Some(j.target)))
  {
    var a := WriteActive(s, Backup(s, Key(j.target, j.targetEmail)));
    assert a.s == s.(fates := a.s.fates, live := a.s.live);
    if a.ok && ConfigBackup(s, Key(j.target, j.targetEmail)).Good? && a.s.live.config.Good? {
      var b := WriteConfig(a.s, a.s.live.config.(oauth := ConfigBackup(s, Key(j.target, j.targetEmail)).oauth));
      assert b.s == s.(fates := b.s.fates, live := b.s.live);
      var c := WriteRoster(b.s, filled.(active := Some(j.target)));
      assert c.s == b.s.(fates := c.s.fates, roster := c.s.roster);
    }
  }

  lemma ActivateKeepsCopies(s: State, j: Job, filled: Roster)
    requires FillsOnly(s.roster, filled)
    ensures KeepsCopies(s, Activate(s, j, filled).s)
  {
    ActivateWritesTheRoster(s, j, filled);
  }

  lemma UndoKeepsCopies(s: State, j: Job, m: Mark)
    ensures KeepsCopies(s, Undo(s, j, m).s)
  {
  }

  lemma {:induction false} RollbackKeepsCopies(s: State, j: Job, marks: seq<Mark>)
    ensures KeepsCopies(s, Rollback(s, j, marks).s)
    decreases |marks|
  {
    if marks != [] {
      UndoKeepsCopies(s, j, marks[|marks| - 1]);
      RollbackKeepsCopies(Undo(s, j, marks[|marks| - 1]).s, j, marks[..|marks| - 1]);
    }
  }

  lemma FilledKeepsSlots(r: Roster, j: Job, v: Verdict, p: Provenance)
    ensures FillsOnly(r, Filled(r, j, v, p))
  {
  }

  lemma PreserveKeepsLive(s: State, j: Job, v: Verdict)
    ensures Preserve(s, j, v).s.live == s.live && Preserve(s, j, v).s.roster == s.roster
  {
  }

  lemma BodySaves(fp: string -> string, s: State, j: Job, p: Provenance)
    requires j.creds != ""
    ensures var b := Body(fp, s, j, p);
            if b.marks == [] then b.s.live == s.live && !b.ok else Survives(fp, b.s, Key(j.current, j.email), j.creds, p)
  {
    var v := Classify(fp, s, j.current, j.email, j.creds, p);
    var step1 := Preserve(s, j, v);
    PreserveKeepsLive(s, j, v);
    if step1.ok {
      PreserveSaves(fp, s, j, p);
      FilledKeepsSlots(s.roster, j, v, p);
      ActivateKeepsCopies(step1.s, j, Filled(s.roster, j, v, p));
      CopiesSurvive(fp, step1.s, Body(fp, s, j, p).s, Key(j.current, j.email), j.creds, p);
    }
  }

  /**
   Whatever fails, a switch that hands over a managed login never loses it: either the live login
   was not touched, or the outgoing bytes are in their own slot's backup, or in the stash, or a
   credential of the same lineage is in the backup of the slot that the endpoint named as its owner.
   */
  lemma SwitchNeverLosesTheOutgoing(fp: string -> string, s: State, j: Job, p: Provenance)
    requires j.creds != ""
    ensures var r := NormalSwitch(fp, s, j, p);
            if r.Failed? then r.s.live == s.live else Survives(fp, r.s, Key(j.current, j.email), j.creds, p)
  {
    BodySaves(fp, s, j, p);
    var b := Body(fp, s, j, p);
    if !b.ok && b.marks != [] {
      RollbackKeepsCopies(b.s, j, b.marks);
      CopiesSurvive(fp, b.s, Rollback(b.s, j, b.marks).s, Key(j.current, j.email), j.creds, p);
    }
  }

  lemma PutBackKeepsCopies(s: State, was: Live, configWritten: bool)
    ensures KeepsCopies(s, PutBack(s, was, configWritten).s) && !PutBack(s, was, configWritten).Failed?
  {
  }

  lemma InstallKeepsCopies(s: State, target: Slot, creds: string, config: Config)
    requires config.Good?
    ensures KeepsCopies(s, Install(s, target, creds, config).s)
    ensures Install(s, target, creds, config).Failed? && HasIdentity(s.live) ==>
              Install(s, target, creds, config).s.live == s.live
  {
    var a := WriteActive(s, creds);
    if a.ok {
      var b := WriteConfig(a.s, Spliced(a.s.live.config, config));
      var c := if b.ok then WriteRoster(b.s, s.roster.(active := Some(target))) else b;
      assert KeepsCopies(s, c.s);
      PutBackKeepsCopies(c.s, s.live, b.ok);
    }
  }

  /** The same for a login that no slot manages, unless the user forced the rewrite. */
  lemma ActivationNeverLosesAnUnmanagedLogin(s: State, target: Slot)
    requires target in s.roster.accounts && HasIdentity(s.live) && ReadActive(s.live) != ""
    ensures var r := DirectSwitch(s, target, false);
            || (r.Failed? && r.s.live == s.live)
            || ReadActive(s.live) in r.s.stash
            || ReadActive(s.live) == Backup(r.s, Key(target, s.roster.accounts[target].email))
  {
    var k := Key(target, s.roster.accounts[target].email);
    var creds, config := Backup(s, k), ConfigBackup(s, k);
    var d := Displace(s, creds, false);
    assert d.s.creds == s.creds && d.s.live == s.live;
    assert d.ok ==> ReadActive(s.live) == creds || ReadActive(s.live) in d.s.stash;
    if config.Good? { InstallKeepsCopies(d.s, target, creds, config); }
  }

  ghost predicate SafeSomewhere(fp: string -> string, t: State, c: string, p: Provenance) {
    exists k :: Survives(fp, t, k, c, p)
  }

  lemma NormalLosesNothing(fp: string -> string, s: State, j: Job, p: Provenance)
    requires j.creds != ""
    ensures var r := NormalSwitch(fp, s, j, p);
            if r.Failed? then r.s.live == s.live else SafeSomewhere(fp, r.s, j.creds, p)
  {
    SwitchNeverLosesTheOutgoing(fp, s, j, p);
    var r := NormalSwitch(fp, s, j, p);
    assert !r.Failed? ==> Survives(fp, r.s, Key(j.current, j.email), j.creds, p);
  }

  lemma DirectLosesNothing(fp: string -> string, s: State, target: Slot, p: Provenance)
    requires target in s.roster.accounts && HasIdentity(s.live) && ReadActive(s.live) != ""
    ensures var r := DirectSwitch(s, target, false);
            if r.Failed? then r.s.live == s.live else SafeSomewhere(fp, r.s, ReadActive(s.live), p)
  {
    ActivationNeverLosesAnUnmanagedLogin(s, target);
    DirectFailureKeepsLive(s, target);
    var r := DirectSwitch(s, target, false);
    assert !r.Failed? ==> Survives(fp, r.s, Key(target, s.roster.accounts[target].email), ReadActive(s.live), p);
  }

  /** On either path: unless forced, a switch overwrites a live login only once a copy is safe. */
  lemma SwitchNeverLosesALogin(fp: string -> string, s: State, target: Slot, p: Provenance)
    requires HasIdentity(s.live) && ReadActive(s.live) != ""
    ensures var r := PerformSwitch(fp, s, target, false, p);
            if r.Failed? then r.s.live == s.live else SafeSomewhere(fp, r.s, ReadActive(s.live), p)
  {
    if target in s.roster.accounts {
      var current := FindSlot(s.roster, OAuthOf(s.live).value.email, OAuthOf(s.live).value.org);
      if current.Some? {
        NormalLosesNothing(fp, s, JobOf(s, target, current.value), p);
      } else {
        DirectLosesNothing(fp, s, target, p);
      }
    }
  }

  lemma DirectFailureKeepsLive(s: State, target: Slot)
    requires target in s.roster.accounts && HasIdentity(s.live)
    ensures DirectSwitch(s, target, false).Failed? ==> DirectSwitch(s, target, false).s.live == s.live
  {
    var k := Key(target, s.roster.accounts[target].email);
    var d := Displace(s, Backup(s, k), false);
    assert d.s.live == s.live;
    if ConfigBackup(s, k).Good? { InstallKeepsCopies(d.s, target, Backup(s, k), ConfigBackup(s, k)); }
  }

  // ---- rollback -----------------------------------------------------------------------

  /** Where a failed body can have stopped after touching the live login. */
  lemma ActivateMarks(s: State, j: Job, filled: Roster)
    requires s.live.config.Good?
    ensures var b := Activate(s, j, filled);
            && (!b.ok ==> b.marks in {[], [CredsWritten], [CredsWritten, ConfigWritten]})
            && b.s.live.config.Good? && b.s.live.config.rest == s.live.config.rest
            && (b.marks == [CredsWritten] ==> OAuthOf(b.s.live) == OAuthOf(s.live))
            && (!b.ok ==> b.s.roster == s.roster)
  {
    WriteKeepsAccount(s.live, Backup(s, Key(j.target, j.targetEmail)), Draw(s).cleared);
  }

  lemma MarksAre(fp: string -> string, s: State, j: Job, p: Provenance)
    requires s.live.config.Good?
    ensures var b := Body(fp, s, j, p);
            && (!b.ok ==> b.marks in {[], [CredsWritten], [CredsWritten, ConfigWritten]})
            && b.s.live.config.Good? && b.s.live.config.rest == s.live.config.rest
            && (b.marks == [CredsWritten] ==> OAuthOf(b.s.live) == OAuthOf(s.live))
            && (!b.ok ==> b.s.roster == s.roster)
  {
    var v := Classify(fp, s, j.current, j.email, j.creds, p);
    PreserveKeepsLive(s, j, v);
    ActivateMarks(Preserve(s, j, v).s, j, Filled(s.roster, j, v, p));
  }

  lemma UndoCreds(s: State, j: Job)
    requires Rollback(s, j, [CredsWritten]).ok
    ensures var t := Rollback(s, j, [CredsWritten]).s;
            t.live == WroteActive(s.live, j.creds, Draw(s).cleared) && t.roster == s.roster
  {
    assert [CredsWritten][..0] == [];
  }

  lemma UndoBoth(s: State, j: Job)
    requires Rollback(s, j, [CredsWritten, ConfigWritten]).ok
    ensures var u := Undo(s, j, ConfigWritten).s;
            var t := Rollback(s, j, [CredsWritten, ConfigWritten]).s;
            && u.live == s.live.(config := j.config) && t.roster == s.roster
            && t.live == WroteActive(u.live, j.creds, Draw(u).cleared)
  {
    assert [CredsWritten, ConfigWritten][..1] == [CredsWritten];
    UndoCreds(Undo(s, j, ConfigWritten).s, j);
  }

  /** Where the rollback writes the outgoing credential: the config, if it had been written, is back already. */
  function BeforeRestore(fp: string -> string, s: State, j: Job, p: Provenance): State {
    var b := Body(fp, s, j, p);
    if b.marks == [CredsWritten] then b.s else Undo(b.s, j, ConfigWritten).s
  }

  /**
   A switch that failed and reports a successful rollback has put the account section and the
   roster back, and the credential exactly when writing it back reads back: when it is not blank
   and, for an API key, has no surrounding space and no file was left to shadow it.
   */
  lemma RollbackRestoresExactly(fp: string -> string, s: State, j: Job, p: Provenance)
    requires s.live.config.Good? && j.config == s.live.config && j.creds == ReadActive(s.live)
    ensures var r := NormalSwitch(fp, s, j, p);
            var u := BeforeRestore(fp, s, j, p);
            r.RolledBack? ==>
              && OAuthOf(r.s.live) == OAuthOf(s.live) && r.s.roster == s.roster
              && r.s.live.config.Good? && r.s.live.config.rest == s.live.config.rest
              && (ReadActive(r.s.live) == ReadActive(s.live) <==> ReadsBack(u.live, j.creds, Draw(u).cleared))
  {
    if NormalSwitch(fp, s, j, p).RolledBack? {
      var b := Body(fp, s, j, p);
      MarksAre(fp, s, j, p);
      var u := BeforeRestore(fp, s, j, p);
      if b.marks == [CredsWritten] { UndoCreds(b.s, j); } else { UndoBoth(b.s, j); }
      WriteReadsBackExactly(u.live, j.creds, Draw(u).cleared);
      WriteKeepsAccount(u.live, j.creds, Draw(u).cleared);
    }
  }

  const PADDED_KEY := "sk-ant-api-1 "

  /** Account 1 is live with an API key that ends in a space; the first config write will fail. */
  function PaddedState(): State {
    var mine, other := Account("a", "", ""), Account("b", "", "");
    var first, second: Slot := 1, 2;
    State(Live(None, Good(Some(mine), Some(PADDED_KEY), [], "")),
          map[Key(first, "a") := PADDED_KEY, Key(second, "b") := "x"],
          map[Key(second, "b") := Good(Some(other), None, [], "")], [],
          Roster(Some(first), [first, second],
                 map[first := Rec("a", "", "", "", "", false), second := Rec("b", "", "", "", "", false)]),
          [SMOOTH, SMOOTH, Fate(false, false, true, Missing)])
  }

  function PaddedJob(): Job {
    Job(2, "b", 1, "a", PADDED_KEY, PaddedState().live.config)
  }

  lemma PaddedBody(fp: string -> string)
    ensures var b := Body(fp, PaddedState(), PaddedJob(), Provenance(None, None));
            !b.ok && b.marks == [CredsWritten] && b.s.fates == []
  {
    var s, j := PaddedState(), PaddedJob();
    var kept := Preserve(s, j, OwnBytes);
    assert Classify(fp, s, j.current, j.email, j.creds, Provenance(None, None)) == OwnBytes;
    assert kept.ok && kept.s.live == s.live && kept.s.fates == s.fates[1..];
    PaddedActivate(kept.s);
  }

  lemma PaddedActivate(s: State)
    requires s.live == PaddedState().live && s.creds == PaddedState().creds && s.fates == PaddedState().fates[1..]
    requires ConfigBackup(s, Key(2, "b")) == ConfigBackup(PaddedState(), Key(2, "b"))
    ensures forall filled :: var b := Activate(s, PaddedJob(), filled);
              !b.ok && b.marks == [CredsWritten] && b.s.fates == []
  {
    var written := WriteActive(s, "x");
    assert !LooksLikeAPIKey("x");
    assert written.ok && written.s.fates == PaddedState().fates[2..];
    assert Spent(written.s).fates == [];
  }

  lemma PaddedKey()
    ensures LooksLikeAPIKey(PADDED_KEY) && Trim(PADDED_KEY) != PADDED_KEY
  {
    var c := PADDED_KEY;
    assert TrimLeft(c) == c;
    TrimIsProjection(c);
    assert !Trimmed(c);
    assert c[..|c| - 1] == "sk-ant-api-1";
    assert TrimRight(c) == TrimRight("sk-ant-api-1") == "sk-ant-api-1";
  }

  lemma PaddedRollsBack(fp: string -> string)
    ensures NormalSwitch(fp, PaddedState(), PaddedJob(), Provenance(None, None)).RolledBack?
    ensures Draw(BeforeRestore(fp, PaddedState(), PaddedJob(), Provenance(None, None))).cleared
  {
    PaddedBody(fp);
    assert [CredsWritten][..0] == [];
  }

  lemma PaddedIsLive()
    ensures ReadActive(PaddedState().live) == PADDED_KEY == PaddedJob().creds
    ensures PaddedState().live.config.Good? && PaddedJob().config == PaddedState().live.config
  {
  }

  /** A key that is not trimmed does not come back from a rollback that could clear the other axis. */
  lemma UntrimmedIsAltered(fp: string -> string, s: State, j: Job, p: Provenance)
    requires s.live.config.Good? && j.config == s.live.config && j.creds == ReadActive(s.live)
    requires NormalSwitch(fp, s, j, p).RolledBack? && Draw(BeforeRestore(fp, s, j, p)).cleared
    requires LooksLikeAPIKey(j.creds) && Trim(j.creds) != j.creds
    ensures ReadActive(NormalSwitch(fp, s, j, p).s.live) != ReadActive(s.live)
  {
    RollbackRestoresExactly(fp, s, j, p);
  }

  /** A rolled-back switch that changed the live credential: an API key stored with a trailing space. */
  lemma RollbackCanAlterAKey(fp: string -> string) returns (s: State, j: Job, p: Provenance)
    ensures s.live.config.Good? && j.config == s.live.config && j.creds == ReadActive(s.live) == PADDED_KEY
    ensures NormalSwitch(fp, s, j, p).RolledBack?
    ensures ReadActive(NormalSwitch(fp, s, j, p).s.live) != ReadActive(s.live)
  {
    s, j, p := PaddedState(), PaddedJob(), Provenance(None, None);
    PaddedIsLive();
    PaddedKey();
    PaddedRollsBack(fp);
    UntrimmedIsAltered(fp, s, j, p);
  }

  // ---- success ------------------------------------------------------------------------

  /** A reported switch shows the target's account and records it, and reads its credential exactly when that reads back. */
  lemma SwitchActivatesTheTarget(fp: string -> string, s: State, j: Job, p: Provenance)
    requires NormalSwitch(fp, s, j, p).Switched?
    ensures var t := NormalSwitch(fp, s, j, p).s;
            var k := Key(j.target, j.targetEmail);
            var step1 := Preserve(s, j, Classify(fp, s, j.current, j.email, j.creds, p)).s;
            && Backup(t, k) != ""
            && (ReadActive(t.live) == Backup(t, k) <==> ReadsBack(s.live, Backup(t, k), Draw(step1).cleared))
            && ConfigBackup(t, k).Good? && OAuthOf(t.live) == ConfigBackup(t, k).oauth
            && t.live.config.Good? && (s.live.config.Good? ==> t.live.config.rest == s.live.config.rest)
            && t.roster.active == Some(j.target)
  {
    var v := Classify(fp, s, j.current, j.email, j.creds, p);
    PreserveKeepsLive(s, j, v);
    ActivatesTheTarget(Preserve(s, j, v).s, j, Filled(s.roster, j, v, p));
  }

  lemma ActivatesTheTarget(s: State, j: Job, filled: Roster)
    requires Activate(s, j, filled).ok
    ensures var t := Activate(s, j, filled).s;
            var k := Key(j.target, j.targetEmail);
            && t.creds == s.creds && t.configs == s.configs
            && Backup(t, k) != ""
            && (ReadActive(t.live) == Backup(t, k) <==> ReadsBack(s.live, Backup(t, k), Draw(s).cleared))
            && ConfigBackup(t, k).Good? && OAuthOf(t.live) == ConfigBackup(t, k).oauth
            && t.live.config.Good? && (s.live.config.Good? ==> t.live.config.rest == s.live.config.rest)
            && t.roster == filled.(active := Some(j.target))
  {
    var k := Key(j.target, j.targetEmail);
    WriteKeepsAccount(s.live, Backup(s, k), Draw(s).cleared);
    ActivatedLive(s, j, filled);
    WriteReadsBackExactly(s.live, Backup(s, k), Draw(s).cleared);
    var w := WroteActive(s.live, Backup(s, k), Draw(s).cleared);
    assert ReadActive(w.(config := w.config.(oauth := ConfigBackup(s, k).oauth))) == ReadActive(w);
  }

  lemma ActivatedLive(s: State, j: Job, filled: Roster)
    requires Activate(s, j, filled).ok
    ensures var t := Activate(s, j, filled).s;
            var k := Key(j.target, j.targetEmail);
            var w := WroteActive(s.live, Backup(s, k), Draw(s).cleared);
            && t.creds == s.creds && t.configs == s.configs && Backup(s, k) != ""
            && ConfigBackup(s, k).Good? && w.config.Good?
            && t.live == w.(config := w.config.(oauth := ConfigBackup(s, k).oauth))
            && t.roster == filled.(active := Some(j.target))
  {
  }

  /** The roster it commits is the one the roster model gives for a switch. */
  lemma SwitchCommitsItsSpan(fp: string -> string, s: State, j: Job, p: Provenance)
    requires j.target in s.roster.accounts && NormalSwitch(fp, s, j, p).Switched?
    ensures var v := Classify(fp, s, j.current, j.email, j.creds, p);
            var uuid := if v.OwnRotated? && p.resolved.Some? then p.resolved.value.uuid else "";
            Spans.SwitchSpan(s.roster, j.target, j.current, uuid) == Spans.Span.Commit([NormalSwitch(fp, s, j, p).s.roster])
  {
    var v := Classify(fp, s, j.current, j.email, j.creds, p);
    ActivatesTheTarget(Preserve(s, j, v).s, j, Filled(s.roster, j, v, p));
  }

  // ---- the ownership oracle -------------------------------------------------------------

  lemma {:induction false} ScanUUIDFinds(r: Roster, slots: seq<Slot>, uuid: string, org: string)
    ensures ScanUUID(r, slots, uuid, org).Some? ==> CarriesUUID(r, ScanUUID(r, slots, uuid, org).value, uuid, org)
  {
    if slots != [] { ScanUUIDFinds(r, slots[1..], uuid, org); }
  }

  lemma ConflictIsNeverOwn(r: Roster, current: Slot, id: Identity)
    requires current in r.accounts
    requires Trim(id.uuid) != "" && Trim(r.accounts[current].uuid) != "" && Trim(r.accounts[current].uuid) != Trim(id.uuid)
    ensures Attribute(r, id) != Some(current) && !OwnUUID(r, current, id)
  {
    ScanUUIDFinds(r, ScanOrder(r), Trim(id.uuid), id.org);
    TrimTwice(id.uuid);
  }

  /** The endpoint answered for exactly the live bytes, with a complete identity that is not the outgoing slot's. */
  predicate ProvenForeign(fp: string -> string, s: State, j: Job, p: Provenance) {
    && j.current in s.roster.accounts
    && p.live == Some(j.creds) && p.resolved.Some?
    && p.resolved.value.email != "" && p.resolved.value.org != "" && Trim(p.resolved.value.uuid) != ""
    && Trim(s.roster.accounts[j.current].uuid) != ""
    && Trim(s.roster.accounts[j.current].uuid) != Trim(p.resolved.value.uuid)
    && !SameLineage(fp, Backup(s, Key(j.current, j.email)), j.creds)
  }

  lemma ProvenForeignVerdict(fp: string -> string, s: State, j: Job, p: Provenance)
    requires ProvenForeign(fp, s, j, p)
    ensures var v := Classify(fp, s, j.current, j.email, j.creds, p);
            v.Alien? || v.Foreign? || v.ForeignSynced?
  {
    var id := p.resolved.value;
    ConflictIsNeverOwn(s.roster, j.current, id);
    ClassifyOtherIsForeign(fp, s, j.current, j.creds, id);
    assert Classify(fp, s, j.current, j.email, j.creds, p) == ClassifyOther(fp, s, j.current, j.creds, id);
  }

  lemma ClassifyOtherIsForeign(fp: string -> string, s: State, current: Slot, live: string, id: Identity)
    requires Attribute(s.roster, id) != Some(current) && id.email != "" && id.org != ""
    ensures var v := ClassifyOther(fp, s, current, live, id);
            v.Alien? || v.Foreign? || v.ForeignSynced?
  {
  }

  lemma BodyKeepsBackups(fp: string -> string, s: State, j: Job, p: Provenance)
    requires var v := Classify(fp, s, j.current, j.email, j.creds, p); v.Alien? || v.Foreign? || v.ForeignSynced?
    ensures Body(fp, s, j, p).s.creds == s.creds
  {
    var v := Classify(fp, s, j.current, j.email, j.creds, p);
    var step1 := Preserve(s, j, v);
    assert step1.s.creds == s.creds;
    FilledKeepsSlots(s.roster, j, v, p);
    PreserveKeepsLive(s, j, v);
    ActivateKeepsCopies(step1.s, j, Filled(s.roster, j, v, p));
  }

  /** Bytes proved to be somebody else's are written into no slot, however the switch ends. */
  lemma ForeignBytesEnterNoSlot(fp: string -> string, s: State, j: Job, p: Provenance)
    requires ProvenForeign(fp, s, j, p)
    ensures NormalSwitch(fp, s, j, p).s.creds == s.creds
  {
    ProvenForeignVerdict(fp, s, j, p);
    BodyKeepsBackups(fp, s, j, p);
    var b := Body(fp, s, j, p);
    RollbackKeepsCopies(b.s, j, b.marks);
  }

  /** A cross-slot verdict always names another managed slot that carries the resolved uuid. */
  lemma ForeignNamesTheOwner(fp: string -> string, s: State, j: Job, p: Provenance)
    ensures var v := Classify(fp, s, j.current, j.email, j.creds, p);
            v.Foreign? || v.ForeignSynced? ==>
              && v.slot != j.current && v.slot in s.roster.accounts
              && p.resolved.Some? && p.live == Some(j.creds)
              && Trim(p.resolved.value.uuid) != ""
              && Trim(s.roster.accounts[v.slot].uuid) == Trim(p.resolved.value.uuid)
  {
    var v := Classify(fp, s, j.current, j.email, j.creds, p);
    if v.Foreign? || v.ForeignSynced? {
      assert v == ClassifyOther(fp, s, j.current, j.creds, p.resolved.value);
      OtherNamesTheOwner(fp, s, j.current, j.creds, p.resolved.value);
    }
  }

  lemma OtherNamesTheOwner(fp: string -> string, s: State, current: Slot, live: string, id: Identity)
    ensures var v := ClassifyOther(fp, s, current, live, id);
            v.Foreign? || v.ForeignSynced? ==>
              && v.slot != current && v.slot in s.roster.accounts
              && Trim(id.uuid) != "" && Trim(s.roster.accounts[v.slot].uuid) == Trim(id.uuid)
  {
    AttributedNamesTheOwner(fp, s, current, live, id, Attribute(s.roster, id));
  }

  lemma AttributedNamesTheOwner(fp: string -> string, s: State, current: Slot, live: string, id: Identity,
                                owner: Option<Slot>)
    ensures var v := ClassifyAttributed(fp, s, current, live, id, owner);
            v.Foreign? || v.ForeignSynced? ==>
              && v.slot != current && v.slot in s.roster.accounts
              && Trim(id.uuid) != "" && Trim(s.roster.accounts[v.slot].uuid) == Trim(id.uuid)
  {
  }

  lemma UnresolvedIsOwn(fp: string -> string, s: State, j: Job, p: Provenance)
    requires p.resolved.None? || p.live != Some(j.creds)
    ensures Classify(fp, s, j.current, j.email, j.creds, p) in {OwnBytes, OwnFamily, Unresolved}
  {
  }

  lemma OwnIsBackedUp(fp: string -> string, s: State, j: Job, p: Provenance)
    requires Classify(fp, s, j.current, j.email, j.creds, p) in {OwnBytes, OwnFamily, Unresolved} && j.creds != ""
    requires Preserve(s, j, Classify(fp, s, j.current, j.email, j.creds, p)).ok
    ensures Backup(Preserve(s, j, Classify(fp, s, j.current, j.email, j.creds, p)).s, Key(j.current, j.email)) == j.creds
  {
  }

  /** Without a trustworthy resolution the oracle never withholds a backup from the outgoing slot. */
  lemma OracleFailsOpen(fp: string -> string, s: State, j: Job, p: Provenance)
    requires p.resolved.None? || p.live != Some(j.creds)
    ensures NormalSwitch(fp, s, j, p).Switched? && j.creds != "" ==>
              Backup(NormalSwitch(fp, s, j, p).s, Key(j.current, j.email)) == j.creds
  {
    var v := Classify(fp, s, j.current, j.email, j.creds, p);
    var step1 := Preserve(s, j, v);
    UnresolvedIsOwn(fp, s, j, p);
    FilledKeepsSlots(s.roster, j, v, p);
    PreserveKeepsLive(s, j, v);
    if step1.ok && j.creds != "" {
      OwnIsBackedUp(fp, s, j, p);
      ActivateKeepsCopies(step1.s, j, Filled(s.roster, j, v, p));
    }
  }

  lemma AttributedIsOwn(fp: string -> string, s: State, current: Slot, live: string, id: Identity, owner: Option<Slot>)
    ensures ClassifyAttributed(fp, s, current, live, id, owner).OwnRotated? ==> owner == Some(current)
  {
  }

  lemma RotatedIsAttributed(fp: string -> string, s: State, j: Job, p: Provenance)
    requires Classify(fp, s, j.current, j.email, j.creds, p).OwnRotated?
    ensures p.resolved.Some?
    ensures OwnUUID(s.roster, j.current, p.resolved.value) || Attribute(s.roster, p.resolved.value) == Some(j.current)
  {
    if p.resolved.Some? {
      AttributedIsOwn(fp, s, j.current, j.creds, p.resolved.value, Attribute(s.roster, p.resolved.value));
    }
  }

  /** The oracle calls a rotated credential the slot's own only when no recorded uuid says otherwise. */
  lemma OwnIsNeverContradicted(fp: string -> string, s: State, j: Job, p: Provenance)
    requires j.current in s.roster.accounts && p.resolved.Some?
    ensures Classify(fp, s, j.current, j.email, j.creds, p).OwnRotated? ==>
              var recorded, named := Trim(s.roster.accounts[j.current].uuid), Trim(p.resolved.value.uuid);
              recorded == "" || named == "" || recorded == named
  {
    var id := p.resolved.value;
    var recorded, named := Trim(s.roster.accounts[j.current].uuid), Trim(id.uuid);
    if Classify(fp, s, j.current, j.email, j.creds, p).OwnRotated? {
      RotatedIsAttributed(fp, s, j, p);
      if recorded != "" && named != "" && recorded != named { ConflictIsNeverOwn(s.roster, j.current, id); }
    }
  }

  // ---- direct activation --------------------------------------------------------------------

  /** A config that holds anything else keeps it. */
  predicate KeepsRest(before: Config, after: Config) {
    before.Good? && before.rest != "" ==> after.Good? && after.rest == before.rest
  }

  /** A blank credential is skipped by the read, which then shows the key of the config that was left. */
  predicate InstallReadsBack(l: Live, creds: string, config: Config, cleared: bool)
    requires config.Good?
  {
    if Trim(creds) != "" then ReadsBack(l, creds, cleared)
    else creds == ManagedKey(Live(None, Spliced(WroteOAuth(l, creds, cleared).config, config)))
  }

  /**
   A direct activation that succeeds shows the target's account and records it, and reads its
   credential exactly when that reads back; a blank one does when it equals the key left in the config.
   */
  lemma DirectSwitchActivates(s: State, target: Slot, forced: bool)
    requires target in s.roster.accounts
    ensures var r := DirectSwitch(s, target, forced);
            var k := Key(target, s.roster.accounts[target].email);
            var d := Displace(s, Backup(s, k), forced).s;
            r.Switched? ==>
              && ConfigBackup(s, k).Good? && OAuthOf(r.s.live) == ConfigBackup(s, k).oauth
              && KeepsRest(s.live.config, r.s.live.config)
              && (ReadActive(r.s.live) == Backup(s, k)
                  <==> InstallReadsBack(s.live, Backup(s, k), ConfigBackup(s, k), Draw(d).cleared))
              && r.s.roster == s.roster.(active := Some(target))
  {
    var k := Key(target, s.roster.accounts[target].email);
    var d := Displace(s, Backup(s, k), forced);
    assert d.s.live == s.live && d.s.roster == s.roster;
    if ConfigBackup(s, k).Good? { InstallActivates(d.s, target, Backup(s, k), ConfigBackup(s, k)); }
  }

  lemma InstallActivates(s: State, target: Slot, creds: string, config: Config)
    requires config.Good?
    ensures var r := Install(s, target, creds, config);
            r.Switched? ==>
              && OAuthOf(r.s.live) == config.oauth && r.s.roster == s.roster.(active := Some(target))
              && KeepsRest(s.live.config, r.s.live.config)
              && (ReadActive(r.s.live) == creds <==> InstallReadsBack(s.live, creds, config, Draw(s).cleared))
  {
    var l := WroteActive(s.live, creds, Draw(s).cleared);
    WriteKeepsAccount(s.live, creds, Draw(s).cleared);
    SplicingKeepsTheKey(s.live, creds, config, Draw(s).cleared);
    assert Install(s, target, creds, config).Switched? ==>
        Install(s, target, creds, config).s.live == l.(config := Spliced(l.config, config));
  }

  /** Splicing the target's account into the config leaves a credential just written as readable as it was. */
  lemma SplicingKeepsTheKey(l: Live, creds: string, config: Config, cleared: bool)
    requires config.Good?
    ensures var w := WroteActive(l, creds, cleared);
            var after := w.(config := Spliced(w.config, config));
            ReadActive(after) == creds <==> InstallReadsBack(l, creds, config, cleared)
  {
    WriteReadsBackExactly(l, creds, cleared);
    TrimTwice(creds);
    assert LooksLikeAPIKey(creds) ==> Trim(creds) != "";
  }

  /** Where the undoing of an activation writes the old credential back. */
  function BeforePutBack(s: State, target: Slot, creds: string, config: Config): State
    requires config.Good?
  {
    var a := WriteActive(s, creds);
    var b := WriteConfig(a.s, Spliced(a.s.live.config, config));
    if b.ok then WriteConfig(WriteRoster(b.s, s.roster.(active := Some(target))).s, s.live.config).s else b.s
  }

  lemma PutBackRestores(s: State, was: Live, configWritten: bool)
    requires was.config.Good?
    requires !configWritten ==> OAuthOf(s.live) == OAuthOf(was) && s.live.config.Good?
    ensures var r := PutBack(s, was, configWritten);
            var u := if configWritten then WriteConfig(s, was.config).s else s;
            r.RolledBack? ==>
              && OAuthOf(r.s.live) == OAuthOf(was) && r.s.roster == s.roster
              && (ReadActive(r.s.live) == ReadActive(was) <==> ReadsBack(u.live, ReadActive(was), Draw(u).cleared))
  {
    var u := if configWritten then WriteConfig(s, was.config) else Res(true, s);
    WriteReadsBackExactly(u.s.live, ReadActive(was), Draw(u.s).cleared);
    WriteKeepsAccount(u.s.live, ReadActive(was), Draw(u.s).cleared);
  }

  /** A failed activation that was undone has the account and the roster back, and exactly a credential that reads back. */
  lemma DirectRollbackRestores(s: State, target: Slot, forced: bool)
    requires target in s.roster.accounts && DirectSwitch(s, target, forced).RolledBack?
    ensures var r := DirectSwitch(s, target, forced);
            var k := Key(target, s.roster.accounts[target].email);
            && OAuthOf(r.s.live) == OAuthOf(s.live) && r.s.roster == s.roster
            && ConfigBackup(s, k).Good?
            && var u := BeforePutBack(Displace(s, Backup(s, k), forced).s, target, Backup(s, k), ConfigBackup(s, k));
               (ReadActive(r.s.live) == ReadActive(s.live) <==> ReadsBack(u.live, ReadActive(s.live), Draw(u).cleared))
  {
    var k := Key(target, s.roster.accounts[target].email);
    var d := Displace(s, Backup(s, k), forced);
    assert d.s.live == s.live && d.s.roster == s.roster;
    InstallUndone(d.s, target, Backup(s, k), ConfigBackup(s, k));
  }

  lemma InstallUndone(s: State, target: Slot, creds: string, config: Config)
    requires config.Good? && Install(s, target, creds, config).RolledBack?
    ensures var r := Install(s, target, creds, config);
            var u := BeforePutBack(s, target, creds, config);
            && OAuthOf(r.s.live) == OAuthOf(s.live) && r.s.roster == s.roster
            && (ReadActive(r.s.live) == ReadActive(s.live) <==> ReadsBack(u.live, ReadActive(s.live), Draw(u).cleared))
  {
    var a := WriteActive(s, creds);
    WriteKeepsAccount(s.live, creds, Draw(s).cleared);
    var b := WriteConfig(a.s, Spliced(a.s.live.config, config));
    var c := if b.ok then WriteRoster(b.s, s.roster.(active := Some(target))) else b;
    assert Install(s, target, creds, config) == PutBack(c.s, s.live, b.ok);
    PutBackRestores(c.s, s.live, b.ok);
  }

  // ---- either path ----------------------------------------------------------------------------

  /** Whatever else fails, a switch that was undone has a non-blank OAuth login back, with its account and the roster. */
  lemma OAuthLoginsComeBack(fp: string -> string, s: State, target: Slot, forced: bool, p: Provenance)
    requires PerformSwitch(fp, s, target, forced, p).RolledBack?
    requires Trim(ReadActive(s.live)) != "" && !LooksLikeAPIKey(ReadActive(s.live))
    ensures var r := PerformSwitch(fp, s, target, forced, p);
            && ReadActive(r.s.live) == ReadActive(s.live)
            && OAuthOf(r.s.live) == OAuthOf(s.live) && r.s.roster == s.roster
  {
    var current := if HasIdentity(s.live)
                   then FindSlot(s.roster, OAuthOf(s.live).value.email, OAuthOf(s.live).value.org)
                   else s.roster.active;
    if forced || !HasIdentity(s.live) || current.None? {
      DirectRollbackRestores(s, target, forced);
    } else {
      RollbackRestoresExactly(fp, s, JobOf(s, target, current.value), p);
    }
  }
}
