/**
 What the engine remembers between ticks, told from the readings alone: how long the active token
 has been expired, how many ticks in a row could not read it, and so exactly when it fails over.
 */
module UnreadableStreaks {
  import opened Basics
  import opened AutoSwitch
  import opened AutoSwitchTheorems
  import opened AutoSwitchProgress

  // ---- one tick -----------------------------------------------------------------------------

  lemma {:induction false} TryKeepsIdleSince(fp: string -> string, s: Sys, ordered: seq<Slot>, trigger: Trigger,
                                             i: Inputs, settings: Settings, failed: bool)
    ensures Try(fp, s, ordered, trigger, i, settings, failed).sys.idleSince == s.idleSince
    decreases |ordered|
  {
    if ordered != [] {
      var f := Freshen(s, ordered[0], ChanceOf(i, ordered[0]));
      FreshenIsLocal(s, ordered[0], ChanceOf(i, ordered[0]));
      TryUnfolds(fp, s, ordered, trigger, i, settings, failed);
      if GoesOn(f, ChanceOf(i, ordered[0])) {
        TryKeepsIdleSince(fp, NextSys(fp, f, ordered[0]), ordered[1..], trigger, i, settings, failed || f.status == Transient);
      }
    }
  }

  /** A tick remembers what its decision did. */
  lemma TickRemembers(fp: string -> string, b: Beat, settings: Settings)
    requires b.input.releases && Watched(b.before, settings)
    ensures var t, d := Tick(fp, b.before, b.input, settings).sys, Chosen(fp, b.before, b.input, settings).sys;
            t.unhealthy == d.unhealthy && t.idleSince == d.idleSince
  {
    var d := Chosen(fp, b.before, b.input, settings);
    if d.Go? {
      TickTries(fp, b.before, b.input, settings);
      var ordered := Ordered(d.sys, b.before.current.value, b.input, d.trigger, settings);
      TryKeepsCount(fp, d.sys, ordered, d.trigger, b.input, settings, false);
      TryKeepsIdleSince(fp, d.sys, ordered, d.trigger, b.input, settings, false);
    }
  }

  /** The memory after a tick, from the one before it. */
  lemma TickMemory(fp: string -> string, b: Beat, settings: Settings)
    requires b.input.releases && Watched(b.before, settings)
    ensures var t, r := Tick(fp, b.before, b.input, settings).sys, ReadingOf(b.input, b.before.current.value);
            && t.idleSince == (if !r.Expired? then None
                               else if b.before.idleSince.Some? then b.before.idleSince else Some(b.input.now))
            && t.unhealthy == if Unreadable(b.before, b.input, b.before.current.value)
                              then b.before.unhealthy + 1 else 0
  {
    TickRemembers(fp, b, settings);
    ReleasedBars(fp, b.before, b.before.current.value);
  }

  // ---- a run of ticks ---------------------------------------------------------------------------

  /** The ticks of one engine from its start; its memory carries over, and everything else may change in between. */
  ghost predicate Ticks(fp: string -> string, run: seq<Beat>, settings: Settings) {
    && (forall k :: 0 <= k < |run| ==> run[k].input.releases && Watched(run[k].before, settings))
    && (run != [] ==> run[0].before.unhealthy == 0 && run[0].before.idleSince.None?)
    && forall k, m :: 0 <= k < |run| && m == k + 1 && m < |run| ==>
         var t := Tick(fp, run[k].before, run[k].input, settings).sys;
         run[m].before.unhealthy == t.unhealthy && run[m].before.idleSince == t.idleSince
  }

  function Read(b: Beat): Reading
    requires b.before.current.Some?
  {
    ReadingOf(b.input, b.before.current.value)
  }

  /** The token is found expired in every tick from `a` to `k`, and was not before. */
  ghost predicate ExpiredFrom(run: seq<Beat>, a: nat, k: nat)
    requires k < |run| && forall m :: 0 <= m < |run| ==> run[m].before.current.Some?
  {
    && a <= k && (forall m :: a <= m <= k ==> Read(run[m]).Expired?)
    && (a > 0 ==> !Read(run[a - 1]).Expired?)
  }

  /** The token has been expired for no more than half an hour: an idle session. */
  ghost predicate Idle(run: seq<Beat>, k: nat)
    requires k < |run| && forall m :: 0 <= m < |run| ==> run[m].before.current.Some?
  {
    exists a: nat :: ExpiredFrom(run, a, k) && run[k].input.now - run[a].input.now <= IDLE_HOLD_MAX
  }

  /** The account could not be read, and not because its session is idle. */
  ghost predicate Missed(run: seq<Beat>, k: nat)
    requires k < |run| && forall m :: 0 <= m < |run| ==> run[m].before.current.Some?
  {
    Read(run[k]).Unknown? || (Read(run[k]).Expired? && !Idle(run, k))
  }

  /** Every tick from `a` to `k` missed, and the one before `a` did not. */
  ghost predicate MissedFrom(run: seq<Beat>, a: nat, k: nat)
    requires k < |run| && forall m :: 0 <= m < |run| ==> run[m].before.current.Some?
  {
    a <= k && (forall m :: a <= m <= k ==> Missed(run, m)) && (a > 0 ==> !Missed(run, a - 1))
  }

  lemma {:induction false} ExpiryBegan(run: seq<Beat>, k: nat) returns (a: nat)
    requires k < |run| && (forall m :: 0 <= m < |run| ==> run[m].before.current.Some?) && Read(run[k]).Expired?
    ensures ExpiredFrom(run, a, k)
  {
    if k > 0 && Read(run[k - 1]).Expired? { a := ExpiryBegan(run, k - 1); } else { a := k; }
  }

  lemma ExpiryBeganOnce(run: seq<Beat>, a: nat, b: nat, k: nat)
    requires k < |run| && forall m :: 0 <= m < |run| ==> run[m].before.current.Some?
    requires ExpiredFrom(run, a, k) && ExpiredFrom(run, b, k)
    ensures a == b
  {
  }

  /** The engine remembers exactly the first of the ticks that found the token expired. */
  lemma {:induction false} SinceExactly(fp: string -> string, run: seq<Beat>, settings: Settings, a: nat, k: nat)
    requires Ticks(fp, run, settings) && k < |run|
    ensures var t := Tick(fp, run[k].before, run[k].input, settings).sys;
            && (!Read(run[k]).Expired? ==> t.idleSince.None?)
            && (ExpiredFrom(run, a, k) ==> t.idleSince == Some(run[a].input.now))
  {
    TickMemory(fp, run[k], settings);
    if k > 0 { SinceExactly(fp, run, settings, a, k - 1); }
  }

  lemma IdleSinceItBegan(run: seq<Beat>, a: nat, k: nat)
    requires k < |run| && forall m :: 0 <= m < |run| ==> run[m].before.current.Some?
    requires ExpiredFrom(run, a, k)
    ensures Idle(run, k) <==> run[k].input.now - run[a].input.now <= IDLE_HOLD_MAX
  {
    forall b: nat | ExpiredFrom(run, b, k) ensures b == a { ExpiryBeganOnce(run, a, b, k); }
  }

  /** What a tick that finds the token expired has been left by the one before. */
  lemma SinceBefore(fp: string -> string, run: seq<Beat>, settings: Settings, a: nat, k: nat)
    requires Ticks(fp, run, settings) && k < |run| && ExpiredFrom(run, a, k)
    ensures run[k].before.idleSince == if a < k then Some(run[a].input.now) else None
  {
    if k > 0 {
      SinceExactly(fp, run, settings, a, k - 1);
      assert a < k ==> ExpiredFrom(run, a, k - 1);
    }
  }

  /** What the engine takes for unreadable, it has missed. */
  lemma UnreadableIsMissed(fp: string -> string, run: seq<Beat>, settings: Settings, k: nat)
    requires Ticks(fp, run, settings) && k < |run|
    ensures Unreadable(run[k].before, run[k].input, run[k].before.current.value) <==> Missed(run, k)
  {
    if Read(run[k]).Expired? {
      var a := ExpiryBegan(run, k);
      IdleSinceItBegan(run, a, k);
      SinceBefore(fp, run, settings, a, k);
    }
  }

  /** The engine's count is exactly the number of ticks missed in a row, the last one included. */
  lemma {:induction false} CountExactly(fp: string -> string, run: seq<Beat>, settings: Settings, a: nat, k: nat)
    requires Ticks(fp, run, settings) && k < |run|
    ensures var t := Tick(fp, run[k].before, run[k].input, settings).sys;
            && (!Missed(run, k) ==> t.unhealthy == 0)
            && (MissedFrom(run, a, k) ==> t.unhealthy == k - a + 1)
  {
    TickMemory(fp, run[k], settings);
    UnreadableIsMissed(fp, run, settings, k);
    if k > 0 { CountExactly(fp, run, settings, a, k - 1); }
  }

  /**
   When nothing is refused, a tick fails over exactly if it ends a row of as many missed ticks as the
   settings ask for, and somebody can take over.
   */
  lemma FailoverExactly(fp: string -> string, run: seq<Beat>, settings: Settings, k: nat)
    requires Ticks(fp, run, settings) && k < |run|
    requires NothingRefused(run[k].input) && NoRepeats(run[k].input.switchable)
    ensures var b := run[k];
            var t := Tick(fp, b.before, b.input, settings);
            ((t.moved.Some? && t.moved.value.1 == Failover)
             <==> (exists a: nat :: MissedFrom(run, a, k) && settings.unhealthyTicks <= k - a + 1)
                  && CanTakeOver(fp, b.before, b.input, settings, Failover))
  {
    var b := run[k];
    TickMovesExactly(fp, b.before, b.input, settings, Failover);
    UnreadableIsMissed(fp, run, settings, k);
    TickMemory(fp, b, settings);
    if Missed(run, k) {
      var a := RowBegan(run, k);
      CountExactly(fp, run, settings, a, k);
      forall c: nat | MissedFrom(run, c, k) ensures c == a {
        CountExactly(fp, run, settings, c, k);
      }
    }
  }

  lemma {:induction false} RowBegan(run: seq<Beat>, k: nat) returns (a: nat)
    requires k < |run| && (forall m :: 0 <= m < |run| ==> run[m].before.current.Some?) && Missed(run, k)
    ensures MissedFrom(run, a, k)
  {
    if k > 0 && Missed(run, k - 1) { a := RowBegan(run, k - 1); } else { a := k; }
  }
}
