/**
 Moving and swapping slots: what the locked bodies do to the store, step by step.

 The order of staging, writes, commit and clean-up is the source's. The session-profile
 directories that the source also shuffles, best-effort, are not modelled.
 */
module MoveSwap {
  import opened Basics
  import opened Rosters
  import opened SlotStore
  import opened StoreSteps

  /** What a swap has read before it writes anything. */
  datatype Plan = Plan(a: Slot, b: Slot, ea: string, eb: string, ma: Material, mb: Material,
                       before: Roster, after: Roster) {
    function OldA(): Key { Key(a, ea) }

    function OldB(): Key { Key(b, eb) }

    function NewA(): Key { Key(b, ea) }

    function NewB(): Key { Key(a, eb) }

    /** With one email for both, each account's new key is the other's old key. */
    predicate Overlap() { ea == eb }
  }

  predicate Swappable(d: Disk, a: Slot, b: Slot) {
    a != b && a in d.roster.accounts && b in d.roster.accounts
  }

  function PlanOf(d: Disk, a: Slot, b: Slot): Plan
    requires Swappable(d, a, b)
  {
    Plan(a, b, d.roster.accounts[a].email, d.roster.accounts[b].email,
         MaterialAt(d, KeyOf(d.roster, a)), MaterialAt(d, KeyOf(d.roster, b)),
         d.roster, Exchange(d.roster, a, b))
  }

  // ---- staging --------------------------------------------------------------------

  datatype Item = Item(name: StageName, text: string)

  function Items(p: Plan): seq<Item> {
    [Item(CredsOf(p.a), p.ma.creds), Item(ConfigOf(p.a), p.ma.config),
     Item(CredsOf(p.b), p.mb.creds), Item(ConfigOf(p.b), p.mb.config)]
  }

  datatype Staged = Staged(ok: bool, names: seq<StageName>, w: World)

  function Unstages(names: seq<StageName>): seq<Step> {
    seq(|names|, i requires 0 <= i < |names| => Unstage(names[i]))
  }

  function Discard(w: World, names: seq<StageName>): World {
    ExecAll(w, Unstages(names)).w
  }

  /** Copies each non-empty item aside. A leftover of an interrupted swap is never overwritten. */
  function StageAll(w: World, items: seq<Item>, names: seq<StageName>): Staged
    decreases |items|
  {
    if items == [] then Staged(true, names, w)
    else if items[0].text == "" then StageAll(w, items[1..], names)
    else if items[0].name in w.disk.staging then Staged(false, [], Discard(w, names))
    else
      var d := PutStage(w, items[0].name, items[0].text);
      if d.ok then StageAll(d.w, items[1..], names + [items[0].name])
      else Staged(false, [], Discard(d.w, names))
  }

  // ---- swap -----------------------------------------------------------------------

  function Copies(p: Plan): seq<Step> {
    [SetCreds(p.NewA(), p.ma.creds), SetConfig(p.NewA(), p.ma.config),
     SetCreds(p.NewB(), p.mb.creds), SetConfig(p.NewB(), p.mb.config)]
  }

  /** Puts one original back; what was empty is cleared only where the other account may have written. */
  function Restore(p: Plan, step: Step): seq<Step>
    requires step.SetCreds? || step.SetConfig?
  {
    if step.text != "" || p.Overlap() then [step] else []
  }

  function Restores(p: Plan): seq<Step> {
    Restore(p, SetCreds(p.OldA(), p.ma.creds)) + Restore(p, SetConfig(p.OldA(), p.ma.config))
    + Restore(p, SetCreds(p.OldB(), p.mb.creds)) + Restore(p, SetConfig(p.OldB(), p.mb.config))
  }

  function Strays(p: Plan): seq<Step> {
    if p.Overlap() then []
    else [SweepCreds(p.NewA()), SetConfig(p.NewA(), ""), SweepCreds(p.NewB()), SetConfig(p.NewB(), "")]
  }

  /** How a command ended: whether it reports success, and how many rollback steps failed. */
  datatype Ended = Ended(ok: bool, failures: nat, w: World)

  function Rollback(w: World, p: Plan, names: seq<StageName>): Ended {
    var t := ExecAll(w, Restores(p));
    var u := ExecAll(t.w, Strays(p));
    var failures := t.failures + u.failures;
    Ended(false, failures, if failures == 0 then Discard(u.w, names) else u.w)
  }

  function Retire(k: Key): seq<Step> {
    [Guard, SweepCreds(k), SetConfig(k, "")]
  }

  function Tidy(w: World, p: Plan): World {
    if p.Overlap() then w
    else Exec(Exec(w, Retire(p.OldA())).w, Retire(p.OldB())).w
  }

  function SwapRun(w: World, p: Plan): Ended {
    var st := if p.Overlap() then StageAll(w, Items(p), []) else Staged(true, [], w);
    if !st.ok then Rollback(st.w, p, [])
    else
      var d := Exec(st.w, Copies(p));
      if !d.ok then Rollback(d.w, p, st.names)
      else
        var c := Apply(d.w, CommitTo(p.after));
        if !c.ok then Rollback(c.w, p, st.names)
        else Ended(true, 0, Discard(Tidy(c.w, p), st.names))
  }

  function Swap(w: World, a: Slot, b: Slot): Ended
    requires Swappable(w.disk, a, b)
  {
    var g := Exec(w, [Guard, Guard]);
    if g.ok then SwapRun(g.w, PlanOf(w.disk, a, b)) else Ended(false, 0, g.w)
  }

  // ---- move -----------------------------------------------------------------------

  predicate Movable(d: Disk, src: Slot, target: Slot) {
    src in d.roster.accounts && target !in d.roster.accounts
  }

  function MoveCopies(target: Key, m: Material): seq<Step> {
    [SetCreds(target, m.creds), SetConfig(target, m.config)]
  }

  function Relocate(w: World, src: Slot, target: Slot): Ended
    requires Movable(w.disk, src, target)
  {
    var g := Exec(w, [Guard]);
    if !g.ok then Ended(false, 0, g.w)
    else
      var from := KeyOf(w.disk.roster, src);
      var to := Key(target, from.email);
      var d := Exec(g.w, MoveCopies(to, MaterialAt(w.disk, from)));
      var c := if d.ok then Apply(d.w, CommitTo(Renumber(w.disk.roster, src, target))) else d;
      if c.ok then Ended(true, 0, Exec(c.w, Retire(from)).w)
      else
        var t := ExecAll(c.w, [SweepCreds(to), SetConfig(to, "")]);
        Ended(false, t.failures, t.w)
  }
}
