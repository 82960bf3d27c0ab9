/**
 From rate-limit windows to the two numbers the switcher ranks by. Percentages are reals, and a
 window's reset time is an epoch if its text parses.
 */
module UsageWindows {
  import opened Basics

  datatype Window = Window(pct: real, resetsAt: Option<real>)

  datatype Scoped = Scoped(name: string, window: Window)

  datatype Usage = Usage(fiveHour: Option<Window>, sevenDay: Option<Window>, scoped: seq<Scoped>)

  datatype Labelled = Labelled(tag: string, window: Window)

  /** The scoped window gates the account for these models; "all" in any case matches every one. */
  ghost predicate Wanted(models: seq<string>, name: string) {
    exists m :: m in models && (Lower(m) == "all" || Lower(m) == Lower(name))
  }

  /** What gates an account: always the two fixed windows, and the scoped ones that are wanted. */
  ghost predicate Gates(u: Usage, models: seq<string>, w: Labelled) {
    || (u.fiveHour == Some(w.window) && w.tag == "5h")
    || (u.sevenDay == Some(w.window) && w.tag == "7d")
    || (Scoped(w.tag, w.window) in u.scoped && Wanted(models, w.tag))
  }

  method IsWanted(models: seq<string>, name: string) returns (b: bool)
    ensures b <==> Wanted(models, name)
  {
    for k := 0 to |models|
      invariant forall j :: 0 <= j < k ==> Lower(models[j]) != "all" && Lower(models[j]) != Lower(name)
    {
      if Lower(models[k]) == "all" || Lower(models[k]) == Lower(name) { return true; }
    }
    b := false;
  }

  /** The two fixed windows that are there, the five-hour one first. */
  function FixedWindows(u: Usage): seq<Labelled> {
    (if u.fiveHour.Some? then [Labelled("5h", u.fiveHour.value)] else [])
    + (if u.sevenDay.Some? then [Labelled("7d", u.sevenDay.value)] else [])
  }

  /** The wanted ones among these, in their order and as often as they are there. */
  ghost function WantedOf(models: seq<string>, scoped: seq<Scoped>): seq<Labelled> {
    if scoped == [] then []
    else
      var last := scoped[|scoped| - 1];
      WantedOf(models, scoped[..|scoped| - 1])
      + (if Wanted(models, last.name) then [Labelled(last.name, last.window)] else [])
  }

  lemma {:induction false} WantedOfAre(models: seq<string>, scoped: seq<Scoped>, w: Labelled)
    ensures w in WantedOf(models, scoped) <==> Scoped(w.tag, w.window) in scoped && Wanted(models, w.tag)
  {
    if scoped != [] {
      var init := scoped[..|scoped| - 1];
      WantedOfAre(models, init, w);
      assert forall x :: x in scoped <==> x in init || x == scoped[|scoped| - 1];
    }
  }

  /** Membership in the answer is what it means to gate the account. */
  lemma RelevantAreGates(u: Usage, models: seq<string>)
    ensures forall w :: w in FixedWindows(u) + WantedOf(models, u.scoped) <==> Gates(u, models, w)
  {
    forall w ensures w in FixedWindows(u) + WantedOf(models, u.scoped) <==> Gates(u, models, w) {
      WantedOfAre(models, u.scoped, w);
    }
  }

  method RelevantWindows(u: Usage, models: seq<string>) returns (ws: seq<Labelled>)
    ensures ws == FixedWindows(u) + WantedOf(models, u.scoped)
    ensures forall w :: w in ws <==> Gates(u, models, w)
  {
    RelevantAreGates(u, models);
    ws := [];
    if u.fiveHour.Some? { ws := ws + [Labelled("5h", u.fiveHour.value)]; }
    if u.sevenDay.Some? { ws := ws + [Labelled("7d", u.sevenDay.value)]; }
    for k := 0 to |u.scoped|
      invariant ws == FixedWindows(u) + WantedOf(models, u.scoped[..k])
    {
      var wanted := IsWanted(models, u.scoped[k].name);
      assert u.scoped[..k + 1][..k] == u.scoped[..k];
      if wanted { ws := ws + [Labelled(u.scoped[k].name, u.scoped[k].window)]; }
    }
    assert u.scoped[..|u.scoped|] == u.scoped;
  }

  /** What is left before the tightest gating window fills; nothing known without a window. */
  method AccountHeadroom(u: Usage, models: seq<string>) returns (h: Option<real>)
    ensures h.None? <==> forall w :: !Gates(u, models, w)
    ensures h.Some? ==> (forall w :: Gates(u, models, w) ==> h.value <= 100.0 - w.window.pct)
                        && exists w :: Gates(u, models, w) && h.value == 100.0 - w.window.pct
  {
    var ws := RelevantWindows(u, models);
    if ws == [] { return None; }
    var tightest := ws[0];
    for k := 1 to |ws|
      invariant tightest in ws
      invariant forall j :: 0 <= j < k ==> ws[j].window.pct <= tightest.window.pct
    {
      if ws[k].window.pct > tightest.window.pct { tightest := ws[k]; }
    }
    assert Gates(u, models, tightest);
    h := Some(100.0 - tightest.window.pct);
  }

  /** A weekly window with a reset time that parses. */
  ghost predicate Renews(u: Usage, models: seq<string>, w: Labelled) {
    Gates(u, models, w) && w.tag != "5h" && w.window.resetsAt.Some?
  }

  predicate Weekly(w: Labelled) {
    w.tag != "5h" && w.window.resetsAt.Some?
  }

  /** The latest reset among the weekly ones of these, if there is one. */
  ghost predicate LatestOf(ws: seq<Labelled>, t: Option<real>) {
    && (t.None? ==> forall w :: w in ws ==> !Weekly(w))
    && (t.Some? ==>
          && (forall w :: w in ws && Weekly(w) ==> w.window.resetsAt.value <= t.value)
          && exists w :: w in ws && Weekly(w) && w.window.resetsAt == t)
  }

  lemma LatestGrows(ws: seq<Labelled>, x: Labelled, t: Option<real>)
    requires LatestOf(ws, t)
    ensures LatestOf(ws + [x], if Weekly(x) && (t.None? || x.window.resetsAt.value > t.value) then x.window.resetsAt else t)
  {
    assert forall w :: w in ws + [x] <==> w in ws || w == x;
    if t.Some? {
      var w :| w in ws && Weekly(w) && w.window.resetsAt == t;
      assert w in ws + [x];
    }
  }

  /** The latest weekly reset; the five-hour window never counts. */
  method RenewalTime(u: Usage, models: seq<string>) returns (t: Option<real>)
    ensures t.None? <==> forall w :: !Renews(u, models, w)
    ensures t.Some? ==> (forall w :: Renews(u, models, w) ==> w.window.resetsAt.value <= t.value)
                        && exists w :: Renews(u, models, w) && w.window.resetsAt == t
  {
    var ws := RelevantWindows(u, models);
    t := None;
    for k := 0 to |ws|
      invariant LatestOf(ws[..k], t)
    {
      LatestGrows(ws[..k], ws[k], t);
      assert ws[..k + 1] == ws[..k] + [ws[k]];
      var r := ws[k].window.resetsAt;
      if ws[k].tag != "5h" && r.Some? && (t.None? || r.value > t.value) { t := r; }
    }
    assert ws[..|ws|] == ws;
    assert forall w :: Renews(u, models, w) <==> w in ws && Weekly(w);
  }
}
