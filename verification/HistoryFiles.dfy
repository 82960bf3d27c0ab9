/** The history merge as the program runs it: moves and removals in place, over a sorted list of nodes. */
module HistoryFiles {
  import opened Basics
  import opened HistoryMerge

  /** The levels to create for `d`, deepest first. */
  function MissingLevels(src: Tree, d: string): seq<string>
    decreases |d|
  {
    if d == "" || d in src then [] else [d] + MissingLevels(src, Parent(d))
  }

  /** Creates them from the last to the first. */
  function CreateAll(src: Tree, levels: seq<string>, left: int): Made
    decreases |levels|
  {
    if levels == [] then Made(true, src, left)
    else
      var up := CreateAll(src, levels[1..], left);
      if !up.ok || up.left == 0 || !IsDir(up.src, Parent(levels[0])) then Made(false, up.src, up.left)
      else Made(true, up.src[levels[0] := Dir], up.left - 1)
  }

  lemma {:induction false} LevelByLevel(src: Tree, d: string, left: int)
    ensures MkdirPrivate(src, d, left) == CreateAll(src, MissingLevels(src, d), left)
    decreases |d|
  {
    if d != "" && d !in src {
      LevelByLevel(src, Parent(d), left);
      assert MissingLevels(src, d)[1..] == MissingLevels(src, Parent(d));
    }
  }

  /** Once a level fails, the deeper ones are not tried. */
  lemma {:induction false} StuckStays(src: Tree, levels: seq<string>, i: nat, left: int)
    requires i <= |levels| && !CreateAll(src, levels[i..], left).ok
    ensures !CreateAll(src, levels, left).ok
    ensures CreateAll(src, levels, left).src == CreateAll(src, levels[i..], left).src
    decreases i
  {
    if i > 0 {
      assert levels[i - 1..][1..] == levels[i..];
      StuckStays(src, levels, i - 1, left);
    } else {
      assert levels[0..] == levels;
    }
  }

  class Trees {
    var src: Tree
    var profile: Tree
    var gone: bool

    ghost function V(): St
      reads this
    {
      St(src, profile, gone)
    }

    constructor (s: St)
      ensures V() == s
    {
      src, profile, gone := s.src, s.profile, s.gone;
    }

    /** Collects the missing levels upwards. */
    method CollectMissing(d: string) returns (missing: seq<string>)
      ensures missing == MissingLevels(src, d)
    {
      missing := [];
      var current := d;
      while current != "" && current !in src
        invariant missing + MissingLevels(src, current) == MissingLevels(src, d)
        decreases |current|
      {
        missing := missing + [current];
        current := Parent(current);
      }
    }

    /** Creates them downwards. */
    method CreateLevels(missing: seq<string>, left: int) returns (ok: bool)
      modifies this`src
      ensures ok == CreateAll(old(src), missing, left).ok && src == CreateAll(old(src), missing, left).src
    {
      var budget := left;
      for i := |missing| downto 0
        invariant CreateAll(old(src), missing[i..], left) == Made(true, src, budget)
      {
        assert missing[i..][1..] == missing[i + 1..];
        if budget == 0 || !IsDir(src, Parent(missing[i])) {
          StuckStays(old(src), missing, i, left);
          return false;
        }
        src := src[missing[i] := Dir];
        budget := budget - 1;
      }
      assert missing[0..] == missing;
      ok := true;
    }

    method MakePrivate(d: string, left: int) returns (ok: bool)
      modifies this`src
      ensures ok == MkdirPrivate(old(src), d, left).ok && src == MkdirPrivate(old(src), d, left).src
    {
      LevelByLevel(src, d, left);
      var missing := CollectMissing(d);
      ok := CreateLevels(missing, left);
    }

    method MergeOne(p: string, l: Luck) returns (ok: bool)
      requires p in profile
      modifies this
      ensures Res(ok, V()) == MergeNode(old(V()), p, l)
    {
      ok := false;
      if profile[p].Dir? {
        if l.Fine? && (forall q :: q in profile.Keys ==> !Under(q, p)) {
          profile := profile - {p};
          ok := true;
        }
        return;
      }
      if p in src {
        if l.Fine? {
          profile := profile - {p};
          ok := true;
        }
        return;
      }
      var made := MakePrivate(Parent(p), Budget(l));
      if l.Fine? && made && IsDir(src, Parent(p)) {
        src := src[p := profile[p]];
        profile := profile - {p};
        ok := true;
      }
    }

    method MergeNodes(nodes: seq<string>, lucks: seq<Luck>) returns (ok: bool)
      modifies this
      ensures V() == Last(Merge(old(V()), nodes, lucks))
    {
      var i := 0;
      while i < |nodes|
        invariant 0 <= i <= |nodes|
        invariant Last(Merge(old(V()), nodes, lucks)) == Last(Merge(V(), nodes[i..], From(lucks, i)))
      {
        if nodes[i] !in profile { return false; }
        MergeStep(V(), nodes[i..], From(lucks, i));
        FromStep(lucks, i);
        assert nodes[i..][1..] == nodes[i + 1..];
        var merged := MergeOne(nodes[i], LuckAt(lucks, i));
        if !merged { return false; }
        i := i + 1;
      }
      ok := LuckAt(lucks, i).Fine? && profile == map[];
      if ok { gone := true; }
    }

    /** Deepest first; the first error stops the merge. */
    method MergeHistoryDir(walk: seq<string>, lucks: seq<Luck>) returns (ok: bool)
      requires Rooted(profile) && NoRepeats(walk) && Elements(walk) == profile.Keys && !gone
      modifies this
      ensures V() == Last(Merge(old(V()), SortPaths(walk), lucks))
      ensures NoneDoomed(old(V())) ==> SameView(old(V()), V())
      ensures lucks == [] ==> (gone <==> NoneBlocked(old(V()))) && (gone ==> profile == map[])
    {
      SortPathsSorts(walk);
      if NoneDoomed(V()) {
        ShieldedKeepsView(V(), SortPaths(walk), lucks, |Merge(V(), SortPaths(walk), lucks)| - 1);
      }
      MergeCompletesExactly(V(), walk);
      ok := MergeNodes(SortPaths(walk), lucks);
    }
  }

  function From(lucks: seq<Luck>, i: nat): seq<Luck> {
    if i <= |lucks| then lucks[i..] else []
  }

  lemma FromStep(lucks: seq<Luck>, i: nat)
    ensures LuckAt(From(lucks, i), 0) == LuckAt(lucks, i)
    ensures (if From(lucks, i) == [] then [] else From(lucks, i)[1..]) == From(lucks, i + 1)
  {
  }
}
