/**
 Merging a profile's own history tree into the shared one. Paths are relative to each tree's root,
 with "/" between names; the root itself is "".

 Renames are within one file system and atomic. Any removal, directory creation or rename may
 fail and end the merge; what was done stays done.
 */
module HistoryMerge {
  import opened Basics

  datatype Node = Dir | File(text: string)

  type Tree = map<string, Node>

  /** `gone`: whether the profile's root directory has been removed. */
  datatype St = St(src: Tree, profile: Tree, gone: bool)

  /** `Fails`: the node's operation fails, after creating at most `made` directories. */
  datatype Luck = Fine | Fails(made: nat)

  // ---- paths ----------------------------------------------------------------------------

  /** The path of the directory that holds `p`. */
  function Parent(p: string): (d: string)
    ensures d == "" || |d| < |p|
    ensures p != "" ==> |d| < |p|
    ensures d != "" ==> Under(p, d)
  {
    if p == "" then ""
    else if p[|p| - 1] == '/' then
      var d := p[..|p| - 1];
      d
    else
      var d := Parent(p[..|p| - 1]);
      d
  }

  /** `q` is inside the directory `d`, at any depth. */
  predicate Under(q: string, d: string) {
    |q| > |d| && q[..|d|] == d && q[|d|] == '/'
  }

  /** Byte order on paths. */
  predicate Less(a: string, b: string) {
    b != "" && (a == "" || a[0] < b[0] || (a[0] == b[0] && Less(a[1..], b[1..])))
  }

  lemma {:induction false} LessIsTotalOrder(a: string, b: string, c: string)
    ensures !Less(a, a)
    ensures Less(a, b) || Less(b, a) || a == b
    ensures Less(a, b) && Less(b, c) ==> Less(a, c)
    decreases |a| + |b| + |c|
  {
    if a != "" && b != "" && c != "" {
      LessIsTotalOrder(a[1..], b[1..], c[1..]);
    }
    if a != "" && b != "" {
      LessIsTotalOrder(a[1..], b[1..], "");
      assert a == [a[0]] + a[1..] && b == [b[0]] + b[1..];
    }
    if a != "" && (b == "" || c == "") {
      LessIsTotalOrder(a[1..], "", "");
    }
  }

  /** Whatever is inside a directory sorts after it. */
  lemma {:induction false} InsideSortsAfter(q: string, d: string)
    requires Under(q, d)
    ensures Less(d, q)
  {
    if d != "" {
      assert q[1..][..|d[1..]|] == d[1..];
      InsideSortsAfter(q[1..], d[1..]);
    }
  }

  // ---- the walk, deepest first --------------------------------------------------------------

  predicate Descending(s: seq<string>) {
    forall i, j :: 0 <= i < j < |s| ==> Less(s[j], s[i])
  }

  function InsertPath(x: string, s: seq<string>): seq<string> {
    if s == [] || !Less(x, s[0]) then [x] + s else [s[0]] + InsertPath(x, s[1..])
  }

  function SortPaths(s: seq<string>): seq<string> {
    if s == [] then [] else InsertPath(s[0], SortPaths(s[1..]))
  }

  lemma {:induction false} InsertPathSorts(x: string, s: seq<string>)
    requires Descending(s) && x !in s
    ensures Descending(InsertPath(x, s))
    ensures Elements(InsertPath(x, s)) == {x} + Elements(s)
  {
    if s == [] {
    } else if Less(x, s[0]) {
      InsertPathSorts(x, s[1..]);
      var r := InsertPath(x, s[1..]);
      assert s == [s[0]] + s[1..];
      ElementsOfCons(s[0], s[1..]);
      ElementsOfCons(s[0], r);
      forall j | 0 <= j < |r| ensures Less(r[j], s[0]) {
        assert r[j] in Elements(r);
        assert r[j] == x || r[j] in s[1..];
      }
    } else {
      ElementsOfCons(x, s);
      forall j | 0 <= j < |s| ensures Less(s[j], x) {
        LessIsTotalOrder(s[0], x, x);
        LessIsTotalOrder(s[j], s[0], x);
      }
    }
  }

  lemma {:induction false} SortPathsSorts(s: seq<string>)
    requires NoRepeats(s)
    ensures Descending(SortPaths(s)) && Elements(SortPaths(s)) == Elements(s)
  {
    if s != [] {
      SortPathsSorts(s[1..]);
      assert s[0] !in s[1..];
      assert s[0] !in Elements(SortPaths(s[1..]));
      InsertPathSorts(s[0], SortPaths(s[1..]));
      assert s == [s[0]] + s[1..];
      ElementsOfCons(s[0], s[1..]);
    }
  }

  // ---- operations -----------------------------------------------------------------------------

  predicate IsDir(t: Tree, d: string) {
    d == "" || (d in t && t[d].Dir?)
  }

  datatype Made = Made(ok: bool, src: Tree, left: int)

  /** mkdir -p, level by level; `left` is how many levels may still be created (negative: any number). */
  function MkdirPrivate(src: Tree, d: string, left: int): Made
    decreases |d|
  {
    if d == "" || d in src then Made(true, src, left)
    else
      var up := MkdirPrivate(src, Parent(d), left);
      if !up.ok || up.left == 0 || !IsDir(up.src, Parent(d)) then Made(false, up.src, up.left)
      else Made(true, up.src[d := Dir], up.left - 1)
  }

  datatype Res = Res(ok: bool, s: St)

  function Budget(l: Luck): int {
    if l.Fine? then -1 else l.made
  }

  /** One node: an emptied directory is removed, a duplicate dropped, any other file moved. */
  function MergeNode(s: St, p: string, l: Luck): Res
    requires p in s.profile
  {
    if s.profile[p].Dir? then
      if l.Fine? && (forall q :: q in s.profile ==> !Under(q, p)) then Res(true, s.(profile := s.profile - {p}))
      else Res(false, s)
    else if p in s.src then
      if l.Fine? then Res(true, s.(profile := s.profile - {p})) else Res(false, s)
    else
      var m := MkdirPrivate(s.src, Parent(p), Budget(l));
      if l.Fine? && m.ok && IsDir(m.src, Parent(p))
      then Res(true, St(m.src[p := s.profile[p]], s.profile - {p}, s.gone))
      else Res(false, s.(src := m.src))
  }

  function LuckAt(lucks: seq<Luck>, i: nat): Luck {
    if i < |lucks| then lucks[i] else Fine
  }

  /** The states after each node, up to the first failure; then the root. */
  function Merge(s: St, nodes: seq<string>, lucks: seq<Luck>): (r: seq<St>)
    ensures r != [] && r[0] == s
    decreases |nodes|
  {
    if nodes == [] then
      if LuckAt(lucks, 0).Fine? && s.profile == map[] then [s, s.(gone := true)] else [s]
    else if nodes[0] !in s.profile then [s]
    else
      var n := MergeNode(s, nodes[0], LuckAt(lucks, 0));
      if n.ok then [s] + Merge(n.s, nodes[1..], if lucks == [] then [] else lucks[1..]) else [s, n.s]
  }

  // ---- what every state keeps ------------------------------------------------------------------

  function TextAt(t: Tree, p: string): Option<string> {
    if p in t && t[p].File? then Some(t[p].text) else None
  }

  /** What a reader finds: the shared file if there is one, else the profile's own. */
  function View(s: St, p: string): Option<string> {
    if TextAt(s.src, p).Some? then TextAt(s.src, p) else TextAt(s.profile, p)
  }

  ghost predicate SameView(s: St, t: St) {
    forall p :: View(t, p) == View(s, p)
  }

  /** As a walk finds it: every entry's directory is an entry too. */
  ghost predicate Rooted(t: Tree) {
    forall p :: p in t ==> IsDir(t, Parent(p))
  }

  /** A profile file where the shared tree has a directory: it is taken for a duplicate, and dropped. */
  predicate Doomed(s: St, p: string) {
    p in s.profile && s.profile[p].File? && p in s.src && s.src[p].Dir?
  }

  /** The directory is there, or every missing level of it can be created. */
  predicate Makeable(src: Tree, d: string)
    decreases |d|
  {
    d == "" || (if d in src then src[d].Dir? else Makeable(src, Parent(d)))
  }

  /** A profile file that cannot be moved: a directory above it is a file in the shared tree. */
  predicate Blocked(s: St, p: string) {
    p in s.profile && s.profile[p].File? && p !in s.src && !Makeable(s.src, Parent(p))
  }

  ghost predicate NoneDoomed(s: St) {
    forall p :: !Doomed(s, p)
  }

  ghost predicate NoneBlocked(s: St) {
    forall p :: !Blocked(s, p)
  }

  /** Creating directories: what was there stays, and only directories are added, where the profile has them. */
  lemma {:induction false} MkdirOnlyAdds(s: St, d: string, left: int)
    requires Rooted(s.profile) && IsDir(s.profile, d)
    ensures var m := MkdirPrivate(s.src, d, left);
            && (forall p :: p in s.src ==> p in m.src && m.src[p] == s.src[p])
            && (forall p :: p in m.src && p !in s.src ==> m.src[p].Dir? && p in s.profile && s.profile[p].Dir?)
    decreases |d|
  {
    if d != "" && d !in s.src {
      MkdirOnlyAdds(s, Parent(d), left);
    }
  }

  /** Without failures the directory can be created exactly when it is makeable. */
  lemma {:induction false} MkdirMakes(src: Tree, d: string, left: int)
    ensures var m := MkdirPrivate(src, d, left);
            && (m.ok && IsDir(m.src, d) ==> Makeable(src, d))
            && (forall p :: p in m.src && p !in src ==> Makeable(src, p))
            && (left < 0 && Makeable(src, d) ==> m.ok && m.left < 0 && IsDir(m.src, d))
    decreases |d|
  {
    if d != "" && d !in src {
      MkdirMakes(src, Parent(d), left);
    }
  }

  /** What one node may add to the shared tree: makeable directories of the profile, and its own file on leaving it. */
  ghost predicate Grows(s: St, t: St, p: string) {
    && (forall x :: x in s.src ==> x in t.src && t.src[x] == s.src[x])
    && forall x :: x in t.src && x !in s.src ==>
         && x in s.profile && t.src[x].Dir? == s.profile[x].Dir?
         && if x == p then p !in t.profile && t.src[p] == s.profile[p] && s.profile[p].File?
            else s.profile[x].Dir? && Makeable(s.src, x)
  }

  /** Directories that the profile has, and that can be made. */
  ghost predicate AddsDirs(s: St, src: Tree) {
    && (forall x :: x in s.src ==> x in src && src[x] == s.src[x])
    && forall x :: x in src && x !in s.src ==>
         src[x].Dir? && x in s.profile && s.profile[x].Dir? && Makeable(s.src, x)
  }

  lemma MkdirAddsDirs(s: St, d: string, left: int)
    requires Rooted(s.profile) && IsDir(s.profile, d)
    ensures AddsDirs(s, MkdirPrivate(s.src, d, left).src)
  {
    MkdirOnlyAdds(s, d, left);
    MkdirMakes(s.src, d, left);
  }

  lemma FileGrows(s: St, p: string, src: Tree)
    requires p in s.profile && s.profile[p].File? && p !in s.src && AddsDirs(s, src)
    ensures Grows(s, s.(src := src), p)
    ensures Grows(s, St(src[p := s.profile[p]], s.profile - {p}, s.gone), p)
  {
    assert p !in src;
  }

  lemma NodeGrows(s: St, p: string, l: Luck)
    requires Rooted(s.profile) && p in s.profile
    ensures var t := MergeNode(s, p, l).s;
            Grows(s, t, p) && (t.profile == s.profile || t.profile == s.profile - {p})
  {
    if s.profile[p].File? && p !in s.src {
      MkdirAddsDirs(s, Parent(p), Budget(l));
      FileGrows(s, p, MkdirPrivate(s.src, Parent(p), Budget(l)).src);
    }
  }

  lemma NodeKeepsRooted(s: St, p: string, l: Luck)
    requires Rooted(s.profile) && p in s.profile
    ensures Rooted(MergeNode(s, p, l).s.profile)
  {
    var t := MergeNode(s, p, l).s;
    forall q | q in t.profile ensures IsDir(t.profile, Parent(q)) {
      assert q in s.profile;
      assert Parent(q) == p && p != "" ==> Under(q, p);
      assert Parent(q) != "" ==> Parent(q) in s.profile && s.profile[Parent(q)].Dir?;
    }
  }

  lemma {:induction false} MakeableStays(s: St, t: St, p: string, d: string)
    requires Rooted(s.profile) && Grows(s, t, p) && IsDir(s.profile, d)
    ensures Makeable(t.src, d) <==> Makeable(s.src, d)
    decreases |d|
  {
    if d != "" && d !in t.src {
      MakeableStays(s, t, p, Parent(d));
    }
  }

  /** A step changes nothing about the fate of what stays in the profile. */
  lemma FateStays(s: St, t: St, p: string, q: string)
    requires Rooted(s.profile) && Grows(s, t, p) && q in s.profile && q in t.profile && t.profile[q] == s.profile[q]
    ensures Doomed(t, q) <==> Doomed(s, q)
    ensures Blocked(t, q) <==> Blocked(s, q)
  {
    MakeableStays(s, t, p, Parent(q));
  }

  lemma NodeKeepsView(s: St, p: string, l: Luck)
    requires Rooted(s.profile) && p in s.profile && !Doomed(s, p)
    ensures SameView(s, MergeNode(s, p, l).s)
  {
    if s.profile[p].File? && p !in s.src { MovingKeepsView(s, p, l); } else { ClearingKeepsView(s, p, l); }
  }

  lemma ClearingKeepsView(s: St, p: string, l: Luck)
    requires p in s.profile && !Doomed(s, p) && (s.profile[p].Dir? || p in s.src)
    ensures SameView(s, MergeNode(s, p, l).s)
  {
  }

  lemma MovingKeepsView(s: St, p: string, l: Luck)
    requires Rooted(s.profile) && p in s.profile && s.profile[p].File? && p !in s.src
    ensures SameView(s, MergeNode(s, p, l).s)
  {
    var src := MkdirPrivate(s.src, Parent(p), Budget(l)).src;
    MkdirAddsDirs(s, Parent(p), Budget(l));
    NewDirsKeepView(s, src);
    var made := s.(src := src);
    assert p !in src;
    MoveKeepsView(made, p);
    SameViewChains(s, made, St(src[p := s.profile[p]], s.profile - {p}, s.gone));
  }

  lemma NewDirsKeepView(s: St, src: Tree)
    requires AddsDirs(s, src)
    ensures SameView(s, s.(src := src))
  {
    forall q ensures View(s.(src := src), q) == View(s, q) {
      assert q in src && q !in s.src ==> src[q].Dir? && s.profile[q].Dir?;
    }
  }

  lemma MoveKeepsView(s: St, p: string)
    requires p in s.profile && s.profile[p].File? && TextAt(s.src, p).None?
    ensures SameView(s, St(s.src[p := s.profile[p]], s.profile - {p}, s.gone))
  {
  }

  lemma SameViewChains(s: St, t: St, u: St)
    requires SameView(s, t) && SameView(t, u)
    ensures SameView(s, u)
  {
    forall p ensures View(u, p) == View(s, p) { assert View(t, p) == View(s, p); }
  }

  /** A blocked file stops the merge where it is, whatever else happens. */
  lemma BlockedNode(s: St, p: string, l: Luck)
    requires Rooted(s.profile) && p in s.profile
    ensures MergeNode(s, p, l).ok ==> !Blocked(s, p)
  {
    MkdirMakes(s.src, Parent(p), Budget(l));
  }

  /** Every doomed file has a blocked one that sorts after it, and so comes before it in the walk. */
  ghost predicate Shielded(s: St) {
    forall p :: Doomed(s, p) ==> HasShield(s, p)
  }

  ghost predicate HasShield(s: St, p: string) {
    exists q :: Blocked(s, q) && Less(p, q)
  }

  /** The rest of a walk, deepest first. */
  ghost predicate Walks(s: St, nodes: seq<string>) {
    Rooted(s.profile) && Descending(nodes) && s.profile.Keys == Elements(nodes)
  }

  lemma LastIsFirst(s: St, nodes: seq<string>, q: string)
    requires Walks(s, nodes) && nodes != [] && q in s.profile
    ensures q == nodes[0] || Less(q, nodes[0])
  {
    assert q in nodes;
    var j :| 0 <= j < |nodes| && nodes[j] == q;
  }

  lemma FirstIsSafe(s: St, nodes: seq<string>)
    requires Walks(s, nodes) && nodes != [] && Shielded(s)
    ensures !Doomed(s, nodes[0])
  {
    if Doomed(s, nodes[0]) {
      assert HasShield(s, nodes[0]);
      var q :| Blocked(s, q) && Less(nodes[0], q);
      LastIsFirst(s, nodes, q);
      LessIsTotalOrder(nodes[0], q, nodes[0]);
    }
  }

  lemma WalkGoesOn(s: St, nodes: seq<string>, l: Luck)
    requires Walks(s, nodes) && nodes != []
    ensures nodes[0] in s.profile
    ensures MergeNode(s, nodes[0], l).ok ==>
              && MergeNode(s, nodes[0], l).s.profile == s.profile - {nodes[0]}
              && Walks(MergeNode(s, nodes[0], l).s, nodes[1..])
  {
    RestOfWalk(s.profile.Keys, nodes);
    NodeKeepsRooted(s, nodes[0], l);
    assert (s.profile - {nodes[0]}).Keys == s.profile.Keys - {nodes[0]};
  }

  lemma ShieldStays(s: St, nodes: seq<string>, l: Luck)
    requires Walks(s, nodes) && nodes != [] && Shielded(s) && MergeNode(s, nodes[0], l).ok
    ensures Shielded(MergeNode(s, nodes[0], l).s)
  {
    var t := MergeNode(s, nodes[0], l).s;
    WalkGoesOn(s, nodes, l);
    NodeGrows(s, nodes[0], l);
    BlockedNode(s, nodes[0], l);
    forall p | Doomed(t, p) ensures HasShield(t, p) {
      FateStays(s, t, nodes[0], p);
      assert HasShield(s, p);
      var q :| Blocked(s, q) && Less(p, q);
      FateStays(s, t, nodes[0], q);
      assert Blocked(t, q);
    }
  }

  /** In every state, however the merge ends, a reader finds each file's text where it was or where it went. */
  lemma {:induction false} ShieldedKeepsView(s: St, nodes: seq<string>, lucks: seq<Luck>, i: nat)
    requires Walks(s, nodes) && Shielded(s) && i < |Merge(s, nodes, lucks)|
    ensures SameView(s, Merge(s, nodes, lucks)[i])
    decreases |nodes|
  {
    if nodes != [] {
      var l := LuckAt(lucks, 0);
      WalkGoesOn(s, nodes, l);
      FirstIsSafe(s, nodes);
      NodeKeepsView(s, nodes[0], l);
      var n := MergeNode(s, nodes[0], l);
      var rest := if lucks == [] then [] else lucks[1..];
      if n.ok && i > 0 {
        ShieldStays(s, nodes, l);
        ShieldedKeepsView(n.s, nodes[1..], rest, i - 1);
        SameViewChains(s, n.s, Merge(n.s, nodes[1..], rest)[i - 1]);
      }
    }
  }

  lemma FineNodeMerges(s: St, nodes: seq<string>)
    requires Walks(s, nodes) && nodes != [] && !Blocked(s, nodes[0])
    ensures nodes[0] in s.profile && MergeNode(s, nodes[0], Fine).ok
  {
    WalkGoesOn(s, nodes, Fine);
    EmptiedInTime(s, nodes);
    MkdirMakes(s.src, Parent(nodes[0]), -1);
  }

  /** Doomed, with no blocked file ahead of it in the walk. */
  ghost predicate Exposed(s: St, p: string) {
    Doomed(s, p) && forall q :: Blocked(s, q) ==> !Less(p, q)
  }

  lemma ExposedStays(s: St, nodes: seq<string>, p: string)
    requires Walks(s, nodes) && nodes != [] && Exposed(s, p) && nodes[0] != p && MergeNode(s, nodes[0], Fine).ok
    ensures Exposed(MergeNode(s, nodes[0], Fine).s, p)
  {
    var t := MergeNode(s, nodes[0], Fine).s;
    WalkGoesOn(s, nodes, Fine);
    NodeGrows(s, nodes[0], Fine);
    FateStays(s, t, nodes[0], p);
    forall q | Blocked(t, q) ensures !Less(p, q) { FateStays(s, t, nodes[0], q); }
  }

  lemma DoomedIsDropped(s: St, p: string)
    requires Doomed(s, p)
    ensures MergeNode(s, p, Fine).ok && View(MergeNode(s, p, Fine).s, p).None?
  {
  }

  lemma FineUnfolds(s: St, nodes: seq<string>)
    requires nodes != [] && nodes[0] in s.profile && MergeNode(s, nodes[0], Fine).ok
    ensures Merge(s, nodes, []) == [s] + Merge(MergeNode(s, nodes[0], Fine).s, nodes[1..], [])
  {
  }

  /** In this state of an undisturbed merge a reader does not find the file. */
  ghost predicate LostAt(s: St, nodes: seq<string>, p: string, i: nat) {
    i < |Merge(s, nodes, [])| && View(Merge(s, nodes, [])[i], p).None?
  }

  lemma LostLater(s: St, nodes: seq<string>, p: string, j: nat)
    requires nodes != [] && nodes[0] in s.profile && MergeNode(s, nodes[0], Fine).ok
    requires LostAt(MergeNode(s, nodes[0], Fine).s, nodes[1..], p, j)
    ensures LostAt(s, nodes, p, j + 1)
  {
    FineUnfolds(s, nodes);
  }

  lemma ExposedIsNotBehind(s: St, nodes: seq<string>, p: string)
    requires Walks(s, nodes) && Exposed(s, p)
    ensures nodes != [] && !Blocked(s, nodes[0])
  {
    assert p in Elements(nodes);
    LastIsFirst(s, nodes, p);
  }

  /** With no blocked file to stop it, an undisturbed merge gets to a doomed file, and loses it. */
  lemma {:induction false} ExposedIsLost(s: St, nodes: seq<string>, p: string) returns (i: nat)
    requires Walks(s, nodes) && Exposed(s, p)
    ensures LostAt(s, nodes, p, i)
    decreases |nodes|
  {
    ExposedIsNotBehind(s, nodes, p);
    FineNodeMerges(s, nodes);
    WalkGoesOn(s, nodes, Fine);
    var j: nat := 0;
    if nodes[0] == p {
      DoomedIsDropped(s, p);
      assert LostAt(MergeNode(s, p, Fine).s, nodes[1..], p, 0);
    } else {
      ExposedStays(s, nodes, p);
      j := ExposedIsLost(MergeNode(s, nodes[0], Fine).s, nodes[1..], p);
    }
    LostLater(s, nodes, p, j);
    i := j + 1;
  }

  /** However the merge is disturbed, every state of it shows a reader the same files. */
  ghost predicate AlwaysSameView(s: St, nodes: seq<string>) {
    forall lucks, i :: 0 <= i < |Merge(s, nodes, lucks)| ==> SameView(s, Merge(s, nodes, lucks)[i])
  }

  /**
   The reader's view survives every merge exactly when each profile file that the shared tree has a
   directory for is preceded in the walk by one that cannot be moved.
   */
  lemma MergeKeepsViewExactly(s: St, walk: seq<string>)
    requires Rooted(s.profile) && NoRepeats(walk) && Elements(walk) == s.profile.Keys
    ensures AlwaysSameView(s, SortPaths(walk)) <==> Shielded(s)
  {
    SortPathsSorts(walk);
    var nodes := SortPaths(walk);
    if Shielded(s) {
      forall lucks, i | 0 <= i < |Merge(s, nodes, lucks)| ensures SameView(s, Merge(s, nodes, lucks)[i]) {
        ShieldedKeepsView(s, nodes, lucks, i);
      }
    } else {
      var p :| Doomed(s, p) && !HasShield(s, p);
      assert Exposed(s, p);
      var i := ExposedIsLost(s, nodes, p);
      assert LostAt(s, nodes, p, i);
      assert View(s, p).Some? && !SameView(s, Merge(s, nodes, [])[i]);
    }
  }

  // ---- completion -------------------------------------------------------------------------------

  function Last(r: seq<St>): St
    requires r != []
  {
    r[|r| - 1]
  }

  /** A directory whose turn has come is empty: whatever it held sorts after it and is gone. */
  lemma EmptiedInTime(s: St, nodes: seq<string>)
    requires nodes != [] && Descending(nodes) && s.profile.Keys == Elements(nodes)
    ensures forall q :: q in s.profile ==> !Under(q, nodes[0])
  {
    forall q | q in s.profile ensures !Under(q, nodes[0]) {
      assert q in nodes;
      if Under(q, nodes[0]) {
        InsideSortsAfter(q, nodes[0]);
        var j :| 0 <= j < |nodes| && nodes[j] == q;
        LessIsTotalOrder(nodes[0], q, nodes[0]);
      }
    }
  }

  lemma RestOfWalk(keys: set<string>, nodes: seq<string>)
    requires nodes != [] && Descending(nodes) && keys == Elements(nodes)
    ensures nodes[0] in keys && keys - {nodes[0]} == Elements(nodes[1..]) && Descending(nodes[1..])
  {
    assert nodes[0] in Elements(nodes);
    assert nodes == [nodes[0]] + nodes[1..];
    ElementsOfCons(nodes[0], nodes[1..]);
    if nodes[0] in nodes[1..] {
      var j :| 0 <= j < |nodes[1..]| && nodes[1..][j] == nodes[0];
      LessIsTotalOrder(nodes[0], nodes[0], nodes[0]);
    }
  }

  lemma MergeStep(s: St, nodes: seq<string>, lucks: seq<Luck>)
    requires nodes != [] && nodes[0] in s.profile
    ensures var n := MergeNode(s, nodes[0], LuckAt(lucks, 0));
            var rest := if lucks == [] then [] else lucks[1..];
            Last(Merge(s, nodes, lucks)) == (if n.ok then Last(Merge(n.s, nodes[1..], rest)) else n.s)
  {
  }

  lemma BlockedStays(s: St, nodes: seq<string>, l: Luck, q: string)
    requires Walks(s, nodes) && nodes != [] && Blocked(s, q) && MergeNode(s, nodes[0], l).ok
    ensures Blocked(MergeNode(s, nodes[0], l).s, q)
  {
    WalkGoesOn(s, nodes, l);
    NodeGrows(s, nodes[0], l);
    BlockedNode(s, nodes[0], l);
    FateStays(s, MergeNode(s, nodes[0], l).s, nodes[0], q);
  }

  /** A merge that meets a blocked file ends short of it, whatever else happens. */
  lemma {:induction false} BlockedNeverCompletes(s: St, nodes: seq<string>, lucks: seq<Luck>, q: string)
    requires Walks(s, nodes) && Blocked(s, q) && !s.gone
    ensures !Last(Merge(s, nodes, lucks)).gone
    decreases |nodes|
  {
    assert q in Elements(nodes);
    var l := LuckAt(lucks, 0);
    WalkGoesOn(s, nodes, l);
    NodeKeepsGone(s, nodes[0], l);
    MergeStep(s, nodes, lucks);
    if MergeNode(s, nodes[0], l).ok {
      BlockedStays(s, nodes, l, q);
      BlockedNeverCompletes(MergeNode(s, nodes[0], l).s, nodes[1..], if lucks == [] then [] else lucks[1..], q);
    }
  }

  lemma NodeKeepsGone(s: St, p: string, l: Luck)
    requires p in s.profile
    ensures MergeNode(s, p, l).s.gone == s.gone
  {
  }

  lemma NoneBlockedStays(s: St, nodes: seq<string>)
    requires Walks(s, nodes) && nodes != [] && NoneBlocked(s) && MergeNode(s, nodes[0], Fine).ok
    ensures NoneBlocked(MergeNode(s, nodes[0], Fine).s)
  {
    WalkGoesOn(s, nodes, Fine);
    NodeGrows(s, nodes[0], Fine);
    var t := MergeNode(s, nodes[0], Fine).s;
    forall q ensures !Blocked(t, q) {
      if q in t.profile { FateStays(s, t, nodes[0], q); }
    }
  }

  lemma {:induction false} UnblockedCompletes(s: St, nodes: seq<string>)
    requires Walks(s, nodes) && NoneBlocked(s)
    ensures Last(Merge(s, nodes, [])).gone && Last(Merge(s, nodes, [])).profile == map[]
    decreases |nodes|
  {
    if nodes == [] {
      assert s.profile.Keys == {};
      assert s.profile == map[];
    } else {
      FineNodeMerges(s, nodes);
      WalkGoesOn(s, nodes, Fine);
      NoneBlockedStays(s, nodes);
      var t := MergeNode(s, nodes[0], Fine).s;
      UnblockedCompletes(t, nodes[1..]);
      FineUnfolds(s, nodes);
    }
  }

  lemma CompletedHasAll(s: St, nodes: seq<string>)
    requires Walks(s, nodes) && NoneDoomed(s)
    ensures var t := Last(Merge(s, nodes, []));
            t.profile == map[] ==> forall p :: TextAt(t.src, p) == View(s, p)
  {
    var r := Merge(s, nodes, []);
    ShieldedKeepsView(s, nodes, [], |r| - 1);
    forall p ensures Last(r).profile == map[] ==> TextAt(Last(r).src, p) == View(s, p) {
      assert View(Last(r), p) == View(s, p);
    }
  }

  /**
   When nothing fails, the merge completes exactly when no file is blocked: the profile's tree is
   gone, root and all. Unless a file was doomed, every file it had is then in the shared tree, with
   the shared text where both had one.
   */
  lemma MergeCompletesExactly(s: St, walk: seq<string>)
    requires Rooted(s.profile) && NoRepeats(walk) && Elements(walk) == s.profile.Keys && !s.gone
    ensures var t := Last(Merge(s, SortPaths(walk), []));
            && (t.gone <==> NoneBlocked(s))
            && (t.gone ==> t.profile == map[])
            && (t.gone && NoneDoomed(s) ==> forall p :: TextAt(t.src, p) == View(s, p))
  {
    SortPathsSorts(walk);
    var nodes := SortPaths(walk);
    if NoneBlocked(s) {
      UnblockedCompletes(s, nodes);
      if NoneDoomed(s) { CompletedHasAll(s, nodes); }
    } else {
      var q :| Blocked(s, q);
      BlockedNeverCompletes(s, nodes, [], q);
    }
  }

  /** The order matters: parents first, the very same tree cannot be merged. */
  lemma ParentFirstFails() returns (s: St)
    ensures Rooted(s.profile) && NoneBlocked(s) && Elements(["a", "a/b"]) == s.profile.Keys
    ensures !Last(Merge(s, ["a", "a/b"], [])).gone
  {
    s := St(map[], map["a" := Dir, "a/b" := File("x")], false);
    assert Parent("a/") == "a";
    assert Parent("a/b") == "a";
    assert Parent("") == "";
    assert Parent("a") == "";
    assert Under("a/b", "a");
    assert Makeable(s.src, "a");
    assert !MergeNode(s, "a", Fine).ok;
  }
}
