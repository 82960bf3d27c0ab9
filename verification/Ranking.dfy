/**
 Ordering the accounts an automatic switch could go to: the two comparators, and what a stable
 sort by either of them yields.
 */
module Ranking {
  import opened Basics

  /** A qualifying target: remaining percent, weekly renewal if known, slot. */
  datatype Qual = Qual(h: real, renewal: Option<real>, num: Slot)

  datatype Strategy = Best | SoonestReset

  datatype Rule = Rule(strategy: Strategy, threshold: real)

  predicate Below(rule: Rule, q: Qual) {
    100.0 - q.h < rule.threshold
  }

  /** The comparator of each strategy. */
  predicate Before(rule: Rule, a: Qual, b: Qual) {
    if rule.strategy.Best? then a.h > b.h
    else if Below(rule, a) != Below(rule, b) then Below(rule, a)
    else if !Below(rule, a) then a.h > b.h
    else if a.renewal.Some? != b.renewal.Some? then a.renewal.Some?
    else if a.renewal.Some? && b.renewal.Some? && a.renewal.value != b.renewal.value then a.renewal.value < b.renewal.value
    else a.h > b.h
  }

  predicate Tied(rule: Rule, a: Qual, b: Qual) {
    !Before(rule, a, b) && !Before(rule, b, a)
  }

  /** Irreflexive, transitive, and with transitive ties: a strict weak order, for both strategies. */
  lemma StrictWeakOrder(rule: Rule, a: Qual, b: Qual, c: Qual)
    ensures !Before(rule, a, a)
    ensures Before(rule, a, b) && Before(rule, b, c) ==> Before(rule, a, c)
    ensures Tied(rule, a, b) && Tied(rule, b, c) ==> Tied(rule, a, c)
    ensures Before(rule, a, b) ==> !Before(rule, b, a)
    ensures Before(rule, a, b) && Tied(rule, b, c) ==> Before(rule, a, c)
    ensures Tied(rule, a, b) && Before(rule, b, c) ==> Before(rule, a, c)
  {
  }

  ghost predicate Sorted(rule: Rule, s: seq<Qual>) {
    forall i, j :: 0 <= i < j < |s| ==> !Before(rule, s[j], s[i])
  }

  /** The elements tied with `q`, in their order. */
  function TiedWith(rule: Rule, s: seq<Qual>, q: Qual): seq<Qual> {
    if s == [] then []
    else if Tied(rule, s[0], q) then [s[0]] + TiedWith(rule, s[1..], q)
    else TiedWith(rule, s[1..], q)
  }

  /** Same elements, in order, and ties in the order they came in. */
  ghost predicate StableSortOf(rule: Rule, t: seq<Qual>, s: seq<Qual>) {
    && multiset(t) == multiset(s)
    && Sorted(rule, t)
    && forall q :: TiedWith(rule, t, q) == TiedWith(rule, s, q)
  }

  // ---- a stable sort ------------------------------------------------------------------

  /** Before the first element that is not before it; so ties keep `x` in front. */
  function Insert(rule: Rule, x: Qual, s: seq<Qual>): seq<Qual> {
    if s == [] || !Before(rule, s[0], x) then [x] + s
    else [s[0]] + Insert(rule, x, s[1..])
  }

  function Arrange(rule: Rule, s: seq<Qual>): seq<Qual> {
    if s == [] then [] else Insert(rule, s[0], Arrange(rule, s[1..]))
  }

  lemma {:induction false} InsertIsPermutation(rule: Rule, x: Qual, s: seq<Qual>)
    ensures multiset(Insert(rule, x, s)) == multiset{x} + multiset(s)
  {
    if s != [] && Before(rule, s[0], x) {
      InsertIsPermutation(rule, x, s[1..]);
      assert s == [s[0]] + s[1..];
    }
  }

  lemma SortedTail(rule: Rule, s: seq<Qual>)
    requires s != [] && Sorted(rule, s)
    ensures Sorted(rule, s[1..])
  {
  }

  lemma SortedCons(rule: Rule, x: Qual, s: seq<Qual>)
    requires Sorted(rule, s) && forall y :: y in s ==> !Before(rule, y, x)
    ensures Sorted(rule, [x] + s)
  {
  }

  lemma {:induction false} InsertSorted(rule: Rule, x: Qual, s: seq<Qual>)
    requires Sorted(rule, s)
    ensures Sorted(rule, Insert(rule, x, s))
  {
    if s == [] {
    } else if Before(rule, s[0], x) {
      SortedTail(rule, s);
      InsertSorted(rule, x, s[1..]);
      InsertIsPermutation(rule, x, s[1..]);
      var r := Insert(rule, x, s[1..]);
      forall y | y in r ensures !Before(rule, y, s[0]) {
        assert y in multiset(r);
        assert y == x || y in s[1..];
        StrictWeakOrder(rule, s[0], x, y);
      }
      SortedCons(rule, s[0], r);
    } else {
      forall y | y in s ensures !Before(rule, y, x) {
        StrictWeakOrder(rule, y, x, s[0]);
        StrictWeakOrder(rule, x, s[0], y);
        StrictWeakOrder(rule, y, s[0], x);
      }
      SortedCons(rule, x, s);
    }
  }

  lemma {:induction false} InsertKeepsTies(rule: Rule, x: Qual, s: seq<Qual>, q: Qual)
    ensures TiedWith(rule, Insert(rule, x, s), q) == TiedWith(rule, [x] + s, q)
  {
    assert ([x] + s)[1..] == s;
    if s != [] && Before(rule, s[0], x) {
      InsertKeepsTies(rule, x, s[1..], q);
      assert ([x] + s[1..])[1..] == s[1..];
      assert ([s[0]] + Insert(rule, x, s[1..]))[1..] == Insert(rule, x, s[1..]);
      StrictWeakOrder(rule, s[0], q, x);
      StrictWeakOrder(rule, s[0], x, q);
    }
  }

  lemma {:induction false} ArrangeIsStableSort(rule: Rule, s: seq<Qual>)
    ensures StableSortOf(rule, Arrange(rule, s), s)
  {
    if s != [] {
      var rest := Arrange(rule, s[1..]);
      ArrangeIsStableSort(rule, s[1..]);
      InsertIsPermutation(rule, s[0], rest);
      InsertSorted(rule, s[0], rest);
      assert s == [s[0]] + s[1..];
      forall q ensures TiedWith(rule, Arrange(rule, s), q) == TiedWith(rule, s, q) {
        InsertKeepsTies(rule, s[0], rest, q);
        assert ([s[0]] + rest)[1..] == rest;
      }
    }
  }

  // ---- and the only one -------------------------------------------------------------------

  lemma HeadFirst(rule: Rule, s: seq<Qual>, x: Qual)
    requires Sorted(rule, s) && x in s
    ensures !Before(rule, x, s[0])
  {
    StrictWeakOrder(rule, x, x, x);
  }

  lemma SameMembers(t: seq<Qual>, u: seq<Qual>, x: Qual)
    requires multiset(t) == multiset(u) && x in t
    ensures x in u
  {
    assert x in multiset(t);
  }

  lemma SameHead(rule: Rule, t: seq<Qual>, u: seq<Qual>)
    requires t != [] && Sorted(rule, t) && Sorted(rule, u) && multiset(t) == multiset(u)
    requires TiedWith(rule, t, t[0]) == TiedWith(rule, u, t[0])
    ensures u != [] && t[0] == u[0]
  {
    SameMembers(t, u, t[0]);
    SameMembers(u, t, u[0]);
    HeadFirst(rule, t, u[0]);
    HeadFirst(rule, u, t[0]);
    StrictWeakOrder(rule, t[0], t[0], t[0]);
    TiedHead(rule, t, t[0]);
    TiedHead(rule, u, t[0]);
  }

  lemma TiedHead(rule: Rule, s: seq<Qual>, q: Qual)
    requires s != [] && Tied(rule, s[0], q)
    ensures TiedWith(rule, s, q) != [] && TiedWith(rule, s, q)[0] == s[0]
  {
  }

  lemma TiedCons(rule: Rule, x: Qual, s: seq<Qual>, q: Qual)
    ensures TiedWith(rule, [x] + s, q) == if Tied(rule, x, q) then [x] + TiedWith(rule, s, q) else TiedWith(rule, s, q)
  {
    assert ([x] + s)[1..] == s;
  }

  lemma DropHead<T>(x: seq<T>, s: seq<T>, t: seq<T>)
    ensures x + s == x + t ==> s == t
  {
    assert (x + s)[|x|..] == s && (x + t)[|x|..] == t;
  }

  /** However it is computed, a stable sort by one of the comparators is this one. */
  lemma {:induction false} StableSortIsUnique(rule: Rule, t: seq<Qual>, u: seq<Qual>)
    requires Sorted(rule, t) && Sorted(rule, u) && multiset(t) == multiset(u)
    requires forall q :: TiedWith(rule, t, q) == TiedWith(rule, u, q)
    ensures t == u
    decreases |t|
  {
    if t == [] {
      assert |u| == |multiset(u)|;
    } else {
      SameHead(rule, t, u);
      assert t == [t[0]] + t[1..] && u == [u[0]] + u[1..];
      SortedTail(rule, t);
      SortedTail(rule, u);
      assert multiset(t[1..]) == multiset(t) - multiset{t[0]};
      assert multiset(u[1..]) == multiset(u) - multiset{u[0]};
      forall q ensures TiedWith(rule, t[1..], q) == TiedWith(rule, u[1..], q) {
        TiedCons(rule, t[0], t[1..], q);
        TiedCons(rule, t[0], u[1..], q);
        assert TiedWith(rule, t, q) == TiedWith(rule, u, q);
        DropHead([t[0]], TiedWith(rule, t[1..], q), TiedWith(rule, u[1..], q));
      }
      StableSortIsUnique(rule, t[1..], u[1..]);
    }
  }

  // ---- what the order means ------------------------------------------------------------------

  /** Under either strategy no target at or above the threshold precedes one below it. */
  lemma BelowThresholdFirst(rule: Rule, s: seq<Qual>, i: nat, j: nat)
    requires i < |Arrange(rule, s)| && j < |Arrange(rule, s)|
    requires Below(rule, Arrange(rule, s)[i]) && !Below(rule, Arrange(rule, s)[j])
    ensures i < j
  {
    ArrangeIsStableSort(rule, s);
    var t := Arrange(rule, s);
    assert Before(rule, t[i], t[j]);
  }

  /** Under `SoonestReset`, below the threshold, an earlier known renewal always wins. */
  lemma SoonestResetFirst(rule: Rule, s: seq<Qual>, i: nat, j: nat)
    requires rule.strategy.SoonestReset? && i < |Arrange(rule, s)| && j < |Arrange(rule, s)|
    requires var a, b := Arrange(rule, s)[i], Arrange(rule, s)[j];
             Below(rule, a) && Below(rule, b) && a.renewal.Some? && (b.renewal.Some? ==> a.renewal.value < b.renewal.value)
    ensures i < j
  {
    ArrangeIsStableSort(rule, s);
    var t := Arrange(rule, s);
    assert Before(rule, t[i], t[j]);
  }

  /** Insertion from the back, so that ties stay in order. */
  method StableSort(a: array<Qual>, rule: Rule) returns (sorted: seq<Qual>)
    ensures sorted == Arrange(rule, a[..])
  {
    ghost var was := a[..];
    sorted := [];
    var i := a.Length;
    while i > 0
      invariant 0 <= i <= a.Length
      invariant sorted == Arrange(rule, was[i..])
    {
      i := i - 1;
      assert was[i..][1..] == was[i + 1..];
      sorted := Insert(rule, a[i], sorted);
    }
    assert was[0..] == was;
  }

  method Overwrite(a: array<Qual>, sorted: seq<Qual>)
    requires |sorted| == a.Length
    modifies a
    ensures a[..] == sorted
  {
    for i := 0 to a.Length
      invariant a[..i] == sorted[..i]
    {
      a[i] := sorted[i];
    }
  }

  /** The stable sort, in place over the slice of targets. */
  method SortQualifying(a: array<Qual>, rule: Rule)
    modifies a
    ensures StableSortOf(rule, a[..], old(a[..]))
    ensures a[..] == Arrange(rule, old(a[..]))
  {
    ArrangeIsStableSort(rule, a[..]);
    ArrangeKeepsLength(rule, a[..]);
    var sorted := StableSort(a, rule);
    Overwrite(a, sorted);
  }

  lemma ArrangeKeepsLength(rule: Rule, s: seq<Qual>)
    ensures |Arrange(rule, s)| == |s|
  {
    ArrangeIsStableSort(rule, s);
    assert |multiset(Arrange(rule, s))| == |multiset(s)|;
  }
}
