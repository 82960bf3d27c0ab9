/** Plain rotation: from the active slot to the next one, in sequence order, that may be switched to. */
module Rotation {
  import opened Basics

  /** The index of a slot, or -1. */
  method SeqIndex(s: seq<Slot>, v: Slot) returns (i: int)
    ensures if v in s then 0 <= i < |s| && s[i] == v && v !in s[..i] else i == -1
  {
    for k := 0 to |s|
      invariant v !in s[..k]
    {
      if s[k] == v { return k; }
    }
    return -1;
  }

  /** The slots that are neither disabled nor without stored material, in order. */
  function Eligible(s: seq<Slot>, ok: set<Slot>): seq<Slot> {
    if s == [] then []
    else if s[0] in ok then [s[0]] + Eligible(s[1..], ok)
    else Eligible(s[1..], ok)
  }

  /** What rotation looks at from index `i`: everything else, once, in cyclic order. */
  function Others(s: seq<Slot>, i: nat): seq<Slot>
    requires i < |s|
  {
    s[i + 1..] + s[..i]
  }

  function Next(s: seq<Slot>, i: nat, ok: set<Slot>): Option<Slot>
    requires i < |s|
  {
    var e := Eligible(Others(s, i), ok);
    if e == [] then None else Some(e[0])
  }

  lemma {:induction false} EligibleAppend(s: seq<Slot>, t: seq<Slot>, ok: set<Slot>)
    ensures Eligible(s + t, ok) == Eligible(s, ok) + Eligible(t, ok)
  {
    if s == [] {
      assert s + t == t;
    } else {
      assert (s + t)[1..] == s[1..] + t;
      EligibleAppend(s[1..], t, ok);
    }
  }

  lemma {:induction false} EligibleAre(s: seq<Slot>, ok: set<Slot>, x: Slot)
    ensures x in Eligible(s, ok) <==> x in s && x in ok
  {
    if s != [] {
      EligibleAre(s[1..], ok, x);
      assert x in s <==> x == s[0] || x in s[1..];
    }
  }

  lemma {:induction false} NothingBefore(s: seq<Slot>, ok: set<Slot>, k: nat)
    requires k < |s| && s[k] in ok && forall j :: 0 <= j < k ==> s[j] !in ok
    ensures Eligible(s, ok) != [] && Eligible(s, ok)[0] == s[k]
  {
    if k > 0 { NothingBefore(s[1..], ok, k - 1); }
  }

  lemma {:induction false} NothingAtAll(s: seq<Slot>, ok: set<Slot>)
    requires forall j :: 0 <= j < |s| ==> s[j] !in ok
    ensures Eligible(s, ok) == []
  {
    if s != [] { NothingAtAll(s[1..], ok); }
  }

  /** The rotation loop: offsets one to n - 1 around the sequence, skipping what cannot be a target. */
  method NextAccount(s: seq<Slot>, currentIndex: nat, disabled: set<Slot>, switchable: set<Slot>)
    returns (next: Option<Slot>, skipped: seq<Slot>)
    requires currentIndex < |s|
    ensures next == Next(s, currentIndex, switchable - disabled)
    ensures skipped <= Others(s, currentIndex) && forall x :: x in skipped ==> x !in switchable - disabled
    ensures next.Some? ==> skipped + [next.value] <= Others(s, currentIndex)
  {
    var ok := switchable - disabled;
    ghost var others := Others(s, currentIndex);
    skipped := [];
    for offset := 1 to |s|
      invariant skipped == others[..offset - 1]
      invariant forall j :: 0 <= j < offset - 1 ==> others[j] !in ok
    {
      Around(s, currentIndex, offset);
      var candidate := s[(currentIndex + offset) % |s|];
      if candidate in disabled || candidate !in switchable {
        skipped := skipped + [candidate];
        continue;
      }
      NothingBefore(others, ok, offset - 1);
      return Some(candidate), skipped;
    }
    NothingAtAll(others, ok);
    next := None;
  }

  lemma Around(s: seq<Slot>, i: nat, offset: nat)
    requires i < |s| && 1 <= offset < |s|
    ensures 0 <= (i + offset) % |s| < |s| && Others(s, i)[offset - 1] == s[(i + offset) % |s|]
  {
    if i + offset < |s| {
      assert (i + offset) % |s| == i + offset;
    } else {
      assert (i + offset) % |s| == i + offset - |s|;
    }
  }

  // ---- a single cycle -------------------------------------------------------------------

  /** One step around a ring of `m`. */
  function Succ(k: nat, m: nat): nat {
    if k + 1 == m then 0 else k + 1
  }

  /** `t` steps from `j`, no more than once around. */
  function RingIndex(j: nat, t: nat, m: nat): (r: nat)
    requires j < m && t <= m
    ensures r < m
  {
    if j + t < m then j + t else j + t - m
  }

  lemma RingSplit(s: seq<Slot>, i: nat, ok: set<Slot>)
    requires i < |s| && s[i] in ok
    ensures Eligible(s, ok) == Eligible(s[..i], ok) + [s[i]] + Eligible(s[i + 1..], ok)
    ensures Eligible(Others(s, i), ok) == Eligible(s[i + 1..], ok) + Eligible(s[..i], ok)
  {
    assert s == s[..i] + s[i..];
    EligibleAppend(s[..i], s[i..], ok);
    assert s[i..][1..] == s[i + 1..];
    EligibleAppend(s[i + 1..], s[..i], ok);
  }

  /** The eligible slots form one ring; rotation takes one step along it. */
  lemma NextInRing(s: seq<Slot>, i: nat, ok: set<Slot>) returns (j: nat)
    requires i < |s| && s[i] in ok && |Eligible(s, ok)| >= 2
    ensures var ring := Eligible(s, ok);
            j < |ring| && ring[j] == s[i] && Next(s, i, ok) == Some(ring[Succ(j, |ring|)])
  {
    RingSplit(s, i, ok);
    j := |Eligible(s[..i], ok)|;
  }

  /** Successive switches, each from the slot that the one before it activated. */
  ghost predicate Rotates(s: seq<Slot>, ok: set<Slot>, visits: seq<Slot>) {
    && visits != [] && visits[0] in s
    && forall a, b :: 0 <= a < |visits| && b == a + 1 && b < |visits| ==>
         exists i: nat :: i < |s| && s[i] == visits[a] && Next(s, i, ok) == Some(visits[b])
  }

  lemma {:induction false} EligibleNoRepeats(s: seq<Slot>, ok: set<Slot>)
    requires NoRepeats(s)
    ensures NoRepeats(Eligible(s, ok))
  {
    if s != [] {
      EligibleNoRepeats(s[1..], ok);
      EligibleAre(s[1..], ok, s[0]);
    }
  }

  lemma SameSpot(s: seq<Slot>, a: nat, b: nat)
    requires NoRepeats(s) && a < |s| && b < |s| && s[a] == s[b]
    ensures a == b
  {
  }

  lemma OneStep(s: seq<Slot>, ok: set<Slot>, from: Slot, to: Slot, k: nat)
    requires NoRepeats(s) && |Eligible(s, ok)| >= 2 && k < |Eligible(s, ok)| && Eligible(s, ok)[k] == from
    requires exists i: nat :: i < |s| && s[i] == from && Next(s, i, ok) == Some(to)
    ensures to == Eligible(s, ok)[Succ(k, |Eligible(s, ok)|)]
  {
    var i: nat :| i < |s| && s[i] == from && Next(s, i, ok) == Some(to);
    EligibleAre(s, ok, from);
    EligibleNoRepeats(s, ok);
    var j := NextInRing(s, i, ok);
    SameSpot(Eligible(s, ok), j, k);
  }

  lemma {:induction false} RingSteps(s: seq<Slot>, ok: set<Slot>, visits: seq<Slot>, j: nat, t: nat)
    requires NoRepeats(s) && Rotates(s, ok, visits) && t < |visits| && t <= |Eligible(s, ok)|
    requires |Eligible(s, ok)| >= 2 && j < |Eligible(s, ok)| && Eligible(s, ok)[j] == visits[0]
    ensures visits[t] == Eligible(s, ok)[RingIndex(j, t, |Eligible(s, ok)|)]
  {
    if t > 0 {
      RingSteps(s, ok, visits, j, t - 1);
      OneStep(s, ok, visits[t - 1], visits[t], RingIndex(j, t - 1, |Eligible(s, ok)|));
    }
  }

  /** So a rotation from an eligible slot always has somewhere else to go. */
  lemma NextIsAnother(s: seq<Slot>, i: nat, ok: set<Slot>)
    requires NoRepeats(s) && i < |s| && s[i] in ok && |Eligible(s, ok)| >= 2
    ensures var n := Next(s, i, ok); n.Some? && n.value in s && n.value in ok && n.value != s[i]
  {
    var j := NextInRing(s, i, ok);
    EligibleNoRepeats(s, ok);
    EligibleAre(s, ok, Next(s, i, ok).value);
  }

  /** Going once around a ring without repeats meets every member once. */
  lemma OnceAround(ring: seq<Slot>, visits: seq<Slot>, j: nat)
    requires NoRepeats(ring) && j < |ring| && |visits| == |ring|
    requires forall t: nat :: t < |ring| ==> visits[t] == ring[RingIndex(j, t + 1, |ring|)]
    ensures NoRepeats(visits) && forall x :: x in visits <==> x in ring
  {
    var m := |ring|;
    forall x | x in ring ensures x in visits {
      var k: nat :| k < m && ring[k] == x;
      var t := if k > j then k - j - 1 else k + m - j - 1;
      assert visits[t] == x;
    }
    forall a: nat, b: nat | a < b < m ensures visits[a] != visits[b] {
      if visits[a] == visits[b] { SameSpot(ring, RingIndex(j, a + 1, m), RingIndex(j, b + 1, m)); }
    }
  }

  /**
   With the eligible slots fixed, at least two of them and the active one among them, as many
   switches as there are eligible slots visit each exactly once and end where they began.
   */
  lemma RotationIsASingleCycle(s: seq<Slot>, ok: set<Slot>, visits: seq<Slot>)
    requires NoRepeats(s) && Rotates(s, ok, visits)
    requires visits[0] in ok && |Eligible(s, ok)| >= 2 && |visits| == |Eligible(s, ok)| + 1
    ensures visits[|visits| - 1] == visits[0]
    ensures NoRepeats(visits[1..])
    ensures forall x :: x in visits[1..] <==> x in s && x in ok
  {
    var ring := Eligible(s, ok);
    EligibleAre(s, ok, visits[0]);
    EligibleNoRepeats(s, ok);
    var j: nat :| j < |ring| && ring[j] == visits[0];
    RingSteps(s, ok, visits, j, |ring|);
    forall t: nat | t < |ring| ensures visits[1..][t] == ring[RingIndex(j, t + 1, |ring|)] {
      RingSteps(s, ok, visits, j, t + 1);
    }
    OnceAround(ring, visits[1..], j);
    forall x ensures x in ring <==> x in s && x in ok { EligibleAre(s, ok, x); }
  }
}
