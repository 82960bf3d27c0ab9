/** Stock datatypes and the few text and ordering facts every other module leans on. */
module Basics {

  datatype Option<+T> = None | Some(value: T)

  // ---- text -------------------------------------------------------------------

  function LowerChar(c: char): char {
    if 'A' <= c <= 'Z' then (c as int + 32) as char else c
  }

  /** ASCII lower-casing; aliases are restricted to ASCII when they are set. */
  function Lower(s: string): string {
    seq(|s|, i requires 0 <= i < |s| => LowerChar(s[i]))
  }

  /** Space, tab, newline, vertical tab, form feed and carriage return. */
  predicate IsSpace(c: char) {
    c == ' ' || '\t' <= c <= '\r'
  }

  function TrimLeft(s: string): string {
    if s != [] && IsSpace(s[0]) then TrimLeft(s[1..]) else s
  }

  function TrimRight(s: string): string {
    if s != [] && IsSpace(s[|s| - 1]) then TrimRight(s[..|s| - 1]) else s
  }

  function Trim(s: string): string {
    TrimRight(TrimLeft(s))
  }

  predicate Trimmed(s: string) {
    s == [] || (!IsSpace(s[0]) && !IsSpace(s[|s| - 1]))
  }

  lemma TrimLeftStartsSolid(s: string)
    ensures TrimLeft(s) == [] || !IsSpace(TrimLeft(s)[0])
  {
  }

  lemma TrimRightKeepsHead(s: string)
    ensures TrimRight(s) <= s
    ensures TrimRight(s) == [] || !IsSpace(TrimRight(s)[|TrimRight(s)| - 1])
  {
  }

  /** Trimming leaves nothing more to trim, and leaves trimmed text alone. */
  lemma TrimIsProjection(s: string)
    ensures Trimmed(Trim(s))
    ensures Trimmed(s) ==> Trim(s) == s
  {
    TrimLeftStartsSolid(s);
    TrimRightKeepsHead(TrimLeft(s));
  }

  lemma TrimTwice(s: string)
    ensures Trim(Trim(s)) == Trim(s)
  {
    TrimIsProjection(s);
    TrimIsProjection(Trim(s));
  }

  // ---- sorted slot sequences ---------------------------------------------------

  /** A slot number: a positive decimal. */
  type Slot = n: int | 0 < n witness 1

  predicate Increasing(s: seq<Slot>) {
    forall i, j :: 0 <= i < j < |s| ==> s[i] < s[j]
  }

  function Elements<T>(s: seq<T>): set<T> {
    set x | x in s
  }

  lemma ElementsAre<T>(s: seq<T>, members: set<T>)
    requires forall x :: x in s <==> x in members
    ensures Elements(s) == members
  {
  }

  predicate NoRepeats<T(==)>(s: seq<T>) {
    forall i, j :: 0 <= i < j < |s| ==> s[i] != s[j]
  }

  lemma ElementsOfCons<T>(x: T, s: seq<T>)
    ensures Elements([x] + s) == {x} + Elements(s)
  {
    assert forall y :: y in [x] + s <==> y == x || y in s;
  }

  function InsertSlot(x: Slot, s: seq<Slot>): (r: seq<Slot>)
    ensures |r| == |s| + 1
    ensures Elements(r) == Elements(s) + {x}
  {
    if s == [] then [x]
    else if x <= s[0] then
      ElementsOfCons(x, s);
      [x] + s
    else
      assert s == [s[0]] + s[1..];
      ElementsOfCons(s[0], s[1..]);
      ElementsOfCons(s[0], InsertSlot(x, s[1..]));
      [s[0]] + InsertSlot(x, s[1..])
  }

  /** `sort.Ints`. */
  function SortSlots(s: seq<Slot>): (r: seq<Slot>)
    ensures |r| == |s|
    ensures Elements(r) == Elements(s)
  {
    if s == [] then []
    else
      assert s == [s[0]] + s[1..];
      ElementsOfCons(s[0], s[1..]);
      InsertSlot(s[0], SortSlots(s[1..]))
  }

  lemma {:induction false} InsertSlotIncreasing(x: Slot, s: seq<Slot>)
    requires Increasing(s) && x !in s
    ensures Increasing(InsertSlot(x, s))
  {
    if s != [] && s[0] < x {
      InsertSlotIncreasing(x, s[1..]);
      var r := InsertSlot(x, s[1..]);
      forall j | 0 <= j < |r| ensures s[0] < r[j] {
        assert r[j] in Elements(r);
      }
    }
  }

  lemma {:induction false} SortSlotsIncreasing(s: seq<Slot>)
    requires NoRepeats(s)
    ensures Increasing(SortSlots(s))
  {
    if s != [] {
      SortSlotsIncreasing(s[1..]);
      assert s[0] !in s[1..];
      assert s[0] !in Elements(SortSlots(s[1..]));
      InsertSlotIncreasing(s[0], SortSlots(s[1..]));
    }
  }

  /** A strictly increasing sequence is determined by its elements. */
  lemma {:induction false} IncreasingUnique(s: seq<Slot>, t: seq<Slot>)
    requires Increasing(s) && Increasing(t)
    requires Elements(s) == Elements(t)
    ensures s == t
  {
    assert s != [] ==> s[0] in Elements(s);
    assert t != [] ==> t[0] in Elements(t);
    if s != [] && t != [] {
      assert s[0] in t && t[0] in s;
      assert s[0] == t[0];
      assert Elements(s[1..]) == Elements(s) - {s[0]} by {
        assert s == [s[0]] + s[1..];
      }
      assert Elements(t[1..]) == Elements(t) - {t[0]} by {
        assert t == [t[0]] + t[1..];
      }
      IncreasingUnique(s[1..], t[1..]);
    }
  }

  lemma {:induction false} LeastFrom(s: set<Slot>, y: Slot)
    requires y in s
    ensures exists m :: m in s && forall x :: x in s ==> m <= x
    decreases s
  {
    var rest := s - {y};
    assert forall x :: x in s ==> x == y || x in rest;
    if z :| z in rest {
      LeastFrom(rest, z);
      var m :| m in rest && forall x :: x in rest ==> m <= x;
      var k := if y < m then y else m;
      assert k in s && forall x :: x in s ==> k <= x;
    } else {
      assert y in s && forall x :: x in s ==> y <= x;
    }
  }

  lemma SomeMember<T>(s: set<T>) returns (y: T)
    requires s != {}
    ensures y in s
  {
    y :| y in s;
  }

  lemma HasLeast(s: set<Slot>)
    requires s != {}
    ensures exists m :: m in s && forall x :: x in s ==> m <= x
  {
    var y := SomeMember(s);
    LeastFrom(s, y);
  }

  function Least(s: set<Slot>): (m: Slot)
    requires s != {}
    ensures m in s && forall x :: x in s ==> m <= x
  {
    HasLeast(s);
    var m :| m in s && forall x :: x in s ==> m <= x;
    m
  }

  /** The members of a finite set in ascending order. */
  function Ascending(s: set<Slot>): (r: seq<Slot>)
    ensures Elements(r) == s
    ensures Increasing(r)
  {
    if s == {} then []
    else
      var m := Least(s);
      var rest := Ascending(s - {m});
      assert forall x :: x in rest ==> x in Elements(rest);
      ElementsOfCons(m, rest);
      [m] + rest
  }
}
