// Ascending listings of finite sets of numbers: the order in which the scripted
// server reports UIDs and the order ranges are compressed in.
module Ascending {

  function Min(a: nat, b: nat): nat {
    if a < b then a else b
  }

  function Max(a: nat, b: nat): nat {
    if a < b then b else a
  }

  ghost predicate StrictlyAscending(s: seq<nat>) {
    forall i, j :: 0 <= i < j < |s| ==> s[i] < s[j]
  }

  ghost function Elements(s: seq<nat>): set<nat> {
    set x | x in s
  }

  ghost predicate Lists(s: seq<nat>, xs: set<nat>) {
    && StrictlyAscending(s)
    && forall x :: x in s <==> x in xs
  }

  lemma {:induction false} Minimum(xs: set<nat>) returns (m: nat)
    requires xs != {}
    ensures m in xs && forall x :: x in xs ==> m <= x
    decreases |xs|
  {
    var x :| x in xs;
    var rest := xs - {x};
    assert forall y :: y in xs ==> y == x || y in rest;
    m := x;
    if rest != {} {
      var least := Minimum(rest);
      m := if least < x then least else x;
    }
  }

  lemma ConsLists(m: nat, rest: seq<nat>, xs: set<nat>)
    requires m in xs && (forall x :: x in xs ==> m <= x) && Lists(rest, xs - {m})
    ensures Lists([m] + rest, xs)
  {
    var s := [m] + rest;
    forall i, j | 0 <= i < j < |s| ensures s[i] < s[j] {
      assert s[j] == rest[j - 1] && rest[j - 1] in rest;
    }
  }

  lemma {:induction false} ListingExists(xs: set<nat>)
    ensures exists s :: Lists(s, xs)
    decreases |xs|
  {
    if xs == {} {
      assert Lists([], xs);
    } else {
      var m := Minimum(xs);
      ListingExists(xs - {m});
      var rest :| Lists(rest, xs - {m});
      ConsLists(m, rest, xs);
    }
  }

  /** The members of `xs` in ascending order. */
  ghost function Sorted(xs: set<nat>): (s: seq<nat>)
    ensures Lists(s, xs)
  {
    ListingExists(xs);
    var s :| Lists(s, xs);
    s
  }

  lemma {:induction false} ListingSize(s: seq<nat>, xs: set<nat>)
    requires Lists(s, xs)
    ensures |s| == |xs|
  {
    assert forall x :: x in xs ==> x in s;
    if s == [] {
      assert xs == {};
    } else {
      var n := |s| - 1;
      assert s[n] in s;
      forall x ensures x in s[..n] <==> x in xs - {s[n]} {
        if x in xs && x != s[n] { assert x in s; }
        if x in s[..n] { assert x in s; }
      }
      ListingSize(s[..n], xs - {s[n]});
    }
  }

  /** A set has one ascending listing, so equal content means equal order. */
  lemma {:induction false} ListingIsUnique(a: seq<nat>, b: seq<nat>)
    requires StrictlyAscending(a) && StrictlyAscending(b)
    requires forall x :: x in a <==> x in b
    ensures a == b
  {
    if b != [] {
      assert b[0] in b;
    }
    if a != [] {
      assert a[0] in b;
      assert b[0] in a;
      assert a[0] == b[0];
      forall x ensures x in a[1..] <==> x in b[1..] {
        if x in a[1..] {
          assert x in b && x != b[0];
        }
        if x in b[1..] {
          assert x in a && x != a[0];
        }
      }
      ListingIsUnique(a[1..], b[1..]);
    }
  }

  lemma SortedIs(s: seq<nat>, xs: set<nat>)
    requires Lists(s, xs)
    ensures Sorted(xs) == s
  {
    ListingIsUnique(s, Sorted(xs));
  }

  /** Position of `x`, or the length when it is absent. */
  function IndexOf(s: seq<nat>, x: nat): (i: nat)
    ensures i <= |s|
    ensures i < |s| <==> x in s
    ensures i < |s| ==> s[i] == x
    ensures forall j :: 0 <= j < i ==> s[j] != x
  {
    if s == [] then 0
    else if s[0] == x then 0
    else 1 + IndexOf(s[1..], x)
  }

  function RemoveAt(s: seq<nat>, i: nat): seq<nat>
    requires i < |s|
  {
    s[..i] + s[i + 1..]
  }

  lemma RemoveAtKeepsOrder(s: seq<nat>, i: nat)
    requires StrictlyAscending(s) && i < |s|
    ensures StrictlyAscending(RemoveAt(s, i))
    ensures forall x :: x in RemoveAt(s, i) <==> x in s && x != s[i]
  {
    var r := RemoveAt(s, i);
    forall x ensures x in r <==> x in s && x != s[i] {
      if x in s && x != s[i] {
        var j :| 0 <= j < |s| && s[j] == x;
        if j < i { assert r[j] == x; } else { assert r[j - 1] == x; }
      }
    }
  }

  // ---- sorting a list by insertion ----

  function Insert(x: nat, s: seq<nat>): seq<nat> {
    if s == [] || x <= s[0] then [x] + s else [s[0]] + Insert(x, s[1..])
  }

  /** The values in ascending order, duplicates kept. */
  function SortValues(values: seq<nat>): (s: seq<nat>)
    ensures |s| == |values|
    ensures multiset(s) == multiset(values)
  {
    if values == [] then []
    else
      assert values == [values[0]] + values[1..];
      InsertKeeps(values[0], SortValues(values[1..]));
      Insert(values[0], SortValues(values[1..]))
  }

  lemma InsertKeeps(x: nat, s: seq<nat>)
    ensures |Insert(x, s)| == |s| + 1
    ensures multiset(Insert(x, s)) == multiset(s) + multiset{x}
  {
    if s != [] && s[0] < x {
      InsertKeeps(x, s[1..]);
      assert s == [s[0]] + s[1..];
    }
  }

  ghost predicate Distinct(s: seq<nat>) {
    forall i, j :: 0 <= i < j < |s| ==> s[i] != s[j]
  }

  lemma {:induction false} InsertLists(x: nat, s: seq<nat>, xs: set<nat>)
    requires Lists(s, xs) && x !in xs
    ensures Lists(Insert(x, s), xs + {x})
  {
    if s == [] || x <= s[0] {
      if s != [] { assert s[0] in xs; }
      var t := [x] + s;
      forall i, j | 0 <= i < j < |t| ensures t[i] < t[j] {
        assert t[j] == s[j - 1];
      }
    } else {
      var tail := s[1..];
      forall y ensures y in tail <==> y in xs - {s[0]} {
        if y in tail { assert y in s; }
        if y in xs && y != s[0] { assert y in s; }
      }
      assert s[0] in xs;
      InsertLists(x, tail, xs - {s[0]});
      var rest := Insert(x, tail);
      var t := [s[0]] + rest;
      forall i, j | 0 <= i < j < |t| ensures t[i] < t[j] {
        assert t[j] == rest[j - 1] && rest[j - 1] in rest;
        if rest[j - 1] != x { assert rest[j - 1] in tail; }
      }
    }
  }

  /** Sorting distinct values gives the ascending listing of their set. */
  lemma {:induction false} SortLists(values: seq<nat>)
    requires Distinct(values)
    ensures Lists(SortValues(values), Elements(values))
  {
    if values != [] {
      SortLists(values[1..]);
      assert Elements(values) == Elements(values[1..]) + {values[0]};
      InsertLists(values[0], SortValues(values[1..]), Elements(values[1..]));
    }
  }

  /** List a set in ascending order. */
  method ListSet(xs: set<nat>) returns (s: seq<nat>)
    ensures s == Sorted(xs)
  {
    var rest := xs;
    s := [];
    while rest != {}
      invariant rest <= xs && Lists(s, xs - rest)
      decreases |rest|
    {
      var x :| x in rest;
      InsertLists(x, s, xs - rest);
      assert xs - rest + {x} == xs - (rest - {x});
      s := Insert(x, s);
      rest := rest - {x};
    }
    assert xs - rest == xs;
    SortedIs(s, xs);
  }
}
