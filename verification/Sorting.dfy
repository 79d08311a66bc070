/** Ascending sequences of numbers, the canonical form of AS_SETs and communities. */
module Sorting {

  predicate Ascending(s: seq<nat>) {
    |s| <= 1 || (s[0] <= s[1] && Ascending(s[1..]))
  }

  /** Ascending and without repetition. */
  predicate Strict(s: seq<nat>) {
    |s| <= 1 || (s[0] < s[1] && Strict(s[1..]))
  }

  ghost function Elems(s: seq<nat>): set<nat> {
    set x | x in s
  }

  function Insert(x: nat, s: seq<nat>): (r: seq<nat>) {
    if s == [] || x <= s[0] then [x] + s else [s[0]] + Insert(x, s[1..])
  }

  /** What qsort leaves: the same values, in ascending order. */
  function Sort(s: seq<nat>): (r: seq<nat>) {
    if s == [] then [] else Insert(s[0], Sort(s[1..]))
  }

  /** Drop every value equal to the one kept before it. */
  function Dedup(s: seq<nat>): (r: seq<nat>) {
    if |s| <= 1 then s
    else if s[0] == s[1] then Dedup(s[1..])
    else [s[0]] + Dedup(s[1..])
  }

  function SortUniq(s: seq<nat>): seq<nat> {
    Dedup(Sort(s))
  }

  lemma {:induction false} InsertAscending(x: nat, s: seq<nat>)
    requires Ascending(s)
    ensures Ascending(Insert(x, s))
    ensures multiset(Insert(x, s)) == multiset(s) + multiset{x}
  {
    if s == [] || x <= s[0] {
      assert ([x] + s)[1..] == s;
    } else {
      InsertAscending(x, s[1..]);
      var r := Insert(x, s[1..]);
      assert ([s[0]] + r)[1..] == r;
      assert s == [s[0]] + s[1..];
    }
  }

  lemma {:induction false} SortAscending(s: seq<nat>)
    ensures Ascending(Sort(s)) && multiset(Sort(s)) == multiset(s)
  {
    if s != [] {
      SortAscending(s[1..]);
      InsertAscending(s[0], Sort(s[1..]));
      assert s == [s[0]] + s[1..];
    }
  }

  lemma SortElems(s: seq<nat>)
    ensures Elems(Sort(s)) == Elems(s)
  {
    SortAscending(s);
    assert forall x :: x in s <==> x in multiset(s);
    assert forall x :: x in Sort(s) <==> x in multiset(Sort(s));
  }

  lemma {:induction false} DedupStrict(s: seq<nat>)
    requires Ascending(s)
    ensures Strict(Dedup(s)) && Elems(Dedup(s)) == Elems(s)
    ensures s != [] ==> Dedup(s) != [] && Dedup(s)[0] == s[0]
  {
    if |s| > 1 {
      DedupStrict(s[1..]);
      var r := Dedup(s[1..]);
      assert ([s[0]] + r)[1..] == r;
      assert Elems(s) == {s[0]} + Elems(s[1..]);
      assert Elems([s[0]] + r) == {s[0]} + Elems(r);
    }
  }

  /** SortUniq gives the strictly ascending list of the same set... */
  lemma SortUniqStrict(s: seq<nat>)
    ensures Strict(SortUniq(s)) && Elems(SortUniq(s)) == Elems(s)
  {
    SortAscending(s);
    SortElems(s);
    DedupStrict(Sort(s));
  }

  lemma {:induction false} StrictHead(s: seq<nat>)
    requires Strict(s) && s != []
    ensures forall x | x in s[1..] :: s[0] < x
  {
    if |s| > 1 {
      StrictHead(s[1..]);
      assert s[1..] == [s[1]] + s[1..][1..];
    }
  }

  /** ...of which there is only one. */
  lemma {:induction false} StrictUnique(s: seq<nat>, t: seq<nat>)
    requires Strict(s) && Strict(t) && Elems(s) == Elems(t)
    ensures s == t
  {
    assert s != [] ==> s[0] in Elems(s);
    assert t != [] ==> t[0] in Elems(t);
    if s != [] && t != [] {
      StrictHead(s);
      StrictHead(t);
      assert s == [s[0]] + s[1..] && t == [t[0]] + t[1..];
      assert s[0] in Elems(t) && t[0] in Elems(s);
      assert s[0] == t[0];
      assert Elems(s[1..]) == Elems(s) - {s[0]};
      assert Elems(t[1..]) == Elems(t) - {t[0]};
      StrictUnique(s[1..], t[1..]);
    }
  }

  /** Equal canonical forms, equal sets. */
  lemma SortUniqDecides(s: seq<nat>, t: seq<nat>)
    ensures SortUniq(s) == SortUniq(t) <==> Elems(s) == Elems(t)
  {
    SortUniqStrict(s);
    SortUniqStrict(t);
    if Elems(s) == Elems(t) {
      StrictUnique(SortUniq(s), SortUniq(t));
    }
  }

  lemma SortUniqFixed(s: seq<nat>)
    requires Strict(s)
    ensures SortUniq(s) == s
  {
    SortUniqStrict(s);
    StrictUnique(SortUniq(s), s);
  }
}
