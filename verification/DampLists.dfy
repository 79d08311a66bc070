/**
 The intrusive doubly linked lists of route flap damping: the list macros of bgpd/bgp_advertise.h
 and the reuse-list functions of bgpd/bgp_damp.c.
 */
module DampLists {
  import opened Lists

  /** The numbers of a damping record; `damped` is the BGP_INFO_DAMPED flag of its route. */
  datatype Record = Record(
    penalty: nat, updated: int, suppressed: int, index: nat, flaps: nat, lastUpdate: bool, damped: bool)

  class Info {
    var next: Info?
    var prev: Info?
    var record: Record

    constructor (r: Record)
      ensures record == r && next == null && prev == null
    {
      next, prev, record := null, null, r;
    }
  }

  // ----- Intrusive lists

  /** The link fields of all records, and the heads of the lists, as a value. */
  datatype Memory = Memory(next: map<Info, Info?>, prev: map<Info, Info?>, heads: seq<Info?>)

  ghost function First(l: seq<Info>): Info? {
    if l == [] then null else l[0]
  }

  /** `l` is linked both ways; `p` is in front of its first member. */
  ghost predicate Chain(m: Memory, l: seq<Info>, p: Info?) {
    l == [] ||
    (&& l[0] in m.next && l[0] in m.prev
     && m.prev[l[0]] == p && m.next[l[0]] == First(l[1..])
     && l[0] !in l[1..]
     && Chain(m, l[1..], l[0]))
  }

  /** List `i` is `l`. */
  ghost predicate ListIs(m: Memory, i: nat, l: seq<Info>)
    requires i < |m.heads|
  {
    Chain(m, l, null) && m.heads[i] == First(l)
  }

  /** `at` says on which of the lists each record is. */
  ghost predicate Placed(lists: seq<seq<Info>>, at: map<Info, nat>) {
    && (forall i, x | 0 <= i < |lists| && x in lists[i] :: x in at && at[x] == i)
    && (forall x | x in at :: at[x] < |lists| && x in lists[at[x]])
  }

  /** `lists` are the lists, well linked, with every record on exactly one of them. */
  ghost predicate Linked(m: Memory, lists: seq<seq<Info>>, at: map<Info, nat>) {
    && |lists| == |m.heads|
    && m.next.Keys == at.Keys && m.prev.Keys == at.Keys
    && (forall i | 0 <= i < |lists| :: ListIs(m, i, lists[i]))
    && Placed(lists, at)
  }

  /** BGP_INFO_ADD and bgp_reuse_list_add: in front of list `i`. */
  ghost function Push(m: Memory, i: nat, x: Info): Memory
    requires i < |m.heads|
  {
    var h := m.heads[i];
    Memory(m.next[x := h],
           (if h == null then m.prev[x := null] else m.prev[x := null][h := x]),
           m.heads[i := x])
  }

  /** BGP_INFO_DEL and bgp_reuse_list_delete: out of its neighbours' links, or of the head of list `i`. */
  ghost function Pull(m: Memory, i: nat, x: Info): Memory
    requires i < |m.heads| && x in m.next && x in m.prev
  {
    var n, p := m.next[x], m.prev[x];
    Memory(if p != null then m.next[p := n] else m.next,
           if n != null then m.prev[n := p] else m.prev,
           if p != null then m.heads else m.heads[i := n])
  }

  /** The record is freed. */
  ghost function Drop(m: Memory, x: Info): Memory {
    Memory(m.next - {x}, m.prev - {x}, m.heads)
  }

  lemma {:induction false} ChainFrame(m: Memory, m': Memory, l: seq<Info>, p: Info?)
    requires Chain(m, l, p)
    requires forall y | y in l && y in m.next && y in m.prev ::
               y in m'.next && y in m'.prev && m'.next[y] == m.next[y] && m'.prev[y] == m.prev[y]
    ensures Chain(m', l, p)
  {
    if l != [] {
      ChainFrame(m, m', l[1..], l[0]);
    }
  }

  lemma {:induction false} ChainMember(m: Memory, l: seq<Info>, p: Info?, x: Info)
    requires Chain(m, l, p) && x in l
    ensures x in m.next && x in m.prev
    ensures m.next[x] != null ==> m.next[x] in l[1..] && m.next[x] != x && m.next[x] in m.prev && m.prev[m.next[x]] == x
    ensures x == l[0] ==> m.prev[x] == p
    ensures x != l[0] ==> m.prev[x] != x && m.prev[x] in l && m.prev[x] in m.next && m.next[m.prev[x]] == x
  {
    if x != l[0] {
      ChainMember(m, l[1..], l[0], x);
    }
  }

  lemma OtherList(m: Memory, m': Memory, i: nat, l: seq<Info>)
    requires i < |m.heads| == |m'.heads| && ListIs(m, i, l) && m'.heads[i] == m.heads[i]
    requires forall y | y in l && y in m.next && y in m.prev ::
               y in m'.next && y in m'.prev && m'.next[y] == m.next[y] && m'.prev[y] == m.prev[y]
    ensures ListIs(m', i, l)
  {
    ChainFrame(m, m', l, null);
  }

  lemma PushList(m: Memory, i: nat, l: seq<Info>, x: Info)
    requires i < |m.heads| && ListIs(m, i, l) && x !in l
    ensures ListIs(Push(m, i, x), i, [x] + l)
  {
    var m' := Push(m, i, x);
    assert ([x] + l)[1..] == l;
    if l != [] {
      ChainFrame(m, m', l[1..], l[0]);
    }
  }

  lemma PushPlaced(lists: seq<seq<Info>>, at: map<Info, nat>, i: nat, x: Info)
    requires Placed(lists, at) && x !in at && i < |lists|
    ensures Placed(lists[i := [x] + lists[i]], at[x := i])
  {
    var lists', at' := lists[i := [x] + lists[i]], at[x := i];
    forall j, y | 0 <= j < |lists'| && y in lists'[j]
      ensures y in at' && at'[y] == j
    {
      assert y == x || y in lists[j];
    }
    forall y | y in at'
      ensures at'[y] < |lists'| && y in lists'[at'[y]]
    {
      assert y == x || y in at;
    }
  }

  lemma HeadIn(m: Memory, i: nat, l: seq<Info>)
    requires i < |m.heads| && ListIs(m, i, l)
    ensures m.heads[i] != null ==> m.heads[i] in l
  {
  }

  /** A push leaves the other lists alone. */
  lemma PushOther(m: Memory, i: nat, l: seq<Info>, x: Info, j: nat, k: seq<Info>)
    requires i < |m.heads| && j < |m.heads| && j != i && ListIs(m, i, l) && ListIs(m, j, k)
    requires x !in k && forall y | y in l :: y !in k
    ensures ListIs(Push(m, i, x), j, k)
  {
    HeadIn(m, i, l);
    hide ListIs;
    OtherList(m, Push(m, i, x), j, k);
  }

  lemma PushKeys(m: Memory, i: nat, x: Info)
    requires i < |m.heads| && (m.heads[i] != null ==> m.heads[i] in m.prev)
    ensures var m' := Push(m, i, x);
            |m'.heads| == |m.heads| && m'.next.Keys == m.next.Keys + {x} && m'.prev.Keys == m.prev.Keys + {x}
  {
  }

  lemma PushHeads(m: Memory, j: nat, x: Info)
    requires j < |m.heads|
    ensures |Push(m, j, x).heads| == |m.heads|
  {
  }

  lemma PlacedAt(lists: seq<seq<Info>>, at: map<Info, nat>, i: nat)
    requires Placed(lists, at) && i < |lists|
    ensures forall y | y in lists[i] :: y in at && at[y] == i
  {
  }

  lemma PushListed(m: Memory, lists: seq<seq<Info>>, at: map<Info, nat>, i: nat, x: Info, j: nat)
    requires Linked(m, lists, at) && x !in at && i < |lists| && j < |lists|
    ensures |Push(m, i, x).heads| == |m.heads|
    ensures ListIs(Push(m, i, x), j, lists[i := [x] + lists[i]][j])
  {
    hide Push;
    PushHeads(m, i, x);
    PlacedAt(lists, at, i);
    PlacedAt(lists, at, j);
    hide Placed;
    assert ListIs(m, i, lists[i]) && ListIs(m, j, lists[j]);
    hide ListIs;
    if j == i {
      PushList(m, i, lists[i], x);
    } else {
      PushOther(m, i, lists[i], x, j, lists[j]);
    }
  }

  lemma PushLinked(m: Memory, lists: seq<seq<Info>>, at: map<Info, nat>, i: nat, x: Info)
    requires Linked(m, lists, at) && x !in at && i < |lists|
    ensures Linked(Push(m, i, x), lists[i := [x] + lists[i]], at[x := i])
  {
    hide ListIs;
    hide Push;
    var m', lists', at' := Push(m, i, x), lists[i := [x] + lists[i]], at[x := i];
    PushPlaced(lists, at, i, x);
    PlacedAt(lists, at, i);
    hide Placed;
    HeadIn(m, i, lists[i]);
    PushKeys(m, i, x);
    assert at'.Keys == at.Keys + {x};
    forall j | 0 <= j < |lists'|
      ensures ListIs(m', j, lists'[j])
    {
      PushListed(m, lists, at, i, x, j);
    }
  }

  lemma {:induction false} PullChain(m: Memory, i: nat, l: seq<Info>, p: Info?, x: Info)
    requires Chain(m, l, p) && x in l && p !in l && i < |m.heads|
    requires p != null ==> p in m.next && m.next[p] == First(l)
    ensures x in m.next && x in m.prev && Chain(Pull(m, i, x), Without<Info>(l, x), p)
    ensures p != null ==> p in Pull(m, i, x).next && Pull(m, i, x).next[p] == First(Without<Info>(l, x))
    ensures p == null ==> (if x == l[0] then Pull(m, i, x).heads == m.heads[i := First(Without<Info>(l, x))]
                           else Pull(m, i, x).heads == m.heads)
  {
    ChainMember(m, l, p, x);
    var r := Pull(m, i, x);
    if l[0] == x {
      if l[1..] != [] {
        ChainFrame(m, r, l[1..][1..], l[1]);
      }
    } else {
      PullChain(m, i, l[1..], l[0], x);
      ChainMember(m, l[1..], l[0], x);
    }
  }

  lemma PullList(m: Memory, i: nat, l: seq<Info>, x: Info)
    requires i < |m.heads| && ListIs(m, i, l) && x in l
    ensures x in m.next && x in m.prev
    ensures ListIs(Drop(Pull(m, i, x), x), i, Without<Info>(l, x))
    ensures m.next[x] != null ==> m.next[x] in l && m.next[x] != x
    ensures m.prev[x] != null ==> m.prev[x] in l && m.prev[x] != x
    ensures m.prev[x] != null ==> Pull(m, i, x).heads == m.heads
  {
    PullChain(m, i, l, null, x);
    ChainMember(m, l, null, x);
    ChainFrame(Pull(m, i, x), Drop(Pull(m, i, x), x), Without<Info>(l, x), null);
  }

  lemma PullPlaced(lists: seq<seq<Info>>, at: map<Info, nat>, x: Info)
    requires Placed(lists, at) && x in at
    ensures at[x] < |lists| && Placed(lists[at[x] := Without<Info>(lists[at[x]], x)], at - {x})
  {
  }

  lemma PullKeys(m: Memory, i: nat, x: Info)
    requires i < |m.heads| && x in m.next && x in m.prev
    requires m.next[x] != null ==> m.next[x] in m.prev
    requires m.prev[x] != null ==> m.prev[x] in m.next
    ensures var m' := Drop(Pull(m, i, x), x);
            |m'.heads| == |m.heads| && m'.next.Keys == m.next.Keys - {x} && m'.prev.Keys == m.prev.Keys - {x}
  {
  }

  lemma PullOther(m: Memory, lists: seq<seq<Info>>, at: map<Info, nat>, x: Info, j: nat)
    requires Linked(m, lists, at) && x in at && j < |lists| && j != at[x]
    ensures at[x] < |lists| && x in m.next && x in m.prev
    ensures ListIs(Drop(Pull(m, at[x], x), x), j, lists[j])
  {
    var i := at[x];
    PlacedAt(lists, at, i);
    PlacedAt(lists, at, j);
    assert x in lists[i];
    assert ListIs(m, i, lists[i]) && ListIs(m, j, lists[j]);
    hide Placed;
    PullList(m, i, lists[i], x);
    hide ListIs;
    OtherList(m, Drop(Pull(m, i, x), x), j, lists[j]);
  }

  lemma PullLinked(m: Memory, lists: seq<seq<Info>>, at: map<Info, nat>, x: Info)
    requires Linked(m, lists, at) && x in at
    ensures at[x] < |lists| && x in m.next && x in m.prev
    ensures Linked(Drop(Pull(m, at[x], x), x), lists[at[x] := Without<Info>(lists[at[x]], x)], at - {x})
  {
    var i := at[x];
    PullPlaced(lists, at, x);
    PlacedAt(lists, at, i);
    assert x in lists[i];
    hide Placed;
    hide ListIs;
    PullList(m, i, lists[i], x);
    PullKeys(m, i, x);
    hide Pull;
    hide Drop;
    var m', lists' := Drop(Pull(m, i, x), x), lists[i := Without<Info>(lists[i], x)];
    assert (at - {x}).Keys == at.Keys - {x};
    forall j | 0 <= j < |lists'|
      ensures ListIs(m', j, lists'[j])
    {
      if j != i {
        PullOther(m, lists, at, x, j);
      }
    }
  }
}
