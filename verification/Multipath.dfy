/**
 Multipath selection (bgpd/bgp_mpath.c).

 Every path to a prefix is a `PathInfo`.  The best path heads a doubly linked
 chain of further paths used in parallel.  The links live in a record that is
 allocated the first time it is needed; the record and its path point at each
 other, so the model keeps the record's fields in the path, with `elem` saying
 whether the record exists.  `Update` edits the chain of the old best path into
 the chain of the new best path, in place, while walking the candidate list.
 */
module Multipath {
  import opened Lists
  import opened Options

  /** The multiprotocol nexthop of an attribute (addresses as big-endian numbers). */
  datatype MpNexthop = MpNexthop(len: nat, globalIn: nat, global: nat, local: nat)

  class PathInfo {
    const nexthop: nat
    const extra: Option<MpNexthop>
    const peer: nat                  // address of the peer, in sockunion_cmp order
    var elem: bool                   // the bgp_info_mpath record is allocated
    var next: PathInfo?              // mp_next
    var prev: PathInfo?              // mp_prev
    var count: nat                   // mp_count
    var multipath: bool              // BGP_INFO_MULTIPATH
    var multipathChanged: bool       // BGP_INFO_MULTIPATH_CHG

    constructor (nexthop: nat, extra: Option<MpNexthop>, peer: nat)
      ensures !elem && next == null && prev == null && count == 0 && !multipath && !multipathChanged
    {
      this.nexthop, this.extra, this.peer := nexthop, extra, peer;
      elem, next, prev, count, multipath, multipathChanged := false, null, null, 0, false, false;
    }
  }

  // ----- Ordering of paths

  function Compare(x: nat, y: nat): int {
    if x < y then -1 else if x > y then 1 else 0
  }

  function NexthopCmp(a: PathInfo, b: PathInfo): int {
    var c := Compare(a.nexthop, b.nexthop);
    if c != 0 || a.extra.None? || b.extra.None? || a.extra.value.len != b.extra.value.len then c
    else
      var (x, y) := (a.extra.value, b.extra.value);
      match x.len
      case 4 => Compare(x.globalIn, y.globalIn)
      case 12 => Compare(x.globalIn, y.globalIn)
      case 16 => Compare(x.global, y.global)
      case 32 =>
        var g := Compare(x.global, y.global);
        if g != 0 then g else Compare(x.local, y.local)
      case _ => 0
  }

  function PathCmp(a: PathInfo, b: PathInfo): int {
    var c := NexthopCmp(a, b);
    if c != 0 then c else Compare(a.peer, b.peer)
  }

  /** Multiprotocol nexthops of the same length, or none: only such nexthops are compared. */
  predicate Comparable(a: PathInfo, b: PathInfo) {
    (a.extra.None? && b.extra.None?) || (a.extra.Some? && b.extra.Some? && a.extra.value.len == b.extra.value.len)
  }

  /** The addresses that a multiprotocol nexthop of this length forwards to. */
  function Addresses(n: Option<MpNexthop>): seq<nat> {
    if n.None? then []
    else if n.value.len == 4 || n.value.len == 12 then [n.value.globalIn]
    else if n.value.len == 16 then [n.value.global]
    else if n.value.len == 32 then [n.value.global, n.value.local]
    else []
  }

  /** Both paths forward to the same place, as far as their nexthops can be compared. */
  predicate SameHop(a: PathInfo, b: PathInfo) {
    a.nexthop == b.nexthop && (Comparable(a, b) ==> Addresses(a.extra) == Addresses(b.extra))
  }

  /** What `a` is ordered by when it is compared with `b`. */
  function Key(a: PathInfo, b: PathInfo): seq<nat> {
    [a.nexthop] + (if Comparable(a, b) then Addresses(a.extra) else []) + [a.peer]
  }

  /** Lexicographic order: the first difference decides. */
  ghost predicate Below(x: seq<nat>, y: seq<nat>) {
    exists i | 0 <= i < |x| && i < |y| :: x[..i] == y[..i] && x[i] < y[i]
  }

  lemma FirstDiffers(x: seq<nat>, y: seq<nat>, i: nat)
    requires i < |x| && i < |y| && x[i] != y[i]
    requires forall j | 0 <= j < i :: x[j] == y[j]
    ensures Below(x, y) <==> x[i] < y[i]
    ensures x != y
  {
    assert x[..i] == y[..i];
    if j :| 0 <= j < |x| && j < |y| && x[..j] == y[..j] && x[j] < y[j] {
      assert j == i;
    }
  }

  lemma NotBelowItself(x: seq<nat>)
    ensures !Below(x, x)
  {
  }

  lemma CompareKeys(a: PathInfo, b: PathInfo)
    ensures |Key(a, b)| == |Key(b, a)|
    ensures NexthopCmp(a, b) == 0 <==> SameHop(a, b)
    ensures PathCmp(a, b) < 0 <==> Below(Key(a, b), Key(b, a))
    ensures PathCmp(a, b) == 0 <==> Key(a, b) == Key(b, a)
  {
    hide Below;
    var x, y := Key(a, b), Key(b, a);
    if x == y {
      NotBelowItself(x);
      assert x[0] == y[0] && x[|x| - 1] == y[|y| - 1];
      assert x[1..|x| - 1] == y[1..|y| - 1];
    } else if x[0] != y[0] {
      FirstDiffers(x, y, 0);
    } else if x[1] != y[1] {
      FirstDiffers(x, y, 1);
    } else if |x| > 2 && x[2] != y[2] {
      FirstDiffers(x, y, 2);
    } else {
      FirstDiffers(x, y, 3);
    }
  }

  /**
   Two paths have the same nexthop for the selection exactly when they forward to the same place, and paths are
   ordered by nexthop, then by these addresses, then by peer.  Among comparable paths this is a total preorder.
   */
  lemma CompareOrders(a: PathInfo, b: PathInfo, c: PathInfo)
    ensures NexthopCmp(a, b) == 0 <==> SameHop(a, b)
    ensures PathCmp(a, b) < 0 <==> Below(Key(a, b), Key(b, a))
    ensures PathCmp(a, b) == 0 <==> Key(a, b) == Key(b, a)
    ensures PathCmp(a, b) == -PathCmp(b, a)
    ensures Comparable(a, b) && Comparable(b, c) && PathCmp(a, b) <= 0 && PathCmp(b, c) <= 0 ==> PathCmp(a, c) <= 0
  {
    hide Below;
    hide Key;
    CompareKeys(a, b);
  }

  // ----- Chains

  /** A path without a record has no links, no count and no flag. */
  ghost predicate Lazy(U: set<PathInfo>)
    reads U
  {
    forall x | x in U && !x.elem :: x.next == null && x.prev == null && x.count == 0 && !x.multipath
  }

  /** The links of all paths of a prefix, as a value. */
  datatype Links = Links(next: map<PathInfo, PathInfo?>, prev: map<PathInfo, PathInfo?>)

  /** `l` is what the link fields of `U` say. */
  ghost predicate Mirrors(U: set<PathInfo>, l: Links)
    reads U`next, U`prev
  {
    && l.next.Keys == U && l.prev.Keys == U
    && (forall x {:trigger x.next} {:trigger l.next[x]} | x in U :: l.next[x] == x.next)
    && (forall x {:trigger x.prev} {:trigger l.prev[x]} | x in U :: l.prev[x] == x.prev)
  }

  ghost function First(c: seq<PathInfo>): PathInfo? {
    if c == [] then null else c[0]
  }

  /** `c` is a doubly linked chain without repetition; `p` is in front of its first member. */
  ghost predicate Chain(l: Links, c: seq<PathInfo>, p: PathInfo?) {
    c == [] ||
    (&& c[0] in l.next && c[0] in l.prev
     && l.prev[c[0]] == p && l.next[c[0]] == First(c[1..])
     && c[0] !in c[1..]
     && Chain(l, c[1..], c[0]))
  }

  ghost predicate Disjoint(a: seq<PathInfo>, b: seq<PathInfo>) {
    forall x | x in a :: x !in b
  }

  /** The links form exactly the two chains `a` and `b`. */
  ghost predicate TwoChains(l: Links, a: seq<PathInfo>, b: seq<PathInfo>) {
    && l.next.Keys == l.prev.Keys
    && Chain(l, a, null) && Chain(l, b, null) && Disjoint(a, b)
    && forall x | x in l.next && x !in a && x !in b :: l.next[x] == null && l.prev[x] == null
  }

  lemma {:induction false} ChainFrame(l: Links, l': Links, c: seq<PathInfo>, p: PathInfo?)
    requires Chain(l, c, p) && l'.next.Keys >= l.next.Keys && l'.prev.Keys >= l.prev.Keys
    requires forall y | y in c && y in l.next && y in l.prev ::
               l'.next[y] == l.next[y] && l'.prev[y] == l.prev[y]
    ensures Chain(l', c, p)
  {
    if c != [] {
      ChainFrame(l, l', c[1..], c[0]);
    }
  }

  /** Every member's neighbours point back at it and are members themselves. */
  lemma {:induction false} ChainMember(l: Links, c: seq<PathInfo>, p: PathInfo?, x: PathInfo)
    requires Chain(l, c, p) && x in c
    ensures x in l.next && x in l.prev
    ensures l.next[x] != null ==> l.next[x] in c[1..] && l.next[x] in l.prev && l.prev[l.next[x]] == x
    ensures x == c[0] ==> l.prev[x] == p
    ensures x != c[0] ==> l.prev[x] in c && l.prev[x] in l.next && l.next[l.prev[x]] == x
  {
    if x != c[0] {
      ChainMember(l, c[1..], c[0], x);
    }
  }

  /** The links after bypassing `x` and clearing its own links. */
  ghost function Unlink(l: Links, x: PathInfo): (r: Links)
    requires x in l.next && x in l.prev
  {
    Links(map y | y in l.next ::
            if y == x then null else if y == l.prev[x] then l.next[x] else l.next[y],
          map y | y in l.prev ::
            if y == x then null else if y == l.next[x] then l.prev[x] else l.prev[y])
  }

  lemma {:induction false} UnlinkMember(l: Links, c: seq<PathInfo>, p: PathInfo?, x: PathInfo)
    requires Chain(l, c, p) && x in c && p !in c && l.next.Keys == l.prev.Keys
    ensures x in l.next && Chain(Unlink(l, x), Without<PathInfo>(c, x), p)
  {
    ChainMember(l, c, p, x);
    var r := Unlink(l, x);
    if c[0] == x {
      if c[1..] != [] {
        ChainFrame(l, r, c[1..][1..], c[1]);
      }
    } else {
      UnlinkMember(l, c[1..], c[0], x);
      ChainMember(l, c[1..], c[0], x);
    }
  }

  lemma UnlinkTwoChains(l: Links, a: seq<PathInfo>, b: seq<PathInfo>, x: PathInfo)
    requires x in l.next && TwoChains(l, a, b)
    ensures TwoChains(Unlink(l, x), Without<PathInfo>(a, x), Without<PathInfo>(b, x))
  {
    var r := Unlink(l, x);
    if x in a {
      ChainMember(l, a, null, x);
      UnlinkMember(l, a, null, x);
      ChainFrame(l, r, b, null);
    } else if x in b {
      ChainMember(l, b, null, x);
      UnlinkMember(l, b, null, x);
      ChainFrame(l, r, a, null);
    } else {
      ChainFrame(l, r, a, null);
      ChainFrame(l, r, b, null);
    }
  }

  /** The links after putting `x` behind `p`. */
  ghost function LinkAfter(l: Links, p: PathInfo, x: PathInfo): (r: Links)
    requires p in l.next && p in l.prev
  {
    Links(map y | y in l.next ::
            if y == x then l.next[p] else if y == p then x else l.next[y],
          map y | y in l.prev ::
            if y == x then p else if y == l.next[p] then x else l.prev[y])
  }

  lemma {:induction false} LinkAtEnd(l: Links, c: seq<PathInfo>, p: PathInfo?, x: PathInfo)
    requires Chain(l, c, p) && c != [] && x !in c && x in l.next && l.next.Keys == l.prev.Keys
    ensures var e := c[|c| - 1]; e in l.next && l.next[e] == null
    ensures Chain(LinkAfter(l, c[|c| - 1], x), c + [x], p)
  {
    var e := c[|c| - 1];
    assert (c + [x])[1..] == c[1..] + [x];
    if |c| > 1 {
      assert c[1..][|c[1..]| - 1] == e;
      LinkAtEnd(l, c[1..], c[0], x);
    } else {
      assert c[1..] + [x] == [x];
    }
  }

  lemma LinkTwoChains(l: Links, a: seq<PathInfo>, b: seq<PathInfo>, x: PathInfo)
    requires TwoChains(l, a, b) && a != []
    requires x in l.next && x !in a && x !in b
    ensures a[|a| - 1] in l.next && a[|a| - 1] in l.prev
    ensures TwoChains(LinkAfter(l, a[|a| - 1], x), a + [x], b)
  {
    var e := a[|a| - 1];
    ChainMember(l, a, null, e);
    LinkAtEnd(l, a, null, x);
    ChainFrame(l, LinkAfter(l, e, x), b, null);
  }

  lemma Neighbours(l: Links, a: seq<PathInfo>, b: seq<PathInfo>, x: PathInfo)
    requires TwoChains(l, a, b) && x in l.next
    ensures l.prev[x] != null ==> l.prev[x] in l.next && l.next[l.prev[x]] == x
    ensures l.next[x] != null ==> l.next[x] in l.prev && l.prev[l.next[x]] == x
    ensures x !in a && x !in b ==> l.prev[x] == null && l.next[x] == null
  {
    if x in a {
      ChainMember(l, a, null, x);
    } else if x in b {
      ChainMember(l, b, null, x);
    }
  }

  /** A path without links has none after another path is bypassed. */
  lemma UnlinkNothing(l: Links, x: PathInfo, y: PathInfo)
    requires x in l.next && x in l.prev && y in l.next && y in l.prev
    requires l.prev[x] != null ==> l.prev[x] in l.next && l.next[l.prev[x]] == x
    requires l.next[x] != null ==> l.next[x] in l.prev && l.prev[l.next[x]] == x
    requires l.next[y] == null && l.prev[y] == null
    ensures Unlink(l, x).next[y] == null && Unlink(l, x).prev[y] == null
  {
  }

  method Bypass(x: PathInfo, ghost U: set<PathInfo>, ghost l: Links)
    requires x in U && Mirrors(U, l)
    requires x.prev != null ==> x.prev in U && x.prev.next == x
    requires x.next != null ==> x.next in U && x.next.prev == x
    modifies U`next, U`prev
    ensures Mirrors(U, Unlink(l, x))
  {
    if x.prev != null {
      x.prev.next := x.next;
    }
    if x.next != null {
      x.next.prev := x.prev;
    }
    x.next, x.prev := null, null;
  }

  lemma UnlinkKeys(l: Links, x: PathInfo)
    requires x in l.next && x in l.prev
    ensures Unlink(l, x).next.Keys == l.next.Keys && Unlink(l, x).prev.Keys == l.prev.Keys
  {
  }

  lemma UnlinkUnlinked(U: set<PathInfo>, l: Links, x: PathInfo)
    requires x in U && Mirrors(U, l) && x.next == null && x.prev == null
    ensures Mirrors(U, Unlink(l, x))
  {
  }

  /** bgp_info_mpath_dequeue */
  method Dequeue(x: PathInfo, ghost U: set<PathInfo>, ghost l: Links)
    requires x in U && Lazy(U) && Mirrors(U, l)
    requires x.prev != null ==> x.prev in U && x.prev.next == x
    requires x.next != null ==> x.next in U && x.next.prev == x
    modifies U`next, U`prev, x`multipath
    ensures Lazy(U) && Mirrors(U, Unlink(l, x))
    ensures !x.multipath
  {
    hide Unlink;
    forall y | y in U && !y.elem
      ensures y in Unlink(l, x).next && y in Unlink(l, x).prev
      ensures Unlink(l, x).next[y] == null && Unlink(l, x).prev[y] == null
    {
      UnlinkKeys(l, x);
      UnlinkNothing(l, x, y);
    }
    if !x.elem {
      UnlinkUnlinked(U, l, x);
      return;
    }
    Bypass(x, U, l);
    x.multipath := false;
  }

  method LinkBehind(p: PathInfo, x: PathInfo, ghost U: set<PathInfo>, ghost l: Links)
    requires p in U && x in U && p != x && Mirrors(U, l)
    requires p.next != null ==> p.next in U && p.next.prev == p
    requires x.prev == null
    modifies U`next, U`prev
    ensures Mirrors(U, LinkAfter(l, p, x))
  {
    x.next := p.next;
    x.prev := p;
    if p.next != null {
      p.next.prev := x;
    }
    p.next := x;
  }

  lemma LinkNothing(l: Links, p: PathInfo, x: PathInfo, y: PathInfo)
    requires p in l.next && p in l.prev && y in l.next && y in l.prev && y != p && y != x
    requires l.next[p] != null ==> l.next[p] in l.prev && l.prev[l.next[p]] == p
    requires l.next[y] == null && l.prev[y] == null
    ensures LinkAfter(l, p, x).next[y] == null && LinkAfter(l, p, x).prev[y] == null
  {
  }

  lemma LinkKeys(l: Links, p: PathInfo, x: PathInfo)
    requires p in l.next && p in l.prev
    ensures LinkAfter(l, p, x).next.Keys == l.next.Keys && LinkAfter(l, p, x).prev.Keys == l.prev.Keys
  {
  }

  /** Paths without links stay without. */
  lemma BareLinks(U: set<PathInfo>, l: Links, p: PathInfo, x: PathInfo, bare: set<PathInfo>)
    requires Mirrors(U, l) && p in U && bare <= U && p !in bare && x !in bare
    requires p.next != null ==> p.next in U && p.next.prev == p
    requires forall y | y in bare :: y.next == null && y.prev == null
    ensures p in l.next && p in l.prev
    ensures forall y | y in bare :: y in LinkAfter(l, p, x).next && y in LinkAfter(l, p, x).prev
    ensures forall y | y in bare :: LinkAfter(l, p, x).next[y] == null && LinkAfter(l, p, x).prev[y] == null
  {
    hide LinkAfter;
    LinkKeys(l, p, x);
    forall y | y in bare
      ensures LinkAfter(l, p, x).next[y] == null && LinkAfter(l, p, x).prev[y] == null
    {
      LinkNothing(l, p, x, y);
    }
  }

  lemma BareFields(U: set<PathInfo>, l: Links, bare: set<PathInfo>)
    requires Mirrors(U, l) && bare <= U
    requires forall y | y in bare :: y in l.next && y in l.prev && l.next[y] == null && l.prev[y] == null
    ensures forall y | y in bare :: y.next == null && y.prev == null
  {
  }

  /** bgp_info_mpath_enqueue: `x` goes right behind `p`. */
  method Enqueue(p: PathInfo, x: PathInfo, ghost U: set<PathInfo>, ghost l: Links)
    requires p in U && x in U && p != x && Lazy(U) && Mirrors(U, l)
    requires p.next != null ==> p.next in U && p.next.prev == p
    requires x.prev == null
    modifies U`next, U`prev, x`multipath, x`elem, p`elem
    ensures Lazy(U) && Mirrors(U, LinkAfter(l, p, x))
    ensures x.multipath && x.elem
  {
    hide LinkAfter;
    hide Mirrors;
    ghost var bare := set y | y in U && !y.elem && y != p && y != x;
    BareLinks(U, l, p, x, bare);
    LinkBehind(p, x, U, l);
    BareFields(U, LinkAfter(l, p, x), bare);
    p.elem, x.elem, x.multipath := true, true, true;
  }

  // ----- The selection

  /**
   The paths a rebuild from scratch would pick: in list order, skip the best
   path, take a path whose nexthop differs from the last one taken, and stop
   after `room` paths.
   */
  ghost function Greedy(mp: seq<PathInfo>, best: PathInfo, last: PathInfo, room: int): (r: seq<PathInfo>)
  {
    if mp == [] || room <= 0 then []
    else if mp[0] != best && NexthopCmp(last, mp[0]) != 0 then
      [mp[0]] + Greedy(mp[1..], best, mp[0], room - 1)
    else Greedy(mp[1..], best, last, room)
  }

  ghost function LastOf(head: PathInfo, c: seq<PathInfo>): PathInfo {
    if c == [] then head else c[|c| - 1]
  }

  ghost predicate Distinct(s: seq<PathInfo>) {
    forall i, j | 0 <= i < j < |s| :: s[i] != s[j]
  }

  /** Earlier candidates never compare above later ones. */
  ghost predicate Sorted(mp: seq<PathInfo>) {
    forall i, j | 0 <= i < j < |mp| :: PathCmp(mp[i], mp[j]) <= 0
  }

  /**
   Candidate `i` comes after the first `k` picks.  It is the next pick; or it is the best path, forwards to the
   same place as the pick before it, or comes when there is no room left.
   */
  ghost predicate Passed(mp: seq<PathInfo>, best: PathInfo, last: PathInfo, room: int, picked: seq<PathInfo>,
                         i: nat, k: nat)
    requires i < |mp| && k <= |picked|
  {
    && (forall j | 0 <= j < k :: picked[j] in mp[..i])
    && (forall j | k <= j < |picked| :: picked[j] in mp[i..])
    && if mp[i] in picked then k < |picked| && picked[k] == mp[i]
       else mp[i] == best || SameHop(LastOf(last, picked[..k]), mp[i]) || (k == |picked| && room <= k)
  }

  ghost predicate Accounted(mp: seq<PathInfo>, best: PathInfo, last: PathInfo, room: int, picked: seq<PathInfo>,
                            i: nat)
    requires i < |mp|
  {
    exists k | 0 <= k <= |picked| :: Passed(mp, best, last, room, picked, i, k)
  }

  /** `picked` is what a rebuild should pick behind `last`, said of each pick and of each candidate. */
  ghost predicate Selected(mp: seq<PathInfo>, best: PathInfo, last: PathInfo, room: int, picked: seq<PathInfo>) {
    && |picked| <= (if room > 0 then room else 0)
    && (forall k | 0 <= k < |picked| :: picked[k] in mp && picked[k] != best)
    && (forall k | 0 <= k < |picked| :: !SameHop(LastOf(last, picked[..k]), picked[k]))
    && (forall i | 0 <= i < |mp| :: Accounted(mp, best, last, room, picked, i))
  }

  ghost function Headed(head: PathInfo?, c: seq<PathInfo>): seq<PathInfo> {
    if head == null then c else [head] + c
  }

  /** The multipath flag is set on exactly the members of `a` and `b`. */
  ghost predicate Flagged(U: set<PathInfo>, a: seq<PathInfo>, b: seq<PathInfo>)
    reads U
  {
    forall x | x in U :: x.multipath <==> x in a || x in b
  }

  /** Dequeue, seen on the two chains. */
  method Remove(x: PathInfo, ghost U: set<PathInfo>, ghost l: Links,
                ghost a: seq<PathInfo>, ghost b: seq<PathInfo>) returns (ghost l': Links)
    requires x in U && Lazy(U) && Mirrors(U, l) && TwoChains(l, a, b)
    modifies U`next, U`prev, x`multipath
    ensures Lazy(U) && Mirrors(U, l') && TwoChains(l', Without<PathInfo>(a, x), Without<PathInfo>(b, x))
    ensures !x.multipath
  {
    hide TwoChains;
    hide Unlink;
    Neighbours(l, a, b, x);
    UnlinkTwoChains(l, a, b, x);
    Dequeue(x, U, l);
    l' := Unlink(l, x);
  }

  /** Enqueue behind the last member of chain `a`. */
  method Append(x: PathInfo, p: PathInfo, ghost U: set<PathInfo>, ghost l: Links,
                ghost a: seq<PathInfo>, ghost b: seq<PathInfo>) returns (ghost l': Links)
    requires x in U && Lazy(U) && Mirrors(U, l) && TwoChains(l, a, b)
    requires a != [] && p == a[|a| - 1] && x !in a && x !in b
    modifies U`next, U`prev, x`multipath, x`elem, p`elem
    ensures Lazy(U) && Mirrors(U, l') && TwoChains(l', a + [x], b)
    ensures x.multipath
  {
    hide TwoChains;
    hide LinkAfter;
    LinkTwoChains(l, a, b, x);
    Neighbours(l, a, b, p);
    Neighbours(l, a, b, x);
    Enqueue(p, x, U, l);
    l' := LinkAfter(l, p, x);
  }

  lemma HeadLinks(l: Links, a: seq<PathInfo>, head: PathInfo, rest: seq<PathInfo>)
    requires TwoChains(l, a, [head] + rest)
    ensures head in l.next && l.next[head] == First(rest)
    ensures head !in rest && Without<PathInfo>([head] + rest, head) == rest
    ensures head !in a
  {
    var all := [head] + rest;
    assert all[1..] == rest;
  }

  /** What is left of the old chain once the new best path is taken off it. */
  ghost function Leftover(chain: seq<PathInfo>, newBest: PathInfo?): seq<PathInfo> {
    if newBest == null then chain else Without<PathInfo>(chain, newBest)
  }

  lemma LeftoverShape(l: Links, oldBest: PathInfo?, newBest: PathInfo?, chain: seq<PathInfo>)
    requires TwoChains(l, [], Headed(oldBest, chain)) && (oldBest == null ==> chain == [])
    ensures newBest != null && newBest != oldBest ==>
              Without<PathInfo>(Headed(oldBest, chain), newBest) == Headed(oldBest, Leftover(chain, newBest))
    ensures newBest == null || newBest == oldBest ==> Leftover(chain, newBest) == chain
    ensures oldBest != null ==> oldBest !in chain
  {
    if oldBest != null {
      assert Headed(oldBest, chain)[1..] == chain;
    }
  }

  /** Taking the old best path off its own chain leaves the chain without a head. */
  method DetachOld(oldBest: PathInfo, ghost U: set<PathInfo>, ghost l: Links, ghost rest: seq<PathInfo>)
      returns (cur: PathInfo?, oldCount: nat, ghost l': Links)
    requires oldBest in U && Lazy(U) && Mirrors(U, l)
    requires TwoChains(l, [], [oldBest] + rest)
    modifies U`next, U`prev, oldBest`multipath, oldBest`count
    ensures Lazy(U) && Mirrors(U, l') && TwoChains(l', [], rest)
    ensures cur == First(rest)
    ensures oldCount == old(oldBest.count) % 0x1_0000 && oldBest.count == 0 && !oldBest.multipath
  {
    hide TwoChains;
    HeadLinks(l, [], oldBest, rest);
    cur := oldBest.next;
    oldCount := oldBest.count % 0x1_0000;
    if oldBest.elem {
      oldBest.count := 0;
    }
    l' := Remove(oldBest, U, l, [], [oldBest] + rest);
  }

  /** The first part of bgp_info_mpath_update: detach both best paths. */
  method Detach(newBest: PathInfo?, oldBest: PathInfo?, ghost U: set<PathInfo>, ghost l: Links,
                ghost chain: seq<PathInfo>)
      returns (cur: PathInfo?, oldCount: nat, ghost l': Links)
    requires newBest != null ==> newBest in U
    requires oldBest != null ==> oldBest in U
    requires oldBest == null ==> chain == []
    requires Lazy(U) && Mirrors(U, l) && Flagged(U, [], chain)
    requires TwoChains(l, [], Headed(oldBest, chain))
    modifies U`next, U`prev, U`multipath, U`count
    ensures Lazy(U) && Mirrors(U, l') && Flagged(U, [], Leftover(chain, newBest))
    ensures TwoChains(l', [], Leftover(chain, newBest))
    ensures cur == First(Leftover(chain, newBest))
    ensures oldCount == if oldBest == null then 0 else old(oldBest.count) % 0x1_0000
    ensures forall x | x in U :: x.count == if x == oldBest then 0 else old(x.count)
  {
    hide TwoChains;
    hide Mirrors;
    oldCount, cur, l' := 0, null, l;
    LeftoverShape(l, oldBest, newBest, chain);
    if newBest != null && newBest != oldBest {
      l' := Remove(newBest, U, l', [], Headed(oldBest, chain));
    }
    if oldBest != null {
      cur, oldCount, l' := DetachOld(oldBest, U, l', Leftover(chain, newBest));
    }
  }

  /** The links of `U` are the new chain so far and the rest of the old one, and the flags agree. */
  ghost predicate Walking(U: set<PathInfo>, l: Links, head: PathInfo?, picked: seq<PathInfo>, rest: seq<PathInfo>)
    reads U
  {
    && Lazy(U) && Mirrors(U, l) && Flagged(U, picked, rest)
    && TwoChains(l, Headed(head, picked), rest)
  }

  /** Take the first path off the old chain. */
  method DropFirst(cur: PathInfo, ghost U: set<PathInfo>, ghost l: Links, ghost head: PathInfo?,
                   ghost picked: seq<PathInfo>, ghost rest: seq<PathInfo>)
      returns (next: PathInfo?, ghost l': Links)
    requires rest != [] && cur == rest[0] && Walking(U, l, head, picked, rest)
    modifies U`next, U`prev, cur`multipath
    ensures Walking(U, l', head, picked, rest[1..]) && next == First(rest[1..])
    ensures cur in U && cur !in rest[1..] && cur !in picked && cur != head
  {
    hide TwoChains;
    assert rest == [cur] + rest[1..];
    HeadLinks(l, Headed(head, picked), cur, rest[1..]);
    next := cur.next;
    l' := Remove(cur, U, l, Headed(head, picked), rest);
  }

  /** Take a candidate off the old chain, wherever it is on it. */
  method DropAny(x: PathInfo, ghost U: set<PathInfo>, ghost l: Links, ghost head: PathInfo?,
                 ghost picked: seq<PathInfo>, ghost rest: seq<PathInfo>)
      returns (ghost l': Links)
    requires x in U && x !in picked && x != head && Walking(U, l, head, picked, rest)
    modifies U`next, U`prev, x`multipath
    ensures Walking(U, l', head, picked, Without<PathInfo>(rest, x))
  {
    hide TwoChains;
    hide Mirrors;
    hide Lazy;
    l' := Remove(x, U, l, Headed(head, picked), rest);
  }

  /** Put a path at the end of the new chain. */
  method Take(x: PathInfo, prev: PathInfo, ghost U: set<PathInfo>, ghost l: Links, ghost head: PathInfo,
              ghost picked: seq<PathInfo>, ghost rest: seq<PathInfo>)
      returns (ghost l': Links)
    requires x in U && x !in picked && x != head && x !in rest && Walking(U, l, head, picked, rest)
    requires prev == LastOf(head, picked) && prev in U
    modifies U`next, U`prev, x`multipath, x`elem, prev`elem
    ensures Walking(U, l', head, picked + [x], rest)
  {
    hide TwoChains;
    hide Mirrors;
    hide Lazy;
    assert Headed(head, picked) + [x] == Headed(head, picked + [x]);
    l' := Append(x, prev, U, l, Headed(head, picked), rest);
  }

  lemma StartWalking(U: set<PathInfo>, l: Links, head: PathInfo?, rest: seq<PathInfo>)
    requires Lazy(U) && Mirrors(U, l) && Flagged(U, [], rest) && TwoChains(l, [], rest)
    requires head != null ==> head in U && head !in rest
    ensures Walking(U, l, head, [], rest)
  {
    if head != null {
      assert Headed(head, []) == [head];
    }
  }

  lemma FirstInside(U: set<PathInfo>, l: Links, head: PathInfo?, picked: seq<PathInfo>, rest: seq<PathInfo>)
    requires Walking(U, l, head, picked, rest) && rest != []
    ensures rest[0] in U && rest[0] !in picked
  {
  }

  lemma HeadApart(U: set<PathInfo>, l: Links, head: PathInfo, picked: seq<PathInfo>, rest: seq<PathInfo>)
    requires Walking(U, l, head, picked, rest)
    ensures head !in picked
  {
    assert Headed(head, picked)[1..] == picked;
  }

  lemma PassedNext(mp: seq<PathInfo>, best: PathInfo, last: PathInfo, room: int, picked: seq<PathInfo>,
                   i: nat, k: nat)
    requires 0 < |mp| && i < |mp[1..]| && k <= |picked| && mp[0] !in mp[1..]
    ensures Passed(mp[1..], best, last, room, picked, i, k) ==> Passed(mp, best, last, room, picked, i + 1, k)
    ensures Passed(mp[1..], best, mp[0], room - 1, picked, i, k) ==>
              Passed(mp, best, last, room, [mp[0]] + picked, i + 1, k + 1)
  {
    hide SameHop;
    assert mp[1..][i] == mp[i + 1];
    assert mp[..i + 1] == [mp[0]] + mp[1..][..i];
    assert mp[i + 1..] == mp[1..][i..];
    var all := [mp[0]] + picked;
    assert all[..k + 1] == [mp[0]] + picked[..k];
    assert mp[0] in mp[..i + 1];
    assert forall j | 0 <= j < |all| :: all[j] == if j == 0 then mp[0] else picked[j - 1];
  }

  /** A candidate is not picked, and the rest is. */
  lemma SelectedSkips(mp: seq<PathInfo>, best: PathInfo, last: PathInfo, room: int, picked: seq<PathInfo>)
    requires mp != [] && mp[0] !in mp[1..] && Selected(mp[1..], best, last, room, picked)
    requires mp[0] == best || SameHop(last, mp[0])
    ensures Selected(mp, best, last, room, picked)
  {
    hide SameHop;
    forall i | 0 <= i < |mp|
      ensures Accounted(mp, best, last, room, picked, i)
    {
      if i == 0 {
        assert mp[0..] == mp;
        assert mp[0] !in picked;
        assert Passed(mp, best, last, room, picked, 0, 0);
      } else {
        assert Accounted(mp[1..], best, last, room, picked, i - 1);
        var k :| 0 <= k <= |picked| && Passed(mp[1..], best, last, room, picked, i - 1, k);
        hide Passed;
        PassedNext(mp, best, last, room, picked, i - 1, k);
      }
    }
  }

  /** A candidate is picked, and the rest behind it. */
  lemma SelectedTakes(mp: seq<PathInfo>, best: PathInfo, last: PathInfo, room: int, picked: seq<PathInfo>)
    requires mp != [] && mp[0] !in mp[1..] && room > 0 && Selected(mp[1..], best, mp[0], room - 1, picked)
    requires mp[0] != best && !SameHop(last, mp[0])
    ensures Selected(mp, best, last, room, [mp[0]] + picked)
  {
    hide SameHop;
    var all := [mp[0]] + picked;
    forall i | 0 <= i < |mp|
      ensures Accounted(mp, best, last, room, all, i)
    {
      if i == 0 {
        assert mp[0..] == mp;
        assert Passed(mp, best, last, room, all, 0, 0);
      } else {
        assert Accounted(mp[1..], best, mp[0], room - 1, picked, i - 1);
        var k :| 0 <= k <= |picked| && Passed(mp[1..], best, mp[0], room - 1, picked, i - 1, k);
        hide Passed;
        PassedNext(mp, best, last, room, picked, i - 1, k);
        assert Passed(mp, best, last, room, all, i, k + 1);
      }
    }
    forall k | 0 <= k < |all|
      ensures all[k] in mp && all[k] != best && !SameHop(LastOf(last, all[..k]), all[k])
    {
      if k > 0 {
        assert all[k] == picked[k - 1];
        assert all[..k] == [mp[0]] + picked[..k - 1];
      }
    }
  }

  /** The greedy pick is the selection. */
  lemma {:induction false} GreedySelected(mp: seq<PathInfo>, best: PathInfo, last: PathInfo, room: int)
    requires Distinct(mp)
    ensures Selected(mp, best, last, room, Greedy(mp, best, last, room))
  {
    hide SameHop;
    hide NexthopCmp;
    if mp != [] && room > 0 {
      hide Selected;
      GreedySelected(mp[1..], best, mp[0], room - 1);
      GreedySelected(mp[1..], best, last, room);
      CompareKeys(last, mp[0]);
      if mp[0] != best && !SameHop(last, mp[0]) {
        SelectedTakes(mp, best, last, room, Greedy(mp[1..], best, mp[0], room - 1));
      } else {
        SelectedSkips(mp, best, last, room, Greedy(mp[1..], best, last, room));
      }
    } else {
      forall i | 0 <= i < |mp|
        ensures Accounted(mp, best, last, room, [], i)
      {
        assert Passed(mp, best, last, room, [], i, 0);
      }
    }
  }

  lemma {:induction false} GreedyBound(mp: seq<PathInfo>, best: PathInfo, last: PathInfo, room: int)
    ensures |Greedy(mp, best, last, room)| <= if room > 0 then room else 0
  {
    if mp != [] && room > 0 {
      GreedyBound(mp[1..], best, mp[0], room - 1);
      GreedyBound(mp[1..], best, last, room);
    }
  }

  /** Where the walk stands against the greedy pick: what is picked so far starts it, the rest is still to come. */
  ghost predicate Progress(mpList: seq<PathInfo>, best: PathInfo, max: int, picked: seq<PathInfo>,
                           prev: PathInfo, mp: seq<PathInfo>, count: int)
  {
    && prev == LastOf(best, picked) && count == 1 + |picked|
    && Distinct(mp) && Disjoint(mp, picked)
    && (Sorted(mpList) ==> Sorted(mp))
    && picked + Greedy(mp, best, prev, max - count) == Greedy(mpList, best, best, max - 1)
  }

  lemma ProgressStart(mpList: seq<PathInfo>, best: PathInfo, max: int)
    requires Distinct(mpList)
    ensures Progress(mpList, best, max, [], best, mpList, 1)
  {
  }

  lemma ProgressStep(mpList: seq<PathInfo>, best: PathInfo, max: int, picked: seq<PathInfo>,
                     prev: PathInfo, mp: seq<PathInfo>, count: int)
    requires mp != [] && Progress(mpList, best, max, picked, prev, mp, count)
    ensures mp[0] !in picked && mp[0] !in mp[1..] && (Sorted(mpList) ==> Sorted(mp))
    ensures prev == LastOf(best, picked)
    ensures if count < max && mp[0] != best && NexthopCmp(prev, mp[0]) != 0
            then Progress(mpList, best, max, picked + [mp[0]], mp[0], mp[1..], count + 1)
            else Progress(mpList, best, max, picked, prev, mp[1..], count)
  {
    hide NexthopCmp;
    hide PathCmp;
    var g := Greedy(mp[1..], best, mp[0], max - count - 1);
    assert picked + ([mp[0]] + g) == (picked + [mp[0]]) + g;
  }

  lemma ProgressDone(mpList: seq<PathInfo>, best: PathInfo, max: int, picked: seq<PathInfo>,
                     prev: PathInfo, mp: seq<PathInfo>, count: int)
    requires Progress(mpList, best, max, picked, prev, mp, count) && (mp == [] || count >= max)
    ensures picked == Greedy(mpList, best, best, max - 1) && count == 1 + |picked|
  {
    assert picked + [] == picked;
  }

  /** A change left its mark: the picks are no prefix of the old chain, or an old member is gone for good. */
  ghost predicate Diverged(taken: seq<PathInfo>, was: seq<PathInfo>, mp: seq<PathInfo>) {
    || !(taken <= was)
    || exists x :: x in was && x !in taken && x !in mp
  }

  /** Walking on, whether the next candidate is picked or not, does not undo a divergence. */
  lemma DivergedShrinks(taken: seq<PathInfo>, was: seq<PathInfo>, mp: seq<PathInfo>)
    requires mp != []
    ensures Diverged(taken, was, mp) ==> Diverged(taken, was, mp[1..])
    ensures Diverged(taken, was, mp) ==> Diverged(taken + [mp[0]], was, mp[1..])
  {
    if taken + [mp[0]] <= was {
      assert taken <= taken + [mp[0]];
    }
  }

  /** Purging a path that sorts before the remaining candidates loses it for good. */
  lemma PurgedForGood(x: PathInfo, mp: seq<PathInfo>)
    requires Sorted(mp) && (mp == [] || (mp[0] != x && PathCmp(x, mp[0]) < 0))
    ensures x !in mp
  {
    if j :| 0 <= j < |mp| && mp[j] == x {
      assert j > 0;
      assert PathCmp(mp[0], mp[j]) <= 0;
      CompareOrders(x, mp[0], x);
    }
  }

  lemma DivergedByRemoval(taken: seq<PathInfo>, rest: seq<PathInfo>, mp: seq<PathInfo>)
    requires rest != [] && rest[0] !in taken && rest[0] !in mp
    ensures Diverged(taken, taken + rest, mp)
  {
    assert (taken + rest)[|taken|] == rest[0];
  }

  lemma DivergedByInsertion(taken: seq<PathInfo>, rest: seq<PathInfo>, y: PathInfo, mp: seq<PathInfo>)
    requires First(rest) != y
    ensures Diverged(taken + [y], taken + rest, mp)
  {
    if taken + [y] <= taken + rest {
      assert (taken + rest)[|taken|] == (taken + [y])[|taken|];
    }
  }

  /** What the change mark says about the chain: unset, nothing has changed; set, something has for good. */
  ghost predicate Marked(changed: bool, picked: seq<PathInfo>, rest: seq<PathInfo>, was: seq<PathInfo>,
                         mp: seq<PathInfo>)
  {
    if changed then Diverged(picked, was, mp) else was == picked + rest
  }

  /** Both walks meet: the head of the old chain moves over, or is dropped. */
  lemma MarkedMeet(changed: bool, picked: seq<PathInfo>, rest: seq<PathInfo>, was: seq<PathInfo>, mp: seq<PathInfo>)
    requires Marked(changed, picked, rest, was, mp)
    requires rest != [] && mp != [] && rest[0] == mp[0] && mp[0] !in picked && mp[0] !in mp[1..]
    ensures Marked(changed, picked + [mp[0]], rest[1..], was, mp[1..])
    ensures Marked(true, picked, rest[1..], was, mp[1..])
  {
    if changed {
      DivergedShrinks(picked, was, mp);
    } else {
      DivergedByRemoval(picked, rest, mp[1..]);
      assert picked + rest == (picked + [rest[0]]) + rest[1..];
    }
  }

  lemma MarkedPurge(changed: bool, picked: seq<PathInfo>, rest: seq<PathInfo>, was: seq<PathInfo>, mp: seq<PathInfo>)
    requires Marked(changed, picked, rest, was, mp) && rest != [] && rest[0] !in picked
    requires Sorted(mp) && (mp == [] || (mp[0] != rest[0] && PathCmp(rest[0], mp[0]) < 0))
    ensures Marked(true, picked, rest[1..], was, mp)
  {
    hide PathCmp;
    if !changed {
      PurgedForGood(rest[0], mp);
      DivergedByRemoval(picked, rest, mp);
    }
  }

  /** A candidate that is not the head of the old chain is picked, or passed over. */
  lemma MarkedInsert(changed: bool, picked: seq<PathInfo>, rest: seq<PathInfo>, was: seq<PathInfo>, mp: seq<PathInfo>)
    requires Marked(changed, picked, rest, was, mp) && mp != [] && First(rest) != mp[0]
    ensures forall r :: Marked(true, picked + [mp[0]], r, was, mp[1..])
    ensures Marked(changed, picked, rest, was, mp[1..])
  {
    if changed {
      DivergedShrinks(picked, was, mp);
    } else {
      DivergedByInsertion(picked, rest, mp[0], mp[1..]);
    }
  }

  lemma MarkedStart(was: seq<PathInfo>, mp: seq<PathInfo>)
    ensures Marked(false, [], was, was, mp)
  {
  }

  lemma MarkedEnd(changed: bool, picked: seq<PathInfo>, was: seq<PathInfo>, mp: seq<PathInfo>)
    requires Marked(changed, picked, [], was, mp)
    ensures changed == (picked != was)
  {
    assert picked + [] == picked;
  }

  lemma ProgressSorted(mpList: seq<PathInfo>, best: PathInfo, max: int, picked: seq<PathInfo>,
                       prev: PathInfo, mp: seq<PathInfo>, count: int)
    requires Progress(mpList, best, max, picked, prev, mp, count) && Sorted(mpList)
    ensures Sorted(mp)
  {
  }

  /** The loop of bgp_info_mpath_update. */
  method Walk(newBest: PathInfo, first: PathInfo?, mpList: seq<PathInfo>, maxpaths: nat,
              ghost U: set<PathInfo>, ghost l: Links, ghost was: seq<PathInfo>)
      returns (ghost picked: seq<PathInfo>, mpathCount: nat, changed: bool, ghost l': Links)
    requires newBest in U && Distinct(mpList) && forall x | x in mpList :: x in U
    requires Walking(U, l, newBest, [], was) && first == First(was)
    modifies U`next, U`prev, U`multipath, U`elem
    ensures Walking(U, l', newBest, picked, [])
    ensures picked == Greedy(mpList, newBest, newBest, maxpaths - 1) && mpathCount == |picked| + 1
    ensures !changed ==> picked == was
    ensures changed && Sorted(mpList) ==> picked != was
  {
    hide Walking;
    hide Progress;
    hide Marked;
    hide Distinct;
    hide Sorted;
    hide LastOf;
    hide Greedy;
    hide NexthopCmp;
    hide PathCmp;
    l' := l;
    ghost var rest := was;
    var cur := first;
    mpathCount, changed := 1, false;
    var prev := newBest;
    var mp := mpList;
    picked := [];
    ProgressStart(mpList, newBest, maxpaths);
    MarkedStart(was, mp);
    while mp != [] || cur != null
      invariant Walking(U, l', newBest, picked, rest) && cur == First(rest) && prev in U
      invariant Progress(mpList, newBest, maxpaths, picked, prev, mp, mpathCount)
      invariant forall x | x in mp :: x in U
      invariant !changed || Sorted(mpList) ==> Marked(changed, picked, rest, was, mp)
      decreases |mp| + |rest|
    {
      if cur == null && mpathCount >= maxpaths {
        break;
      }
      if mp != [] {
        ProgressStep(mpList, newBest, maxpaths, picked, prev, mp, mpathCount);
      }
      if rest != [] {
        FirstInside(U, l', newBest, picked, rest);
      }
      if mp != [] && mp[0] == cur {
        if !changed || Sorted(mpList) {
          MarkedMeet(changed, picked, rest, was, mp);
        }
        var next: PathInfo?;
        next, l' := DropFirst(cur, U, l', newBest, picked, rest);
        rest := rest[1..];
        if mpathCount < maxpaths && NexthopCmp(prev, cur) != 0 {
          l' := Take(cur, prev, U, l', newBest, picked, rest);
          prev := cur;
          picked := picked + [cur];
          mpathCount := mpathCount + 1;
        } else {
          changed := true;
        }
        mp := mp[1..];
        cur := next;
      } else if cur != null && (mp == [] || PathCmp(cur, mp[0]) < 0) {
        if Sorted(mpList) {
          ProgressSorted(mpList, newBest, maxpaths, picked, prev, mp, mpathCount);
          MarkedPurge(changed, picked, rest, was, mp);
        }
        cur, l' := DropFirst(cur, U, l', newBest, picked, rest);
        rest := rest[1..];
        changed := true;
      } else {
        if !changed || Sorted(mpList) {
          MarkedInsert(changed, picked, rest, was, mp);
        }
        var cand := mp[0];
        if mpathCount < maxpaths && cand != newBest && NexthopCmp(prev, cand) != 0 {
          l' := DropAny(cand, U, l', newBest, picked, rest);
          rest := Without<PathInfo>(rest, cand);
          l' := Take(cand, prev, U, l', newBest, picked, rest);
          prev := cand;
          picked := picked + [cand];
          changed := true;
          mpathCount := mpathCount + 1;
        }
        mp := mp[1..];
      }
    }
    ProgressDone(mpList, newBest, maxpaths, picked, prev, mp, mpathCount);
    if !changed || Sorted(mpList) {
      MarkedEnd(changed, picked, was, mp);
    }
  }

  /** Without a new best path the candidate list is empty and the loop only clears the old chain. */
  method Clear(first: PathInfo?, ghost U: set<PathInfo>, ghost l: Links, ghost was: seq<PathInfo>)
      returns (ghost l': Links)
    requires Walking(U, l, null, [], was) && first == First(was)
    modifies U`next, U`prev, U`multipath
    ensures Walking(U, l', null, [], [])
  {
    hide Walking;
    l' := l;
    ghost var rest := was;
    var cur := first;
    while cur != null
      invariant Walking(U, l', null, [], rest) && cur == First(rest)
      decreases |rest|
    {
      FirstInside(U, l', null, [], rest);
      cur, l' := DropFirst(cur, U, l', null, [], rest);
      rest := rest[1..];
    }
  }

  /** bgp_info_mpath_count_set */
  method CountSet(x: PathInfo, count: nat)
    requires !x.elem ==> x.count == 0
    modifies x`elem, x`count
    ensures x.count == count && (old(x.elem) ==> x.elem) && (!x.elem ==> x.count == 0)
  {
    if count == 0 && !x.elem {
      return;
    }
    x.elem := true;
    x.count := count;
  }

  lemma {:induction false} WithoutLength(l: Links, c: seq<PathInfo>, p: PathInfo?, x: PathInfo)
    requires Chain(l, c, p)
    ensures |Without<PathInfo>(c, x)| == if x in c then |c| - 1 else |c|
  {
    if c != [] && c[0] != x {
      WithoutLength(l, c[1..], c[0], x);
    }
  }

  lemma ChainBehindHead(l: Links, head: PathInfo?, c: seq<PathInfo>)
    requires TwoChains(l, [], Headed(head, c)) && (head == null ==> c == [])
    ensures Chain(l, c, head)
  {
    if head != null {
      assert Headed(head, c)[1..] == c;
    }
  }

  /** The count comparison notices a new best path that came off the old chain. */
  lemma LeftoverCount(l: Links, oldBest: PathInfo?, newBest: PathInfo, chain: seq<PathInfo>)
    requires TwoChains(l, [], Headed(oldBest, chain)) && (oldBest == null ==> chain == [])
    requires |Leftover(chain, newBest)| < 0xffff
    ensures |Leftover(chain, newBest)| == |chain| % 0x1_0000 <==> Leftover(chain, newBest) == chain
  {
    hide TwoChains;
    ChainBehindHead(l, oldBest, chain);
    WithoutLength(l, chain, oldBest, newBest);
    if newBest in chain {
      assert |chain| % 0x1_0000 == |chain|;
    } else if |Leftover(chain, newBest)| == |chain| {
      assert |chain| % 0x1_0000 == |chain|;
    }
  }

  /** The last part of bgp_info_mpath_update: the count and the change mark. */
  method Finish(newBest: PathInfo, mpathCount: nat, changed: bool, oldCount: nat,
                ghost U: set<PathInfo>, ghost l: Links, ghost picked: seq<PathInfo>)
    requires newBest in U && mpathCount == |picked| + 1 && Walking(U, l, newBest, picked, [])
    modifies newBest`elem, newBest`count, newBest`multipathChanged
    ensures Walking(U, l, newBest, picked, [])
    ensures newBest.count == |picked|
    ensures newBest.multipathChanged == (old(newBest.multipathChanged) || changed || |picked| != oldCount)
  {
    hide TwoChains;
    CountSet(newBest, mpathCount - 1);
    if changed || newBest.count != oldCount {
      newBest.multipathChanged := true;
    }
  }

  /**
   bgp_info_mpath_update.  Whatever the old chain was, the new chain is the
   selection, every link and flag of the prefix agrees with it, and the count
   is its length.  A caller that sees no change mark has an unchanged chain; over
   a sorted candidate list the mark is set exactly when the chain differs.
   */
  method Update(newBest: PathInfo?, oldBest: PathInfo?, mpList: seq<PathInfo>, maxpaths: nat,
                ghost U: set<PathInfo>, ghost l: Links, ghost chain: seq<PathInfo>)
      returns (ghost picked: seq<PathInfo>, ghost l': Links)
    requires maxpaths < 0x1_0000
    requires newBest != null ==> newBest in U
    requires oldBest != null ==> oldBest in U
    requires newBest == null ==> mpList == []
    requires oldBest == null ==> chain == []
    requires Distinct(mpList) && forall x | x in mpList :: x in U
    requires Lazy(U) && Mirrors(U, l) && Flagged(U, [], chain)
    requires TwoChains(l, [], Headed(oldBest, chain))
    modifies U`next, U`prev, U`multipath, U`elem, U`count
    modifies (if newBest == null then {} else {newBest})`multipathChanged
    ensures Walking(U, l', newBest, picked, [])
    ensures if newBest == null then picked == [] else Selected(mpList, newBest, newBest, maxpaths - 1, picked)
    ensures newBest != null ==> picked == Greedy(mpList, newBest, newBest, maxpaths - 1)
    ensures forall x | x in U :: x.count ==
              if x == newBest then |picked| else if x == oldBest then 0 else old(x.count)
    ensures newBest != null ==>
              var accurate := oldBest == null || old(oldBest.count) == |chain|;
              && (old(newBest.multipathChanged) ==> newBest.multipathChanged)
              && (accurate && !newBest.multipathChanged ==> picked == chain)
              && (accurate && Sorted(mpList) ==>
                    newBest.multipathChanged == (old(newBest.multipathChanged) || picked != chain))
  {
    hide TwoChains;
    hide Mirrors;
    hide Lazy;
    hide Flagged;
    hide Walking;
    hide Sorted;
    hide Distinct;
    hide Greedy;
    hide Selected;
    var cur: PathInfo?, oldCount: nat, mpathCount: nat, changed: bool;
    ghost var was := Leftover(chain, newBest);
    cur, oldCount, l' := Detach(newBest, oldBest, U, l, chain);
    StartWalking(U, l', newBest, was);
    if newBest == null {
      l' := Clear(cur, U, l', was);
      picked := [];
    } else {
      picked, mpathCount, changed, l' := Walk(newBest, cur, mpList, maxpaths, U, l', was);
      Finish(newBest, mpathCount, changed, oldCount, U, l', picked);
      HeadApart(U, l', newBest, picked, []);
      GreedySelected(mpList, newBest, newBest, maxpaths - 1);
      GreedyBound(mpList, newBest, newBest, maxpaths - 1);
      if picked == was {
        LeftoverCount(l, oldBest, newBest, chain);
      }
    }
  }
}
