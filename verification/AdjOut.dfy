/**
 Adj-RIB-Out of one peer and address family (bgpd/bgp_advertise.c and the UPDATE
 and WITHDRAW makers of bgpd/bgp_packet.c).

 `Sync` is the state as a value; the `...Step` functions say what each operation
 does to it.  `Peer` holds the state in fields and updates them in place.
 */
module AdjOut {
  import opened Lists
  import opened Options

  type Node = nat   // a node of the route table
  type Attr = nat   // an interned attribute

  /** What an adjacency still has to tell the neighbour. */
  datatype Pending = Quiet | Announce(attr: Attr) | Retract

  datatype Adj = Adj(sent: Option<Attr>, pending: Pending)

  /** struct bgp_advertise_attr: the advertisements that share one attribute. */
  datatype Bucket = Bucket(refcnt: nat, chain: seq<Node>)

  datatype Sync = Sync(
    adj: map<Node, Adj>,
    update: seq<Node>,             // FIFO of announcements
    withdraw: seq<Node>,           // FIFO of withdrawals
    buckets: map<Attr, Bucket>,
    scount: int)

  datatype Packet = UpdatePacket(attr: Attr, prefixes: seq<Node>) | WithdrawPacket(prefixes: seq<Node>)

  /** Octets: a packet's capacity, what precedes the first prefix, and each prefix. */
  datatype Sizes = Sizes(capacity: int, reach: Attr -> nat, unreach: nat, prefix: Node -> nat)

  // ----- The operations, on values

  function Intern(b: map<Attr, Bucket>, a: Attr): map<Attr, Bucket> {
    if a in b then b[a := b[a].(refcnt := b[a].refcnt + 1)] else b[a := Bucket(1, [])]
  }

  function Unintern(b: map<Attr, Bucket>, a: Attr): map<Attr, Bucket>
    requires a in b
  {
    var left := if b[a].refcnt > 0 then b[a].refcnt - 1 else 0;
    if left > 0 then b[a := b[a].(refcnt := left)] else b - {a}
  }

  function Push(b: map<Attr, Bucket>, a: Attr, n: Node): map<Attr, Bucket> {
    var c := Intern(b, a);
    c[a := c[a].(chain := [n] + c[a].chain)]
  }

  function Pull(b: map<Attr, Bucket>, a: Attr, n: Node): map<Attr, Bucket>
    requires a in b
  {
    Unintern(b[a := b[a].(chain := Without(b[a].chain, n))], a)
  }

  /** bgp_advertise_clean: drop the pending advertisement of `n`. */
  function CleanStep(s: Sync, n: Node): Sync
    requires n in s.adj && (s.adj[n].pending.Announce? ==> s.adj[n].pending.attr in s.buckets)
  {
    var quiet := s.(adj := s.adj[n := s.adj[n].(pending := Quiet)],
                    update := Without(s.update, n), withdraw := Without(s.withdraw, n));
    match s.adj[n].pending
    case Announce(a) => quiet.(buckets := Pull(s.buckets, a, n))
    case _ => quiet
  }

  /** The adjacency of `n`, present and with nothing pending. */
  function Opened(s: Sync, n: Node): Sync
    requires n in s.adj && s.adj[n].pending.Announce? ==> s.adj[n].pending.attr in s.buckets
  {
    if n !in s.adj then s.(adj := s.adj[n := Adj(None, Quiet)])
    else if s.adj[n].pending.Quiet? then s
    else CleanStep(s, n)
  }

  /** bgp_adj_out_set */
  function SetStep(s: Sync, n: Node, a: Attr): Sync
    requires n in s.adj && s.adj[n].pending.Announce? ==> s.adj[n].pending.attr in s.buckets
  {
    var q := Opened(s, n);
    q.(adj := q.adj[n := q.adj[n].(pending := Announce(a))],
       buckets := Push(q.buckets, a, n),
       update := q.update + [n])
  }

  /** bgp_adj_out_unset */
  function UnsetStep(s: Sync, n: Node): Sync
    requires n in s.adj && s.adj[n].pending.Announce? ==> s.adj[n].pending.attr in s.buckets
  {
    if n !in s.adj then s
    else
      var q := Opened(s, n);
      if q.adj[n].sent.Some? then
        q.(adj := q.adj[n := q.adj[n].(pending := Retract)], withdraw := q.withdraw + [n])
      else q.(adj := q.adj - {n})
  }

  /** bgp_adj_out_lookup */
  function Lookup(s: Sync, n: Node): bool {
    n in s.adj && match s.adj[n].pending
                  case Announce(_) => true
                  case Retract => false
                  case Quiet => s.adj[n].sent.Some?
  }

  // ----- What every step keeps

  ghost function SentKeys(adj: map<Node, Adj>): set<Node> {
    set n | n in adj && adj[n].sent.Some?
  }

  ghost function SentTo(adj: map<Node, Adj>, n: Node): Option<Attr> {
    if n in adj then adj[n].sent else None
  }

  /** Each pending advertisement is in exactly one FIFO, once. */
  ghost predicate FifosOk(adj: map<Node, Adj>, update: seq<Node>, withdraw: seq<Node>) {
    && NoDup(update) && NoDup(withdraw)
    && (forall n :: n in update <==> n in adj && adj[n].pending.Announce?)
    && (forall n :: n in withdraw <==> n in adj && adj[n].pending.Retract?)
  }

  ghost predicate Holds(b: map<Attr, Bucket>, a: Attr, n: Node) {
    a in b && n in b[a].chain
  }

  /** One non-empty bucket per announced attribute, counting exactly its advertisements. */
  ghost predicate BucketsOk(adj: map<Node, Adj>, b: map<Attr, Bucket>) {
    && (forall a | a in b :: NoDup(b[a].chain) && b[a].refcnt == |b[a].chain| > 0)
    && (forall a, n | a in b && n in b[a].chain :: n in adj && adj[n].pending == Announce(a))
    && (forall n | n in adj && adj[n].pending.Announce? :: Holds(b, adj[n].pending.attr, n))
  }

  ghost predicate Core(s: Sync) {
    FifosOk(s.adj, s.update, s.withdraw) && BucketsOk(s.adj, s.buckets) && s.scount == |SentKeys(s.adj)|
  }

  /** An adjacency with nothing to announce has been announced: only such a route is kept or withdrawn. */
  ghost predicate Settled(adj: map<Node, Adj>) {
    forall n | n in adj && !adj[n].pending.Announce? :: adj[n].sent.Some?
  }

  ghost predicate Inv(s: Sync) {
    Core(s) && Settled(s.adj)
  }

  lemma PullKeeps(adj: map<Node, Adj>, b: map<Attr, Bucket>, n: Node)
    requires BucketsOk(adj, b) && n in adj && adj[n].pending.Announce?
    ensures BucketsOk(adj[n := adj[n].(pending := Quiet)], Pull(b, adj[n].pending.attr, n))
  {
    var a := adj[n].pending.attr;
    var adj' := adj[n := adj[n].(pending := Quiet)];
    var left := Without(b[a].chain, n);
    NoDupWithout(b[a].chain, n);
    var b' := Pull(b, a, n);
    assert b' == if left == [] then b - {a} else b[a := Bucket(|left|, left)];
  }

  lemma PushKeeps(adj: map<Node, Adj>, b: map<Attr, Bucket>, a: Attr, n: Node)
    requires BucketsOk(adj, b) && n in adj && !adj[n].pending.Announce?
    ensures BucketsOk(adj[n := adj[n].(pending := Announce(a))], Push(b, a, n))
  {
    var c := if a in b then b[a].chain else [];
    NoDupPrepend(c, n);
    assert Push(b, a, n) == b[a := Bucket(|c| + 1, [n] + c)];
    hide Push;
  }

  lemma QuietFifos(adj: map<Node, Adj>, update: seq<Node>, withdraw: seq<Node>, n: Node)
    requires FifosOk(adj, update, withdraw) && n in adj
    ensures FifosOk(adj[n := adj[n].(pending := Quiet)], Without(update, n), Without(withdraw, n))
  {
    NoDupWithout(update, n);
    NoDupWithout(withdraw, n);
  }

  lemma AnnouncedHasBucket(s: Sync, n: Node)
    requires Core(s) && n in s.adj && s.adj[n].pending.Announce?
    ensures s.adj[n].pending.attr in s.buckets
  {
  }

  lemma QuietBuckets(adj: map<Node, Adj>, b: map<Attr, Bucket>, n: Node)
    requires BucketsOk(adj, b) && n in adj && !adj[n].pending.Announce?
    ensures BucketsOk(adj[n := adj[n].(pending := Quiet)], b)
  {
  }

  lemma CleanKeeps(s: Sync, n: Node)
    requires Core(s) && n in s.adj
    ensures s.adj[n].pending.Announce? ==> s.adj[n].pending.attr in s.buckets
    ensures Core(CleanStep(s, n))
  {
    hide FifosOk;
    hide BucketsOk;
    hide Pull;
    if s.adj[n].pending.Announce? {
      AnnouncedHasBucket(s, n);
      PullKeeps(s.adj, s.buckets, n);
    } else {
      QuietBuckets(s.adj, s.buckets, n);
    }
    QuietFifos(s.adj, s.update, s.withdraw, n);
    assert SentKeys(CleanStep(s, n).adj) == SentKeys(s.adj);
  }

  lemma NewAdjKeeps(s: Sync, n: Node)
    requires Core(s) && n !in s.adj
    ensures Core(s.(adj := s.adj[n := Adj(None, Quiet)]))
  {
    assert SentKeys(s.adj[n := Adj(None, Quiet)]) == SentKeys(s.adj);
  }

  lemma OpenedKeeps(s: Sync, n: Node)
    requires Core(s)
    ensures Core(Opened(s, n)) && n in Opened(s, n).adj && Opened(s, n).adj[n].pending.Quiet?
    ensures Opened(s, n).adj == s.adj[n := Adj(SentTo(s.adj, n), Quiet)]
  {
    hide BucketsOk;
    hide FifosOk;
    if n !in s.adj {
      NewAdjKeeps(s, n);
    } else if !s.adj[n].pending.Quiet? {
      CleanKeeps(s, n);
    }
  }

  lemma AnnounceFifos(adj: map<Node, Adj>, update: seq<Node>, withdraw: seq<Node>, a: Attr, n: Node)
    requires FifosOk(adj, update, withdraw) && n in adj && adj[n].pending.Quiet?
    ensures FifosOk(adj[n := adj[n].(pending := Announce(a))], update + [n], withdraw)
  {
    NoDupAppend(update, n);
  }

  lemma SetKeeps(s: Sync, n: Node, a: Attr)
    requires Inv(s)
    ensures n in s.adj && s.adj[n].pending.Announce? ==> s.adj[n].pending.attr in s.buckets
    ensures Inv(SetStep(s, n, a))
    ensures SetStep(s, n, a).adj == s.adj[n := Adj(SentTo(s.adj, n), Announce(a))]
  {
    hide FifosOk;
    hide BucketsOk;
    hide Push;
    if n in s.adj && s.adj[n].pending.Announce? {
      AnnouncedHasBucket(s, n);
    }
    OpenedKeeps(s, n);
    var q := Opened(s, n);
    PushKeeps(q.adj, q.buckets, a, n);
    AnnounceFifos(q.adj, q.update, q.withdraw, a, n);
    var r := SetStep(s, n, a);
    assert SentKeys(r.adj) == SentKeys(q.adj);
  }

  lemma RetractFifos(adj: map<Node, Adj>, update: seq<Node>, withdraw: seq<Node>, n: Node)
    requires FifosOk(adj, update, withdraw) && n in adj && adj[n].pending.Quiet?
    ensures FifosOk(adj[n := adj[n].(pending := Retract)], update, withdraw + [n])
    ensures FifosOk(adj - {n}, update, withdraw)
  {
    NoDupAppend(withdraw, n);
  }

  lemma RetractBuckets(adj: map<Node, Adj>, b: map<Attr, Bucket>, n: Node)
    requires BucketsOk(adj, b) && n in adj && adj[n].pending.Quiet?
    ensures BucketsOk(adj[n := adj[n].(pending := Retract)], b)
    ensures BucketsOk(adj - {n}, b)
  {
  }

  lemma UnsetKeeps(s: Sync, n: Node)
    requires Inv(s)
    ensures n in s.adj && s.adj[n].pending.Announce? ==> s.adj[n].pending.attr in s.buckets
    ensures Inv(UnsetStep(s, n))
    ensures UnsetStep(s, n).adj ==
            if SentTo(s.adj, n).Some? then s.adj[n := Adj(SentTo(s.adj, n), Retract)] else s.adj - {n}
  {
    hide FifosOk;
    hide BucketsOk;
    if n in s.adj {
      if s.adj[n].pending.Announce? {
        AnnouncedHasBucket(s, n);
      }
      OpenedKeeps(s, n);
      var q := Opened(s, n);
      RetractFifos(q.adj, q.update, q.withdraw, n);
      RetractBuckets(q.adj, q.buckets, n);
      var r := UnsetStep(s, n);
      assert SentKeys(r.adj) == SentKeys(q.adj);
    }
  }

  // ----- What the neighbour knows, and what it was asked to know

  ghost function Wish(a: Adj): Option<Attr> {
    match a.pending
    case Announce(x) => Some(x)
    case Retract => None
    case Quiet => a.sent
  }

  ghost function Sent(adj: map<Node, Adj>): map<Node, Attr> {
    map n | n in adj && adj[n].sent.Some? :: adj[n].sent.value
  }

  ghost function Wanted(adj: map<Node, Adj>): map<Node, Attr> {
    map n | n in adj && Wish(adj[n]).Some? :: Wish(adj[n]).value
  }

  lemma OneAdj(adj: map<Node, Adj>, n: Node, x: Adj)
    ensures Wanted(adj[n := x]) == if Wish(x).Some? then Wanted(adj)[n := Wish(x).value] else Wanted(adj) - {n}
    ensures Sent(adj[n := x]) == if x.sent.Some? then Sent(adj)[n := x.sent.value] else Sent(adj) - {n}
    ensures Wanted(adj - {n}) == Wanted(adj) - {n} && Sent(adj - {n}) == Sent(adj) - {n}
  {
  }

  lemma SetWants(s: Sync, n: Node, a: Attr)
    requires Inv(s)
    ensures n in s.adj && s.adj[n].pending.Announce? ==> s.adj[n].pending.attr in s.buckets
    ensures Sent(SetStep(s, n, a).adj) == Sent(s.adj)
    ensures Wanted(SetStep(s, n, a).adj) == Wanted(s.adj)[n := a]
  {
    hide Inv;
    SetKeeps(s, n, a);
    OneAdj(s.adj, n, Adj(SentTo(s.adj, n), Announce(a)));
  }

  lemma UnsetWants(s: Sync, n: Node)
    requires Inv(s)
    ensures n in s.adj && s.adj[n].pending.Announce? ==> s.adj[n].pending.attr in s.buckets
    ensures Sent(UnsetStep(s, n).adj) == Sent(s.adj)
    ensures Wanted(UnsetStep(s, n).adj) == Wanted(s.adj) - {n}
  {
    hide Inv;
    UnsetKeeps(s, n);
    OneAdj(s.adj, n, Adj(SentTo(s.adj, n), Retract));
  }

  // ----- The packet makers, on values

  /** The adjacency now has the announced attribute sent. */
  function Mark(s: Sync, n: Node): Sync
    requires n in s.adj && s.adj[n].pending.Announce?
  {
    s.(adj := s.adj[n := s.adj[n].(sent := Some(s.adj[n].pending.attr))],
       scount := if s.adj[n].sent.Some? then s.scount else s.scount + 1)
  }

  /** One turn of the loop in bgp_update_packet. */
  function SendOne(s: Sync, n: Node): Sync
    requires n in s.adj && s.adj[n].pending.Announce? && s.adj[n].pending.attr in s.buckets
  {
    CleanStep(Mark(s, n), n)
  }

  /** The advertisement that shares attribute `a` and comes next. */
  function NextOf(b: map<Attr, Bucket>, a: Attr): Option<Node> {
    if a in b && b[a].chain != [] then Some(b[a].chain[0]) else None
  }

  /** One turn of the loop in bgp_withdraw_packet, ending in bgp_adj_out_remove. */
  function RetractOne(s: Sync, n: Node): Sync
    requires n in s.adj && s.adj[n].pending.Retract?
  {
    var c := CleanStep(s, n);
    c.(adj := c.adj - {n}, scount := c.scount - 1)
  }

  lemma SamePending(adj: map<Node, Adj>, adj': map<Node, Adj>, update: seq<Node>, withdraw: seq<Node>,
                    b: map<Attr, Bucket>)
    requires FifosOk(adj, update, withdraw) && BucketsOk(adj, b)
    requires adj'.Keys == adj.Keys && forall n | n in adj :: adj'[n].pending == adj[n].pending
    ensures FifosOk(adj', update, withdraw) && BucketsOk(adj', b)
  {
  }

  lemma MarkKeeps(s: Sync, n: Node)
    requires Core(s) && n in s.adj && s.adj[n].pending.Announce?
    ensures Core(Mark(s, n))
  {
    hide FifosOk;
    hide BucketsOk;
    SamePending(s.adj, Mark(s, n).adj, s.update, s.withdraw, s.buckets);
    if s.adj[n].sent.Some? {
      assert SentKeys(Mark(s, n).adj) == SentKeys(s.adj);
    } else {
      assert SentKeys(Mark(s, n).adj) == SentKeys(s.adj) + {n};
    }
  }

  lemma OneFifo(s: Sync, n: Node)
    requires Core(s) && n in s.adj
    ensures s.adj[n].pending.Announce? ==> |Without(s.update, n)| < |s.update| && n !in s.withdraw
    ensures s.adj[n].pending.Retract? ==> |Without(s.withdraw, n)| < |s.withdraw| && n !in s.update
  {
    NoDupWithout(s.update, n);
    NoDupWithout(s.withdraw, n);
  }

  lemma SendOneKeeps(s: Sync, n: Node)
    requires Inv(s) && n in s.adj && s.adj[n].pending.Announce?
    ensures s.adj[n].pending.attr in s.buckets && Inv(SendOne(s, n))
    ensures SendOne(s, n).adj == s.adj[n := Adj(Some(s.adj[n].pending.attr), Quiet)]
    ensures |SendOne(s, n).update| < |s.update| && SendOne(s, n).withdraw == s.withdraw
  {
    hide Core;
    AnnouncedHasBucket(s, n);
    MarkKeeps(s, n);
    OneFifo(s, n);
    CleanKeeps(Mark(s, n), n);
  }

  lemma SendOneWants(s: Sync, n: Node)
    requires Inv(s) && n in s.adj && s.adj[n].pending.Announce?
    ensures s.adj[n].pending.attr in s.buckets
    ensures Wanted(SendOne(s, n).adj) == Wanted(s.adj)
    ensures Sent(SendOne(s, n).adj) == Sent(s.adj)[n := s.adj[n].pending.attr]
  {
    hide Inv;
    SendOneKeeps(s, n);
    hide SendOne;
    OneAdj(s.adj, n, Adj(Some(s.adj[n].pending.attr), Quiet));
  }

  lemma RetractOneKeeps(s: Sync, n: Node)
    requires Inv(s) && n in s.adj && s.adj[n].pending.Retract?
    ensures Inv(RetractOne(s, n))
    ensures RetractOne(s, n).adj == s.adj - {n}
    ensures |RetractOne(s, n).withdraw| < |s.withdraw| && RetractOne(s, n).update == s.update
  {
    hide BucketsOk;
    hide FifosOk;
    OneFifo(s, n);
    CleanKeeps(s, n);
    var c := CleanStep(s, n);
    RetractFifos(c.adj, c.update, c.withdraw, n);
    RetractBuckets(c.adj, c.buckets, n);
    assert SentKeys(c.adj) == SentKeys(c.adj - {n}) + {n};
    assert c.adj - {n} == s.adj - {n};
  }

  lemma NextIsAnnounced(s: Sync, a: Attr)
    requires Inv(s) && NextOf(s.buckets, a).Some?
    ensures var n := NextOf(s.buckets, a).value; n in s.adj && s.adj[n].pending == Announce(a)
  {
    assert s.buckets[a].chain[0] in s.buckets[a].chain;
  }

  /** The loop of bgp_update_packet: from `next` on, the prefixes that go into this packet. */
  ghost function UpdateLoop(s: Sync, next: Option<Node>, a: Attr, sz: Sizes, used: int, first: bool)
      : (r: (Sync, seq<Node>))
    requires Inv(s) && (next.Some? ==> next.value in s.adj && s.adj[next.value].pending == Announce(a))
    decreases |s.update|
  {
    if next.None? || sz.capacity - used <= 1 + sz.prefix(next.value) then (s, [])
    else
      var n := next.value;
      SendOneKeeps(s, n);
      var t := SendOne(s, n);
      if NextOf(t.buckets, a).Some? then
        NextIsAnnounced(t, a);
        var r := UpdateLoop(t, NextOf(t.buckets, a), a, sz,
                            (if first then sz.reach(a) else used) + 1 + sz.prefix(n), false);
        (r.0, [n] + r.1)
      else (t, [n])
  }

  ghost function Announced(view: map<Node, Attr>, a: Attr, ps: seq<Node>): map<Node, Attr>
    decreases ps
  {
    if ps == [] then view else Announced(view[ps[0] := a], a, ps[1..])
  }

  ghost function Retracted(view: map<Node, Attr>, ps: seq<Node>): map<Node, Attr>
    decreases ps
  {
    if ps == [] then view else Retracted(view - {ps[0]}, ps[1..])
  }

  /** Going from `s` to `t` announced exactly `ps`, all with attribute `a`, and changed no wish. */
  ghost predicate Shipped(s: Sync, t: Sync, a: Attr, ps: seq<Node>) {
    && t.withdraw == s.withdraw
    && Wanted(t.adj) == Wanted(s.adj)
    && Sent(t.adj) == Announced(Sent(s.adj), a, ps)
    && (if ps == [] then t == s else |t.update| < |s.update|)
    && forall p | p in ps :: p in s.adj && s.adj[p].pending == Announce(a)
  }

  lemma ShippedStep(s: Sync, n: Node, t: Sync, ps: seq<Node>)
    requires Inv(s) && n in s.adj && s.adj[n].pending.Announce? && s.adj[n].pending.attr in s.buckets
    requires Shipped(SendOne(s, n), t, s.adj[n].pending.attr, ps)
    ensures Shipped(s, t, s.adj[n].pending.attr, [n] + ps)
  {
    hide Inv;
    hide Wanted;
    hide Sent;
    SendOneKeeps(s, n);
    SendOneWants(s, n);
    hide SendOne;
    assert ([n] + ps)[1..] == ps;
  }

  lemma ShippedNothing(s: Sync, a: Attr)
    ensures Shipped(s, s, a, [])
  {
  }

  lemma {:induction false} UpdateLoopKeeps(s: Sync, next: Option<Node>, a: Attr, sz: Sizes, used: int, first: bool)
    requires Inv(s) && (next.Some? ==> next.value in s.adj && s.adj[next.value].pending == Announce(a))
    ensures var (t, ps) := UpdateLoop(s, next, a, sz, used, first);
            && Inv(t) && Shipped(s, t, a, ps)
            && (ps == [] <==> next.None? || sz.capacity - used <= 1 + sz.prefix(next.value))
    decreases |s.update|
  {
    hide Inv;
    hide SendOne;
    hide Shipped;
    ShippedNothing(s, a);
    if next.Some? && sz.capacity - used > 1 + sz.prefix(next.value) {
      var n := next.value;
      SendOneKeeps(s, n);
      var t := SendOne(s, n);
      if NextOf(t.buckets, a).Some? {
        NextIsAnnounced(t, a);
        var used' := (if first then sz.reach(a) else used) + 1 + sz.prefix(n);
        UpdateLoopKeeps(t, NextOf(t.buckets, a), a, sz, used', false);
        var r := UpdateLoop(t, NextOf(t.buckets, a), a, sz, used', false);
        ShippedStep(s, n, r.0, r.1);
      } else {
        ShippedNothing(t, a);
        ShippedStep(s, n, t, []);
        assert [n] + [] == [n];
      }
    }
  }

  lemma HeadIsAnnounced(s: Sync)
    requires Inv(s)
    ensures s.update != [] ==> s.update[0] in s.adj && s.adj[s.update[0]].pending.Announce?
    ensures s.withdraw != [] ==> s.withdraw[0] in s.adj && s.adj[s.withdraw[0]].pending.Retract?
  {
  }

  /** bgp_update_packet */
  ghost function UpdateStep(s: Sync, sz: Sizes): (r: (Sync, Option<Packet>))
    requires Inv(s)
  {
    if s.update == [] then (s, None)
    else
      HeadIsAnnounced(s);
      var n := s.update[0];
      var a := s.adj[n].pending.attr;
      var (t, ps) := UpdateLoop(s, Some(n), a, sz, 0, true);
      (t, if ps == [] then None else Some(UpdatePacket(a, ps)))
  }

  /** The loop of bgp_withdraw_packet. */
  ghost function WithdrawLoop(s: Sync, sz: Sizes, used: int, first: bool): (r: (Sync, seq<Node>))
    requires Inv(s)
    decreases |s.withdraw|
  {
    if s.withdraw == [] || sz.capacity - used < 3 + sz.prefix(s.withdraw[0]) then (s, [])
    else
      var n := s.withdraw[0];
      HeadIsAnnounced(s);
      RetractOneKeeps(s, n);
      var r := WithdrawLoop(RetractOne(s, n), sz, (if first then sz.unreach else used) + 1 + sz.prefix(n), false);
      (r.0, [n] + r.1)
  }

  /** Going from `s` to `t` withdrew exactly `ps`, and changed no wish. */
  ghost predicate Pulled(s: Sync, t: Sync, ps: seq<Node>) {
    && t.update == s.update
    && Wanted(t.adj) == Wanted(s.adj)
    && Sent(t.adj) == Retracted(Sent(s.adj), ps)
    && (if ps == [] then t == s else |t.withdraw| < |s.withdraw|)
  }

  lemma PulledStep(s: Sync, n: Node, t: Sync, ps: seq<Node>)
    requires Inv(s) && n in s.adj && s.adj[n].pending.Retract? && Pulled(RetractOne(s, n), t, ps)
    ensures Pulled(s, t, [n] + ps)
  {
    hide Inv;
    RetractOneKeeps(s, n);
    hide RetractOne;
    OneAdj(s.adj, n, s.adj[n]);
    assert s.adj[n := s.adj[n]] == s.adj;
    hide Wanted;
    hide Sent;
    assert ([n] + ps)[1..] == ps;
  }

  lemma PulledNothing(s: Sync)
    ensures Pulled(s, s, [])
  {
  }

  lemma {:induction false} WithdrawLoopKeeps(s: Sync, sz: Sizes, used: int, first: bool)
    requires Inv(s)
    ensures var (t, ps) := WithdrawLoop(s, sz, used, first);
            && Inv(t) && Pulled(s, t, ps)
            && (ps == [] <==> s.withdraw == [] || sz.capacity - used < 3 + sz.prefix(s.withdraw[0]))
    decreases |s.withdraw|
  {
    hide Inv;
    hide RetractOne;
    hide Pulled;
    PulledNothing(s);
    if s.withdraw != [] && sz.capacity - used >= 3 + sz.prefix(s.withdraw[0]) {
      var n := s.withdraw[0];
      HeadIsAnnounced(s);
      RetractOneKeeps(s, n);
      var used' := (if first then sz.unreach else used) + 1 + sz.prefix(n);
      WithdrawLoopKeeps(RetractOne(s, n), sz, used', false);
      var r := WithdrawLoop(RetractOne(s, n), sz, used', false);
      PulledStep(s, n, r.0, r.1);
    }
  }

  /** bgp_withdraw_packet */
  ghost function WithdrawStep(s: Sync, sz: Sizes): (r: (Sync, Option<Packet>))
    requires Inv(s)
  {
    var (t, ps) := WithdrawLoop(s, sz, 0, true);
    (t, if ps == [] then None else Some(WithdrawPacket(ps)))
  }

  // ----- Whole runs

  datatype Op = SetOp(node: Node, attr: Attr) | UnsetOp(node: Node) | UpdateOp(sizes: Sizes) | WithdrawOp(sizes: Sizes)

  /** The state and the packets written so far. */
  datatype World = World(s: Sync, wire: seq<Packet>)

  const Start := World(Sync(map[], [], [], map[], 0), [])

  ghost function Written(wire: seq<Packet>, p: Option<Packet>): seq<Packet> {
    if p.Some? then wire + [p.value] else wire
  }

  ghost function Step(w: World, op: Op): (r: World)
    requires Inv(w.s)
  {
    match op
    case SetOp(n, a) => SetKeeps(w.s, n, a); World(SetStep(w.s, n, a), w.wire)
    case UnsetOp(n) => UnsetKeeps(w.s, n); World(UnsetStep(w.s, n), w.wire)
    case UpdateOp(sz) => var (t, p) := UpdateStep(w.s, sz); World(t, Written(w.wire, p))
    case WithdrawOp(sz) => var (t, p) := WithdrawStep(w.s, sz); World(t, Written(w.wire, p))
  }

  /** What the neighbour makes of one packet, and of all of them in order. */
  ghost function Apply(view: map<Node, Attr>, p: Packet): map<Node, Attr> {
    match p
    case UpdatePacket(a, ps) => Announced(view, a, ps)
    case WithdrawPacket(ps) => Retracted(view, ps)
  }

  ghost function View(wire: seq<Packet>): map<Node, Attr> {
    if wire == [] then map[] else Apply(View(wire[..|wire| - 1]), wire[|wire| - 1])
  }

  /** The routes as last requested. */
  ghost function Requests(ops: seq<Op>): map<Node, Attr> {
    if ops == [] then map[]
    else
      var before := Requests(ops[..|ops| - 1]);
      match ops[|ops| - 1]
      case SetOp(n, a) => before[n := a]
      case UnsetOp(n) => before - {n}
      case _ => before
  }

  /** Between operations: the neighbour knows exactly what was sent, and the wishes are the requests. */
  ghost predicate Synchronised(w: World, requests: map<Node, Attr>) {
    Inv(w.s) && View(w.wire) == Sent(w.s.adj) && Wanted(w.s.adj) == requests
  }

  lemma ViewAppend(wire: seq<Packet>, p: Packet)
    ensures View(wire + [p]) == Apply(View(wire), p)
  {
    assert (wire + [p])[..|wire|] == wire;
  }

  lemma UpdateStepKeeps(w: World, sz: Sizes, requests: map<Node, Attr>)
    requires Synchronised(w, requests)
    ensures Synchronised(Step(w, UpdateOp(sz)), requests)
    ensures var (t, p) := UpdateStep(w.s, sz);
            && (p.Some? ==> |t.update| < |w.s.update|)
            && (p.None? ==> t == w.s)
            && t.withdraw == w.s.withdraw
            && (p.None? <==> w.s.update == [] || sz.capacity <= 1 + sz.prefix(w.s.update[0]))
            && (p.Some? ==> p.value.UpdatePacket? &&
                            forall n | n in p.value.prefixes ::
                              n in w.s.adj && w.s.adj[n].pending == Announce(p.value.attr))
  {
    hide Inv;
    hide Sent;
    hide Wanted;
    hide UpdateLoop;
    if w.s.update != [] {
      HeadIsAnnounced(w.s);
      var n := w.s.update[0];
      UpdateLoopKeeps(w.s, Some(n), w.s.adj[n].pending.attr, sz, 0, true);
      var p := UpdateStep(w.s, sz).1;
      if p.Some? {
        ViewAppend(w.wire, p.value);
      }
    }
  }

  lemma WithdrawStepKeeps(w: World, sz: Sizes, requests: map<Node, Attr>)
    requires Synchronised(w, requests)
    ensures Synchronised(Step(w, WithdrawOp(sz)), requests)
    ensures var (t, p) := WithdrawStep(w.s, sz);
            && (p.Some? ==> |t.withdraw| < |w.s.withdraw|)
            && (p.None? ==> t == w.s)
            && t.update == w.s.update
            && (p.None? <==> w.s.withdraw == [] || sz.capacity < 3 + sz.prefix(w.s.withdraw[0]))
  {
    hide Inv;
    hide Sent;
    hide Wanted;
    hide WithdrawLoop;
    WithdrawLoopKeeps(w.s, sz, 0, true);
    var p := WithdrawStep(w.s, sz).1;
    if p.Some? {
      ViewAppend(w.wire, p.value);
    }
  }

  /** One operation keeps everything, and changes the requests only by what it asks for. */
  lemma StepKeeps(w: World, op: Op, ops: seq<Op>)
    requires Synchronised(w, Requests(ops))
    ensures Synchronised(Step(w, op), Requests(ops + [op]))
  {
    hide Inv;
    hide Sent;
    hide Wanted;
    hide View;
    assert (ops + [op])[..|ops|] == ops;
    match op
    case SetOp(n, a) => SetKeeps(w.s, n, a); SetWants(w.s, n, a); hide SetStep;
    case UnsetOp(n) => UnsetKeeps(w.s, n); UnsetWants(w.s, n); hide UnsetStep;
    case UpdateOp(sz) => UpdateStepKeeps(w, sz, Requests(ops));
    case WithdrawOp(sz) => WithdrawStepKeeps(w, sz, Requests(ops));
  }

  lemma StepInv(w: World, op: Op)
    requires Inv(w.s)
    ensures Inv(Step(w, op).s)
  {
    hide Inv;
    hide Sent;
    hide Wanted;
    hide UpdateLoop;
    hide WithdrawLoop;
    match op
    case SetOp(n, a) => SetKeeps(w.s, n, a); hide SetStep;
    case UnsetOp(n) => UnsetKeeps(w.s, n); hide UnsetStep;
    case UpdateOp(sz) =>
      if w.s.update != [] {
        HeadIsAnnounced(w.s);
        var n := w.s.update[0];
        UpdateLoopKeeps(w.s, Some(n), w.s.adj[n].pending.attr, sz, 0, true);
      }
    case WithdrawOp(sz) => WithdrawLoopKeeps(w.s, sz, 0, true);
  }

  lemma StartRun()
    ensures Synchronised(Start, Requests([]))
  {
    assert SentKeys(map[]) == {};
  }

  ghost function Run(ops: seq<Op>): (w: World)
    ensures Inv(w.s)
  {
    hide Step;
    if ops == [] then StartRun(); Start
    else
      hide Inv;
      var before := Run(ops[..|ops| - 1]);
      StepInv(before, ops[|ops| - 1]);
      Step(before, ops[|ops| - 1])
  }

  lemma {:induction false} RunSynchronised(ops: seq<Op>)
    ensures Synchronised(Run(ops), Requests(ops))
  {
    hide Synchronised;
    hide Step;
    hide Requests;
    if ops == [] {
      StartRun();
    } else {
      var before := ops[..|ops| - 1];
      var op := ops[|ops| - 1];
      RunSynchronised(before);
      StepKeeps(Run(before), op, before);
      assert before + [op] == ops;
    }
  }

  lemma WantedWhenDrained(s: Sync)
    requires Inv(s) && s.update == [] && s.withdraw == []
    ensures Wanted(s.adj) == Sent(s.adj)
  {
    assert forall n | n in s.adj :: n !in s.update && n !in s.withdraw && s.adj[n].pending.Quiet?;
  }

  lemma LookupIsWanted(s: Sync, n: Node)
    requires Inv(s)
    ensures Lookup(s, n) <==> n in Wanted(s.adj)
  {
  }

  /**
   For every interleaving of requests and packets: the neighbour's table is what
   has been sent, a lookup answers the last request, and once both FIFOs are
   empty the neighbour's table is the table of last requests.
   */
  lemma NeighbourFollowsRequests(ops: seq<Op>)
    ensures var w := Run(ops);
            && Inv(w.s)
            && View(w.wire) == Sent(w.s.adj)
            && (forall n :: Lookup(w.s, n) <==> n in Requests(ops))
            && (w.s.update == [] && w.s.withdraw == [] ==> View(w.wire) == Requests(ops))
  {
    var w := Run(ops);
    hide Run;
    RunSynchronised(ops);
    forall n ensures Lookup(w.s, n) <==> n in Requests(ops) {
      LookupIsWanted(w.s, n);
    }
    if w.s.update == [] && w.s.withdraw == [] {
      WantedWhenDrained(w.s);
    }
  }

  /** Every prefix fits into a packet of its own. */
  ghost predicate Roomy(sz: Sizes) {
    forall n: Node :: 3 + sz.prefix(n) <= sz.capacity
  }

  lemma RoomFor(sz: Sizes, n: Node)
    requires Roomy(sz)
    ensures 3 + sz.prefix(n) <= sz.capacity
  {
  }

  lemma StepDrains(w: World, sz: Sizes)
    requires Inv(w.s) && Roomy(sz)
    ensures var v := Step(w, WithdrawOp(sz));
            Inv(v.s) && v.s.update == w.s.update && (w.s.withdraw != [] ==> |v.s.withdraw| < |w.s.withdraw|)
    ensures var v := Step(w, UpdateOp(sz));
            Inv(v.s) && v.s.withdraw == w.s.withdraw && (w.s.update != [] ==> |v.s.update| < |w.s.update|)
  {
    hide Inv;
    hide Roomy;
    WithdrawLoopKeeps(w.s, sz, 0, true);
    RoomFor(sz, if w.s.withdraw == [] then 0 else w.s.withdraw[0]);
    if w.s.update != [] {
      HeadIsAnnounced(w.s);
      var n := w.s.update[0];
      UpdateLoopKeeps(w.s, Some(n), w.s.adj[n].pending.attr, sz, 0, true);
      RoomFor(sz, n);
    }
    hide UpdateLoop;
    hide WithdrawLoop;
    hide Sent;
    hide Wanted;
  }

  /** Packets that empty the FIFOs of `s`. */
  ghost function Drain(w: World, sz: Sizes): (r: seq<Op>)
    requires Inv(w.s) && Roomy(sz)
    decreases |w.s.update| + |w.s.withdraw|
  {
    hide Inv;
    if w.s.withdraw != [] then
      StepDrains(w, sz);
      [WithdrawOp(sz)] + Drain(Step(w, WithdrawOp(sz)), sz)
    else if w.s.update != [] then
      StepDrains(w, sz);
      [UpdateOp(sz)] + Drain(Step(w, UpdateOp(sz)), sz)
    else []
  }

  lemma RunStep(ops: seq<Op>, op: Op)
    ensures Inv(Run(ops).s) && Run(ops + [op]) == Step(Run(ops), op)
    ensures op.UpdateOp? || op.WithdrawOp? ==> Requests(ops + [op]) == Requests(ops)
  {
    hide Synchronised;
    hide Step;
    assert (ops + [op])[..|ops|] == ops;
  }

  lemma {:induction false} RunDrains(ops: seq<Op>, sz: Sizes)
    requires Roomy(sz)
    ensures Inv(Run(ops).s)
    ensures var w := Run(ops + Drain(Run(ops), sz)); w.s.update == [] && w.s.withdraw == []
    ensures Requests(ops + Drain(Run(ops), sz)) == Requests(ops)
    decreases |Run(ops).s.update| + |Run(ops).s.withdraw|
  {
    hide Inv;
    hide Roomy;
    hide Synchronised;
    hide Step;
    hide Run;
    hide Requests;
    var w := Run(ops);
    var op := if w.s.withdraw != [] then WithdrawOp(sz) else UpdateOp(sz);
    RunStep(ops, op);
    if w.s.withdraw != [] || w.s.update != [] {
      StepDrains(w, sz);
      RunDrains(ops + [op], sz);
      assert ops + Drain(w, sz) == (ops + [op]) + Drain(Step(w, op), sz);
    } else {
      assert ops + [] == ops;
    }
  }

  /** From any reachable state, enough packets bring the neighbour's table to the last requests. */
  lemma NeighbourConverges(ops: seq<Op>, sz: Sizes)
    requires Roomy(sz)
    ensures View(Run(ops + Drain(Run(ops), sz)).wire) == Requests(ops)
  {
    hide Inv;
    hide Roomy;
    RunDrains(ops, sz);
    NeighbourFollowsRequests(ops + Drain(Run(ops), sz));
  }

  // ----- The peer, updated in place

  lemma UpdateLoopStop(s: Sync, next: Option<Node>, a: Attr, sz: Sizes, used: int, first: bool)
    requires Inv(s) && (next.Some? ==> next.value in s.adj && s.adj[next.value].pending == Announce(a))
    requires next.None? || sz.capacity - used <= 1 + sz.prefix(next.value)
    ensures UpdateLoop(s, next, a, sz, used, first) == (s, [])
  {
  }

  lemma WithdrawLoopStop(s: Sync, sz: Sizes, used: int, first: bool)
    requires Inv(s) && (s.withdraw == [] || sz.capacity - used < 3 + sz.prefix(s.withdraw[0]))
    ensures WithdrawLoop(s, sz, used, first) == (s, [])
  {
  }

  lemma WithdrawLoopTurn(s: Sync, sz: Sizes, used: int, first: bool)
    requires Inv(s) && s.withdraw != [] && sz.capacity - used >= 3 + sz.prefix(s.withdraw[0])
    ensures var n := s.withdraw[0];
            && n in s.adj && s.adj[n].pending.Retract? && Inv(RetractOne(s, n))
            && var used' := (if first then sz.unreach else used) + 1 + sz.prefix(n);
               var r := WithdrawLoop(RetractOne(s, n), sz, used', false);
               WithdrawLoop(s, sz, used, first) == (r.0, [n] + r.1)
  {
    hide Inv;
    HeadIsAnnounced(s);
    RetractOneKeeps(s, s.withdraw[0]);
  }

  lemma SendOneThere(s: Sync, n: Node, a: Attr)
    requires Inv(s) && n in s.adj && s.adj[n].pending == Announce(a)
    ensures a in s.buckets && Inv(SendOne(s, n))
    ensures var t := SendOne(s, n);
            var next := NextOf(t.buckets, a);
            next.Some? ==> next.value in t.adj && t.adj[next.value].pending == Announce(a)
  {
    hide Inv;
    SendOneKeeps(s, n);
    var t := SendOne(s, n);
    hide SendOne;
    if NextOf(t.buckets, a).Some? {
      NextIsAnnounced(t, a);
    }
  }

  lemma UpdateLoopTurn(s: Sync, n: Node, a: Attr, sz: Sizes, used: int, first: bool)
    requires Inv(s) && n in s.adj && s.adj[n].pending == Announce(a)
    requires sz.capacity - used > 1 + sz.prefix(n)
    ensures a in s.buckets && Inv(SendOne(s, n))
    ensures var t := SendOne(s, n);
            var next := NextOf(t.buckets, a);
            && (next.Some? ==> next.value in t.adj && t.adj[next.value].pending == Announce(a))
            && var r := UpdateLoop(t, next, a, sz, (if first then sz.reach(a) else used) + 1 + sz.prefix(n), false);
               UpdateLoop(s, Some(n), a, sz, used, first) == (r.0, [n] + r.1)
  {
    hide Inv;
    hide SendOne;
    hide NextOf;
    SendOneThere(s, n, a);
    var t := SendOne(s, n);
    if NextOf(t.buckets, a).None? {
      assert [n] + [] == [n];
    }
  }

  lemma SendOneNext(s: Sync, n: Node)
    requires Inv(s) && n in s.adj && s.adj[n].pending.Announce? && s.adj[n].pending.attr in s.buckets
    ensures var a := s.adj[n].pending.attr;
            var c := Without(s.buckets[a].chain, n);
            NextOf(SendOne(s, n).buckets, a) == if c == [] then None else Some(c[0])
  {
    NoDupWithout(s.buckets[s.adj[n].pending.attr].chain, n);
  }

  class Peer {
    var adj: map<Node, Adj>
    var update: seq<Node>
    var withdraw: seq<Node>
    var buckets: map<Attr, Bucket>
    var scount: int
    var wire: seq<Packet>

    ghost function State(): Sync
      reads this
    {
      Sync(adj, update, withdraw, buckets, scount)
    }

    constructor ()
      ensures World(State(), wire) == Start
    {
      adj, update, withdraw, buckets, scount, wire := map[], [], [], map[], 0, [];
    }

    /** bgp_advertise_clean; `next` is the next advertisement with the same attribute. */
    method AdvertiseClean(n: Node) returns (next: Option<Node>)
      requires n in adj && (adj[n].pending.Announce? ==> adj[n].pending.attr in buckets)
      modifies this`adj, this`update, this`withdraw, this`buckets
      ensures State() == old(CleanStep(State(), n))
      ensures next == if old(adj[n].pending.Announce?)
                      then var c := Without(old(buckets[adj[n].pending.attr].chain), n);
                           if c == [] then None else Some(c[0])
                      else None
    {
      next := None;
      var pending := adj[n].pending;
      if pending.Announce? {
        var baa := buckets[pending.attr];
        baa := baa.(chain := Without(baa.chain, n));
        if baa.chain != [] {
          next := Some(baa.chain[0]);
        }
        if baa.refcnt > 0 {
          baa := baa.(refcnt := baa.refcnt - 1);
        }
        if baa.refcnt > 0 {
          buckets := buckets[pending.attr := baa];
        } else {
          buckets := buckets - {pending.attr};
        }
      }
      update := Without(update, n);
      withdraw := Without(withdraw, n);
      adj := adj[n := adj[n].(pending := Quiet)];
    }

    /** bgp_adj_out_set */
    method Set(n: Node, a: Attr)
      requires Inv(State())
      modifies this`adj, this`update, this`withdraw, this`buckets
      ensures Inv(State()) && World(State(), wire) == Step(old(World(State(), wire)), SetOp(n, a))
    {
      hide Inv;
      SetKeeps(State(), n, a);
      ghost var q := Opened(State(), n);
      if n !in adj {
        adj := adj[n := Adj(None, Quiet)];
      } else if !adj[n].pending.Quiet? {
        var _ := AdvertiseClean(n);
      }
      assert State() == q;
      hide Opened;
      adj := adj[n := adj[n].(pending := Announce(a))];
      var baa := if a in buckets then buckets[a] else Bucket(0, []);
      baa := Bucket(baa.refcnt + 1, [n] + baa.chain);
      buckets := buckets[a := baa];
      assert buckets == Push(q.buckets, a, n);
      hide Push;
      update := update + [n];
    }

    /** bgp_adj_out_unset */
    method Unset(n: Node)
      requires Inv(State())
      modifies this`adj, this`update, this`withdraw, this`buckets
      ensures Inv(State()) && World(State(), wire) == Step(old(World(State(), wire)), UnsetOp(n))
    {
      hide Inv;
      UnsetKeeps(State(), n);
      if n !in adj {
        return;
      }
      if !adj[n].pending.Quiet? {
        var _ := AdvertiseClean(n);
      }
      hide CleanStep;
      if adj[n].sent.Some? {
        adj := adj[n := adj[n].(pending := Retract)];
        withdraw := withdraw + [n];
      } else {
        adj := adj - {n};
      }
    }

    /** What bgp_update_packet does with one prefix once it is in the packet. */
    method Announced(n: Node, attr: Attr) returns (next: Option<Node>)
      requires Inv(State()) && n in adj && adj[n].pending == Announce(attr)
      modifies this`adj, this`update, this`withdraw, this`buckets, this`scount
      ensures Inv(State()) && attr in old(buckets) && State() == SendOne(old(State()), n)
      ensures next == NextOf(buckets, attr)
      ensures next.Some? ==> next.value in adj && adj[next.value].pending == Announce(attr)
      ensures |update| < old(|update|)
    {
      hide Inv;
      ghost var turn := State();
      SendOneKeeps(turn, n);
      SendOneNext(turn, n);
      if adj[n].sent.None? {
        scount := scount + 1;
      }
      adj := adj[n := adj[n].(sent := Some(attr))];
      assert State() == Mark(turn, n);
      hide Mark;
      next := AdvertiseClean(n);
      hide CleanStep;
      if next.Some? {
        NextIsAnnounced(State(), attr);
      }
    }

    /** bgp_update_packet */
    method MakeUpdate(sz: Sizes) returns (packet: Option<Packet>)
      requires Inv(State())
      modifies this
      ensures Inv(State()) && World(State(), wire) == Step(old(World(State(), wire)), UpdateOp(sz))
      ensures packet == UpdateStep(old(State()), sz).1
    {
      hide Inv;
      hide SendOne;
      hide NextOf;
      hide UpdateLoop;
      packet := None;
      if update == [] {
        return;
      }
      HeadIsAnnounced(State());
      var next: Option<Node> := Some(update[0]);
      var attr := adj[update[0]].pending.attr;
      var used := 0;
      var prefixes: seq<Node> := [];
      ghost var whole := UpdateLoop(State(), next, attr, sz, 0, true);
      while next.Some?
        invariant Inv(State()) && wire == old(wire)
        invariant next.Some? ==> next.value in adj && adj[next.value].pending == Announce(attr)
        invariant var rest := UpdateLoop(State(), next, attr, sz, used, prefixes == []);
                  whole.0 == rest.0 && whole.1 == prefixes + rest.1
        decreases |update|
      {
        var n := next.value;
        if sz.capacity - used <= 1 + sz.prefix(n) {
          break;
        }
        ghost var turn := State();
        UpdateLoopTurn(turn, n, attr, sz, used, prefixes == []);
        if prefixes == [] {
          used := sz.reach(attr);
        }
        used := used + 1 + sz.prefix(n);
        next := Announced(n, attr);
        ghost var rest := UpdateLoop(State(), next, attr, sz, used, false);
        assert prefixes + ([n] + rest.1) == (prefixes + [n]) + rest.1;
        prefixes := prefixes + [n];
      }
      UpdateLoopStop(State(), next, attr, sz, used, prefixes == []);
      if prefixes != [] {
        packet := Some(UpdatePacket(attr, prefixes));
        wire := wire + [packet.value];
      }
      assert prefixes + [] == prefixes;
    }

    /** What bgp_withdraw_packet does with one prefix once it is in the packet. */
    method Withdrawn(n: Node)
      requires Inv(State()) && n in adj && adj[n].pending.Retract?
      modifies this`adj, this`update, this`withdraw, this`buckets, this`scount
      ensures Inv(State()) && State() == RetractOne(old(State()), n)
      ensures |withdraw| < old(|withdraw|)
    {
      hide Inv;
      RetractOneKeeps(State(), n);
      scount := scount - 1;
      var _ := AdvertiseClean(n);
      adj := adj - {n};
    }

    /** bgp_withdraw_packet */
    method MakeWithdraw(sz: Sizes) returns (packet: Option<Packet>)
      requires Inv(State())
      modifies this
      ensures Inv(State()) && World(State(), wire) == Step(old(World(State(), wire)), WithdrawOp(sz))
      ensures packet == WithdrawStep(old(State()), sz).1
    {
      hide Inv;
      hide RetractOne;
      hide WithdrawLoop;
      packet := None;
      var used := 0;
      var prefixes: seq<Node> := [];
      ghost var whole := WithdrawLoop(State(), sz, 0, true);
      while withdraw != []
        invariant Inv(State()) && wire == old(wire)
        invariant var rest := WithdrawLoop(State(), sz, used, prefixes == []);
                  whole.0 == rest.0 && whole.1 == prefixes + rest.1
        decreases |withdraw|
      {
        var n := withdraw[0];
        if sz.capacity - used < 3 + sz.prefix(n) {
          break;
        }
        HeadIsAnnounced(State());
        WithdrawLoopTurn(State(), sz, used, prefixes == []);
        if prefixes == [] {
          used := sz.unreach;
        }
        used := used + 1 + sz.prefix(n);
        Withdrawn(n);
        ghost var rest := WithdrawLoop(State(), sz, used, false);
        assert prefixes + ([n] + rest.1) == (prefixes + [n]) + rest.1;
        prefixes := prefixes + [n];
      }
      WithdrawLoopStop(State(), sz, used, prefixes == []);
      if prefixes != [] {
        packet := Some(WithdrawPacket(prefixes));
        wire := wire + [packet.value];
      }
      assert prefixes + [] == prefixes;
    }
  }
}
