/**
 In which order the Adj-RIB-Out sends what is pending, how much goes into a packet, and that everything has its turn
 (bgpd/bgp_advertise.c, bgpd/bgp_packet.c).
 */
module AdjOutOrder {
  import opened Lists
  import opened Options
  import opened AdjOut

  // ----- The order of the FIFOs

  /** `l` without the members of `gone`, in the same order. */
  function Removing(l: seq<Node>, gone: seq<Node>): seq<Node> {
    if l == [] then []
    else if l[0] in gone then Removing(l[1..], gone)
    else [l[0]] + Removing(l[1..], gone)
  }

  lemma {:induction false} RemovingNothing(l: seq<Node>)
    ensures Removing(l, []) == l
  {
    if l != [] {
      RemovingNothing(l[1..]);
      assert l == [l[0]] + l[1..];
    }
  }

  lemma {:induction false} RemovingMore(l: seq<Node>, x: Node, gone: seq<Node>)
    ensures Removing(Without(l, x), gone) == Removing(l, [x] + gone)
  {
    if l != [] {
      RemovingMore(l[1..], x, gone);
      if l[0] != x {
        var rest := Without(l[1..], x);
        assert ([l[0]] + rest)[1..] == rest;
      }
    }
  }

  /** A request goes to the end of its FIFO, and what was pending for the node leaves the other one. */
  lemma RequestsQueueUp(s: Sync, n: Node, a: Attr)
    requires Inv(s)
    ensures n in s.adj && s.adj[n].pending.Announce? ==> s.adj[n].pending.attr in s.buckets
    ensures SetStep(s, n, a).update == Without(s.update, n) + [n] && SetStep(s, n, a).withdraw == Without(s.withdraw, n)
    ensures var t := UnsetStep(s, n);
            && t.update == Without(s.update, n)
            && t.withdraw == Without(s.withdraw, n) + if n in s.adj && s.adj[n].sent.Some? then [n] else []
  {
    if n in s.adj && s.adj[n].pending.Announce? {
      AnnouncedHasBucket(s, n);
    }
    hide BucketsOk;
    hide Push;
    hide Pull;
  }

  /** What sending a packet with these prefixes does: they are sent, nothing else changes, and the order stays. */
  ghost predicate Ships(s: Sync, t: Sync, a: Attr, ps: seq<Node>) {
    && t.update == Removing(s.update, ps)
    && (forall m | m in ps :: m in s.adj && s.adj[m].pending == Announce(a))
    && t.adj.Keys == s.adj.Keys
    && forall m | m in s.adj :: t.adj[m] == if m in ps then Adj(Some(a), Quiet) else s.adj[m]
  }

  lemma SendOneOrder(s: Sync, n: Node)
    requires Inv(s) && n in s.adj && s.adj[n].pending.Announce?
    ensures s.adj[n].pending.attr in s.buckets
    ensures SendOne(s, n).update == Without(s.update, n)
  {
    AnnouncedHasBucket(s, n);
  }

  lemma ShipsNothing(s: Sync, a: Attr)
    ensures Ships(s, s, a, [])
  {
    RemovingNothing(s.update);
  }

  lemma ShipsMore(s: Sync, n: Node, t: Sync, a: Attr, ps: seq<Node>)
    requires Inv(s) && n in s.adj && s.adj[n].pending == Announce(a) && a in s.buckets
    requires Ships(SendOne(s, n), t, a, ps)
    ensures Ships(s, t, a, [n] + ps)
  {
    hide Inv;
    SendOneKeeps(s, n);
    SendOneOrder(s, n);
    hide SendOne;
    RemovingMore(s.update, n, ps);
    hide Removing;
    hide Without;
    var r := SendOne(s, n);
    assert r.adj == s.adj[n := Adj(Some(a), Quiet)];
    assert n !in ps by { assert r.adj[n].pending != Announce(a); }
    forall m | m in s.adj
      ensures t.adj[m] == if m in [n] + ps then Adj(Some(a), Quiet) else s.adj[m]
    {
      assert m in r.adj;
    }
  }

  lemma {:induction false} UpdateLoopOrder(s: Sync, next: Option<Node>, a: Attr, sz: Sizes, used: int, first: bool)
    requires Inv(s) && (next.Some? ==> next.value in s.adj && s.adj[next.value].pending == Announce(a))
    ensures var (t, ps) := UpdateLoop(s, next, a, sz, used, first);
            Ships(s, t, a, ps) && (ps != [] ==> next.Some? && ps[0] == next.value)
    decreases |s.update|
  {
    hide Inv;
    hide SendOne;
    hide Ships;
    ShipsNothing(s, a);
    if next.Some? && sz.capacity - used > 1 + sz.prefix(next.value) {
      var n := next.value;
      SendOneKeeps(s, n);
      var t := SendOne(s, n);
      if NextOf(t.buckets, a).Some? {
        NextIsAnnounced(t, a);
        var used' := (if first then sz.reach(a) else used) + 1 + sz.prefix(n);
        UpdateLoopOrder(t, NextOf(t.buckets, a), a, sz, used', false);
        var r := UpdateLoop(t, NextOf(t.buckets, a), a, sz, used', false);
        ShipsMore(s, n, r.0, a, r.1);
      } else {
        ShipsNothing(t, a);
        ShipsMore(s, n, t, a, []);
        assert [n] + [] == [n];
      }
    }
  }

  /** An UPDATE starts with the first announcement of the FIFO; the others keep their order. */
  lemma UpdateInOrder(s: Sync, sz: Sizes)
    requires Inv(s)
    ensures var (t, p) := UpdateStep(s, sz);
            if p.None? then t == s && (s.update != [] ==> sz.capacity <= 1 + sz.prefix(s.update[0]))
            else p.value.UpdatePacket? && p.value.prefixes != [] && s.update != [] && t.withdraw == s.withdraw
                 && p.value.prefixes[0] == s.update[0] && Ships(s, t, p.value.attr, p.value.prefixes)
  {
    hide Inv;
    hide Ships;
    hide UpdateLoop;
    hide Sent;
    hide Wanted;
    if s.update != [] {
      HeadIsAnnounced(s);
      var n := s.update[0];
      UpdateLoopOrder(s, Some(n), s.adj[n].pending.attr, sz, 0, true);
      UpdateLoopKeeps(s, Some(n), s.adj[n].pending.attr, sz, 0, true);
    }
  }

  lemma RetractOneOrder(s: Sync)
    requires Inv(s) && s.withdraw != []
    ensures var n := s.withdraw[0]; n in s.adj && s.adj[n].pending.Retract?
    ensures var t := RetractOne(s, s.withdraw[0]); t.withdraw == s.withdraw[1..] && t.update == s.update
  {
    HeadIsAnnounced(s);
    RetractOneKeeps(s, s.withdraw[0]);
    WithoutHead(s.withdraw);
  }

  /** What a withdraw packet with these prefixes does: they are the first of the FIFO, and leave the table. */
  ghost predicate Withdraws(s: Sync, t: Sync, ps: seq<Node>) {
    && ps <= s.withdraw && t.withdraw == s.withdraw[|ps|..] && t.update == s.update
    && t.adj == s.adj - set m | m in ps
  }

  lemma WithdrawsNothing(s: Sync)
    ensures Withdraws(s, s, [])
  {
    assert s.adj - (set m: Node | m in []) == s.adj;
    assert s.withdraw[0..] == s.withdraw;
  }

  lemma WithdrawsMore(s: Sync, r: Sync, t: Sync, n: Node, ps: seq<Node>)
    requires s.withdraw == [n] + r.withdraw && r.update == s.update && r.adj == s.adj - {n} && Withdraws(r, t, ps)
    ensures Withdraws(s, t, [n] + ps)
  {
    assert s.withdraw[|ps| + 1..] == r.withdraw[|ps|..];
    assert s.adj - (set m | m in [n] + ps) == (s.adj - {n}) - (set m | m in ps);
  }

  lemma {:induction false} WithdrawLoopOrder(s: Sync, sz: Sizes, used: int, first: bool)
    requires Inv(s)
    ensures var (t, ps) := WithdrawLoop(s, sz, used, first); Withdraws(s, t, ps)
    decreases |s.withdraw|
  {
    hide Inv;
    hide RetractOne;
    hide Withdraws;
    WithdrawsNothing(s);
    if s.withdraw != [] && sz.capacity - used >= 3 + sz.prefix(s.withdraw[0]) {
      var n := s.withdraw[0];
      HeadIsAnnounced(s);
      RetractOneKeeps(s, n);
      RetractOneOrder(s);
      var used' := (if first then sz.unreach else used) + 1 + sz.prefix(n);
      var r := RetractOne(s, n);
      WithdrawLoopOrder(r, sz, used', false);
      var (t, ps) := WithdrawLoop(r, sz, used', false);
      assert s.withdraw == [n] + r.withdraw;
      WithdrawsMore(s, r, t, n, ps);
    }
  }

  lemma WithdrawInOrder(s: Sync, sz: Sizes)
    requires Inv(s)
    ensures var (t, p) := WithdrawStep(s, sz);
            if p.None? then t == s && (s.withdraw != [] ==> sz.capacity < 3 + sz.prefix(s.withdraw[0]))
            else p.value.WithdrawPacket? && p.value.prefixes != [] && Withdraws(s, t, p.value.prefixes)
  {
    hide Inv;
    hide Withdraws;
    hide WithdrawLoop;
    WithdrawLoopOrder(s, sz, 0, true);
    WithdrawLoopKeeps(s, sz, 0, true);
  }

  // ----- How much goes into a packet

  /** The octets that prefixes take up. */
  function Length(sz: Sizes, ps: seq<Node>): nat {
    if ps == [] then 0 else 1 + sz.prefix(ps[0]) + Length(sz, ps[1..])
  }

  /** With `used` octets taken before: what follows the first prefix fits, and the next one would not. */
  ghost predicate Fills(sz: Sizes, used: int, ps: seq<Node>, left: Option<Node>) {
    && (|ps| > 1 ==> used + Length(sz, ps) < sz.capacity)
    && (ps != [] && left.Some? ==> sz.capacity <= used + Length(sz, ps) + 1 + sz.prefix(left.value))
  }

  lemma {:induction false} UpdateLoopFills(s: Sync, next: Option<Node>, a: Attr, sz: Sizes, used: int, first: bool)
    requires Inv(s) && (next.Some? ==> next.value in s.adj && s.adj[next.value].pending == Announce(a))
    ensures var (t, ps) := UpdateLoop(s, next, a, sz, used, first);
            && Fills(sz, if first then sz.reach(a) else used, ps, NextOf(t.buckets, a))
            && (ps == [] ==> t == s && (next.Some? ==> sz.capacity <= used + 1 + sz.prefix(next.value)))
            && (!first && ps != [] ==> used + Length(sz, ps) < sz.capacity)
    decreases |s.update|
  {
    hide Inv;
    hide SendOne;
    if next.Some? && sz.capacity - used > 1 + sz.prefix(next.value) {
      var n := next.value;
      SendOneKeeps(s, n);
      var t := SendOne(s, n);
      if NextOf(t.buckets, a).Some? {
        NextIsAnnounced(t, a);
        var used' := (if first then sz.reach(a) else used) + 1 + sz.prefix(n);
        UpdateLoopFills(t, NextOf(t.buckets, a), a, sz, used', false);
        var r := UpdateLoop(t, NextOf(t.buckets, a), a, sz, used', false);
        assert ([n] + r.1)[1..] == r.1;
      } else {
        assert [n][1..] == [];
      }
    }
  }

  /** An UPDATE with more than one prefix fits, and it is full if announcements with its attribute are left. */
  lemma UpdateFills(s: Sync, sz: Sizes)
    requires Inv(s)
    ensures var (t, p) := UpdateStep(s, sz);
            p.Some? ==> p.value.UpdatePacket? &&
                        Fills(sz, sz.reach(p.value.attr), p.value.prefixes, NextOf(t.buckets, p.value.attr))
  {
    hide Inv;
    hide UpdateLoop;
    hide Fills;
    if s.update != [] {
      HeadIsAnnounced(s);
      var n := s.update[0];
      UpdateLoopFills(s, Some(n), s.adj[n].pending.attr, sz, 0, true);
    }
  }

  lemma {:induction false} WithdrawLoopFills(s: Sync, sz: Sizes, used: int, first: bool)
    requires Inv(s)
    ensures var (t, ps) := WithdrawLoop(s, sz, used, first);
            var before := if first then sz.unreach else used;
            && (|ps| > 1 || (!first && ps != []) ==> before + Length(sz, ps) + 2 <= sz.capacity)
            && (ps != [] && t.withdraw != [] ==> sz.capacity < before + Length(sz, ps) + 3 + sz.prefix(t.withdraw[0]))
            && (ps == [] ==> t == s && (s.withdraw != [] ==> sz.capacity < used + 3 + sz.prefix(s.withdraw[0])))
    decreases |s.withdraw|
  {
    hide Inv;
    hide RetractOne;
    if s.withdraw != [] && sz.capacity - used >= 3 + sz.prefix(s.withdraw[0]) {
      var n := s.withdraw[0];
      HeadIsAnnounced(s);
      RetractOneKeeps(s, n);
      var used' := (if first then sz.unreach else used) + 1 + sz.prefix(n);
      WithdrawLoopFills(RetractOne(s, n), sz, used', false);
      var r := WithdrawLoop(RetractOne(s, n), sz, used', false);
      assert ([n] + r.1)[1..] == r.1;
    }
  }

  /** So does a withdraw packet, with two octets to spare, and it is full if withdrawals are left. */
  lemma WithdrawFills(s: Sync, sz: Sizes)
    requires Inv(s)
    ensures var (t, p) := WithdrawStep(s, sz);
            p.Some? ==>
              var ps := p.value.prefixes;
              && (|ps| > 1 ==> sz.unreach + Length(sz, ps) + 2 <= sz.capacity)
              && (t.withdraw != [] ==> sz.capacity < sz.unreach + Length(sz, ps) + 3 + sz.prefix(t.withdraw[0]))
  {
    hide Inv;
    hide WithdrawLoop;
    WithdrawLoopFills(s, sz, 0, true);
  }

  // ----- Everything has its turn

  function Place(l: seq<Node>, n: Node): (k: nat)
    requires n in l
    ensures k < |l| && l[k] == n && n !in l[..k]
  {
    if l[0] == n then 0
    else
      var k := Place(l[1..], n);
      assert l[..k + 1] == [l[0]] + l[1..][..k];
      k + 1
  }

  lemma {:induction false} PlaceWithout(l: seq<Node>, n: Node, x: Node)
    requires n in l && x != n
    ensures n in Without(l, x) && Place(Without(l, x), n) <= Place(l, n)
  {
    if l[0] != n {
      PlaceWithout(l[1..], n, x);
      var rest := Without(l[1..], x);
      assert ([l[0]] + rest)[1..] == rest;
    } else {
      assert Without(l, x)[0] == n;
    }
  }

  lemma {:induction false} PlaceAppend(l: seq<Node>, n: Node, more: seq<Node>)
    requires n in l
    ensures n in l + more && Place(l + more, n) == Place(l, n)
  {
    if l[0] != n {
      PlaceAppend(l[1..], n, more);
      assert (l + more)[1..] == l[1..] + more;
    }
  }

  lemma {:induction false} PlaceRemoving(l: seq<Node>, n: Node, gone: seq<Node>)
    requires n in l && n !in gone
    ensures n in Removing(l, gone) && Place(Removing(l, gone), n) <= Place(l, n)
    ensures l[0] in gone ==> Place(Removing(l, gone), n) < Place(l, n)
  {
    if l[0] != n {
      PlaceRemoving(l[1..], n, gone);
      var rest := Removing(l[1..], gone);
      assert ([l[0]] + rest)[1..] == rest;
    } else {
      assert Removing(l, gone)[0] == n;
    }
  }

  lemma {:induction false} PlaceBehind(l: seq<Node>, n: Node, j: nat)
    requires n in l && j <= |l| && n !in l[..j] && NoDup(l)
    ensures n in l[j..] && Place(l[j..], n) + j == Place(l, n)
  {
    if j > 0 {
      assert l[..j][0] == l[0] && l[..j][1..] == l[1..][..j - 1];
      PlaceBehind(l[1..], n, j - 1);
      assert l[1..][j - 1..] == l[j..];
    } else {
      assert l[0..] == l;
    }
  }

  /** `n` is announced with `a`, or will be after at most `k` further packets. */
  ghost predicate Due(s: Sync, n: Node, a: Attr, k: int) {
    && n in s.adj
    && (s.adj[n] == Adj(Some(a), Quiet)
        || (s.adj[n].pending == Announce(a) && n in s.update && Place(s.update, n) <= k))
  }

  /** `n` is withdrawn, or will be after at most `k` further packets. */
  ghost predicate DueOut(s: Sync, n: Node, k: int) {
    n in s.adj ==> s.adj[n].pending.Retract? && n in s.withdraw && Place(s.withdraw, n) <= k
  }

  predicate About(op: Op, n: Node) {
    (op.SetOp? || op.UnsetOp?) && op.node == n
  }

  lemma QuietNotQueued(s: Sync, n: Node)
    requires Inv(s)
    ensures n in s.update <==> n in s.adj && s.adj[n].pending.Announce?
    ensures n in s.withdraw <==> n in s.adj && s.adj[n].pending.Retract?
    ensures n in s.withdraw ==> s.adj[n].sent.Some?
    ensures NoDup(s.update) && NoDup(s.withdraw)
  {
  }

  lemma PlaceRequested(l: seq<Node>, m: Node, n: Node)
    requires m != n && n in l
    ensures n in Without(l, m) && Place(Without(l, m), n) <= Place(l, n)
    ensures n in Without(l, m) + [m] && Place(Without(l, m) + [m], n) <= Place(l, n)
    ensures n in Without(l, m) + [] && Place(Without(l, m) + [], n) <= Place(l, n)
  {
    PlaceWithout(l, n, m);
    PlaceAppend(Without(l, m), n, [m]);
    PlaceAppend(Without(l, m), n, []);
  }

  lemma DueFrame(s: Sync, t: Sync, n: Node, a: Attr, k: int)
    requires n in t.adj <==> n in s.adj
    requires n in s.adj ==> t.adj[n] == s.adj[n]
    requires n in s.update ==> n in t.update && Place(t.update, n) <= Place(s.update, n)
    requires n in s.withdraw ==> n in t.withdraw && Place(t.withdraw, n) <= Place(s.withdraw, n)
    ensures Due(s, n, a, k) ==> Due(t, n, a, k)
    ensures DueOut(s, n, k) ==> DueOut(t, n, k)
  {
  }

  /** A request for another node does not set `n` back. */
  lemma RequestDue(s: Sync, m: Node, b: Attr, n: Node, a: Attr, k: int)
    requires Inv(s) && m != n
    ensures m in s.adj && s.adj[m].pending.Announce? ==> s.adj[m].pending.attr in s.buckets
    ensures Due(s, n, a, k) ==> Due(SetStep(s, m, b), n, a, k) && Due(UnsetStep(s, m), n, a, k)
    ensures DueOut(s, n, k) ==> DueOut(SetStep(s, m, b), n, k) && DueOut(UnsetStep(s, m), n, k)
  {
    hide Inv;
    hide Place;
    hide Due;
    hide DueOut;
    SetKeeps(s, m, b);
    UnsetKeeps(s, m);
    RequestsQueueUp(s, m, b);
    hide SetStep;
    hide UnsetStep;
    if n in s.update {
      PlaceRequested(s.update, m, n);
    }
    if n in s.withdraw {
      PlaceRequested(s.withdraw, m, n);
    }
    DueFrame(s, SetStep(s, m, b), n, a, k);
    DueFrame(s, UnsetStep(s, m), n, a, k);
  }

  lemma UpdateDue(s: Sync, sz: Sizes, n: Node, a: Attr, k: int)
    requires Inv(s)
    ensures var t := UpdateStep(s, sz).0;
            && (Due(s, n, a, k) ==> Due(t, n, a, if Roomy(sz) then k - 1 else k))
            && (DueOut(s, n, k) ==> DueOut(t, n, k))
  {
    hide Inv;
    hide UpdateStep;
    UpdateInOrder(s, sz);
    QuietNotQueued(s, n);
    var (t, p) := UpdateStep(s, sz);
    if p.None? {
      if s.update != [] && Roomy(sz) {
        RoomFor(sz, s.update[0]);
      }
    } else if n in s.update && n !in p.value.prefixes {
      PlaceRemoving(s.update, n, p.value.prefixes);
    }
    hide Roomy;
    hide Removing;
  }

  lemma WithdrawDue(s: Sync, sz: Sizes, n: Node, a: Attr, k: int)
    requires Inv(s)
    ensures var t := WithdrawStep(s, sz).0;
            && (Due(s, n, a, k) ==> Due(t, n, a, k))
            && (DueOut(s, n, k) ==> DueOut(t, n, if Roomy(sz) then k - 1 else k))
  {
    hide Inv;
    hide WithdrawStep;
    WithdrawInOrder(s, sz);
    QuietNotQueued(s, n);
    var (t, p) := WithdrawStep(s, sz);
    if p.None? {
      if s.withdraw != [] && Roomy(sz) {
        RoomFor(sz, s.withdraw[0]);
      }
    } else {
      var ps := p.value.prefixes;
      assert forall m | m in ps :: m in s.withdraw;
      if n in s.withdraw && n !in ps {
        assert s.withdraw[..|ps|] == ps;
        PlaceBehind(s.withdraw, n, |ps|);
      }
    }
    hide Roomy;
  }

  /** A packet brings what waits in its FIFO closer, and no request for another node sets it back. */
  lemma StepDue(w: World, op: Op, n: Node, a: Attr, k: int)
    requires Inv(w.s) && !About(op, n)
    ensures var t := Step(w, op).s;
            && (Due(w.s, n, a, k) ==> Due(t, n, a, if op.UpdateOp? && Roomy(op.sizes) then k - 1 else k))
            && (DueOut(w.s, n, k) ==> DueOut(t, n, if op.WithdrawOp? && Roomy(op.sizes) then k - 1 else k))
  {
    hide Inv;
    hide Due;
    hide DueOut;
    hide Roomy;
    match op
    case SetOp(m, b) => RequestDue(w.s, m, b, n, a, k); hide SetStep;
    case UnsetOp(m) => RequestDue(w.s, m, a, n, a, k); hide UnsetStep;
    case UpdateOp(sz) => UpdateDue(w.s, sz, n, a, k); hide UpdateStep;
    case WithdrawOp(sz) => WithdrawDue(w.s, sz, n, a, k); hide WithdrawStep;
  }

  /** How many packets with room for any prefix are asked for, announcements or withdrawals. */
  ghost function Packets(ops: seq<Op>, announcing: bool): nat {
    if ops == [] then 0
    else
      var op := ops[|ops| - 1];
      Packets(ops[..|ops| - 1], announcing)
      + if (if announcing then op.UpdateOp? else op.WithdrawOp?) && Roomy(op.sizes) then 1 else 0
  }

  lemma RunDueStep(ops: seq<Op>, op: Op, n: Node, a: Attr, k: int)
    requires !About(op, n)
    ensures Due(Run(ops).s, n, a, k) ==>
              Due(Run(ops + [op]).s, n, a, if op.UpdateOp? && Roomy(op.sizes) then k - 1 else k)
    ensures DueOut(Run(ops).s, n, k) ==>
              DueOut(Run(ops + [op]).s, n, if op.WithdrawOp? && Roomy(op.sizes) then k - 1 else k)
  {
    hide Run;
    hide Inv;
    hide Step;
    hide Due;
    hide DueOut;
    hide Roomy;
    RunStep(ops, op);
    StepDue(Run(ops), op, n, a, k);
  }

  lemma {:induction false} RunDue(ops: seq<Op>, more: seq<Op>, n: Node, a: Attr, k: int)
    requires forall op | op in more :: !About(op, n)
    ensures Due(Run(ops).s, n, a, k) ==> Due(Run(ops + more).s, n, a, k - Packets(more, true))
    ensures DueOut(Run(ops).s, n, k) ==> DueOut(Run(ops + more).s, n, k - Packets(more, false))
    decreases more
  {
    hide Run;
    hide Inv;
    hide Due;
    hide DueOut;
    hide Roomy;
    if more == [] {
      assert ops + more == ops;
    } else {
      var before, op := more[..|more| - 1], more[|more| - 1];
      assert op in more && forall o | o in before :: o in more;
      hide About;
      RunDue(ops, before, n, a, k);
      assert ops + more == (ops + before) + [op];
      RunDueStep(ops + before, op, n, a, k - Packets(before, true));
      RunDueStep(ops + before, op, n, a, k - Packets(before, false));
    }
  }

  lemma DueSeen(ops: seq<Op>, n: Node, a: Attr)
    ensures Due(Run(ops).s, n, a, -1) ==> n in View(Run(ops).wire) && View(Run(ops).wire)[n] == a
    ensures DueOut(Run(ops).s, n, -1) ==> n !in View(Run(ops).wire)
  {
    hide Run;
    hide View;
    hide Inv;
    NeighbourFollowsRequests(ops);
  }

  lemma DueEarlier(s: Sync, n: Node, a: Attr, j: int, k: int)
    requires j <= k
    ensures Due(s, n, a, j) ==> Due(s, n, a, k)
    ensures DueOut(s, n, j) ==> DueOut(s, n, k)
  {
  }

  /**
   First in, first out, over every run: an announcement that is pending at place `k` reaches the neighbour with
   the `k + 1` next packets, whatever else happens meanwhile, unless its own route is requested anew.
   */
  lemma AnnouncedInTurn(ops: seq<Op>, more: seq<Op>, n: Node)
    requires var s := Run(ops).s; n in s.update && n in s.adj && Packets(more, true) > Place(s.update, n)
    requires forall op | op in more :: !About(op, n)
    ensures var a := Run(ops).s.adj[n].pending;
            a.Announce? && n in View(Run(ops + more).wire) && View(Run(ops + more).wire)[n] == a.attr
  {
    hide Run;
    hide View;
    hide Inv;
    hide Packets;
    var s := Run(ops).s;
    QuietNotQueued(s, n);
    var a, k := s.adj[n].pending.attr, Place(s.update, n);
    assert Due(s, n, a, k);
    hide Due;
    RunDue(ops, more, n, a, k);
    DueEarlier(Run(ops + more).s, n, a, k - Packets(more, true), -1);
    DueSeen(ops + more, n, a);
  }

  /** So does a withdrawal. */
  lemma WithdrawnInTurn(ops: seq<Op>, more: seq<Op>, n: Node)
    requires var s := Run(ops).s; n in s.withdraw && Packets(more, false) > Place(s.withdraw, n)
    requires forall op | op in more :: !About(op, n)
    ensures n !in View(Run(ops + more).wire)
  {
    hide Run;
    hide View;
    hide Inv;
    hide Packets;
    var s := Run(ops).s;
    QuietNotQueued(s, n);
    var a, k := s.adj[n].sent.value, Place(s.withdraw, n);
    assert DueOut(s, n, k);
    hide DueOut;
    RunDue(ops, more, n, a, k);
    DueEarlier(Run(ops + more).s, n, a, k - Packets(more, false), -1);
    DueSeen(ops + more, n, a);
  }
}
