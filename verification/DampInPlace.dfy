/**
 Route flap damping in place: the records, the array of reuse lists with its rotating offset,
 and the functions of bgpd/bgp_damp.c that update them.
 */
module DampInPlace {
  import opened DampLists
  import opened Damp
  import opened DampTimer

  // ----- The operations in place

  /** The link fields of the records `W`. */
  ghost predicate LinksAre(W: set<Info>, next: map<Info, Info?>, prev: map<Info, Info?>)
    reads W`next, W`prev
  {
    && next.Keys == W && prev.Keys == W
    && (forall x {:trigger x.next} {:trigger next[x]} | x in W :: next[x] == x.next)
    && (forall x {:trigger x.prev} {:trigger prev[x]} | x in W :: prev[x] == x.prev)
  }

  ghost predicate RecordsAre(W: set<Info>, recs: map<Info, Record>)
    reads W`record
  {
    && W <= recs.Keys
    && (forall x {:trigger x.record} {:trigger recs[x]} | x in W :: recs[x] == x.record)
  }

  method SetLinks(x: Info, next: Info?, prev: Info?, ghost W: set<Info>, ghost m: Memory)
    requires LinksAre(W, m.next, m.prev)
    modifies x`prev, x`next
    ensures LinksAre(W + {x}, m.next[x := next], m.prev[x := prev])
  {
    x.next, x.prev := next, prev;
  }

  method SetPrev(x: Info, prev: Info?, ghost W: set<Info>, ghost next: map<Info, Info?>, ghost prevs: map<Info, Info?>)
    requires LinksAre(W, next, prevs) && x in W
    modifies x`prev
    ensures LinksAre(W, next, prevs[x := prev])
  {
    x.prev := prev;
  }

  method LinkFront(x: Info, h: Info?, ghost W: set<Info>, ghost m: Memory)
    requires LinksAre(W, m.next, m.prev) && (h != null ==> h in W)
    modifies W`prev, x`prev, x`next
    ensures LinksAre(W + {x}, m.next[x := h], if h == null then m.prev[x := null] else m.prev[x := null][h := x])
  {
    hide LinksAre;
    SetLinks(x, h, null, W, m);
    if h != null {
      SetPrev(h, x, W + {x}, m.next[x := h], m.prev[x := null]);
    }
  }

  /** The neighbours' links; the answer tells whether `x` was in front. */
  method Unlink(x: Info, ghost W: set<Info>, ghost m: Memory) returns (front: bool)
    requires LinksAre(W, m.next, m.prev) && x in W
    requires x.next != null ==> x.next in W
    requires x.prev != null ==> x.prev in W
    modifies W`prev, W`next
    ensures front <==> m.prev[x] == null
    ensures LinksAre(W, if m.prev[x] != null then m.next[m.prev[x] := m.next[x]] else m.next,
                     if m.next[x] != null then m.prev[m.next[x] := m.prev[x]] else m.prev)
    ensures front ==> x.next == m.next[x]
  {
    if x.next != null {
      x.next.prev := x.prev;
    }
    front := x.prev == null;
    if x.prev != null {
      x.prev.next := x.next;
    }
  }

  lemma TickNone(c: Config, s: State, now: int)
    ensures TickOver(c, s, [], now) == s
  {
  }

  lemma FreedAlike(c: Config, s: State, x: Info, r: Record, now: int)
    requires Sized(c, s) && Has(c, s, x) && Freed(c, s.recs[x], now) && !r.damped && r.index == s.recs[x].index
    ensures var t := s.(recs := s.recs[x := r]);
            Has(c, t, x) && Free(c, t, x) == TickOne(c, s, x, now)
  {
    assert s.recs[x := r] - {x} == s.recs - {x};
    assert s.recs[x := s.recs[x].(damped := false)] - {x} == s.recs - {x};
  }

  /** In the middle of any tick, calm or not: where the links and the heads may lead. */
  ghost predicate Sweeping(c: Config, s: State, todo: seq<Info>, last: Info?) {
    && Sized(c, s) && Chain(s.mem, todo, last) && AllThere(c, s, todo)
    && (last != null ==> last in s.recs && last in s.mem.next && last !in todo)
    && (forall i | 0 <= i < |s.mem.heads| && s.mem.heads[i] != null ::
          && s.mem.heads[i] in s.recs
          && (s.mem.heads[i] in todo ==> last == null && i == c.Idle() && s.mem.heads[i] == todo[0]))
  }

  lemma SweepFacts(c: Config, s: State, todo: seq<Info>, last: Info?)
    requires Sweeping(c, s, todo, last) && todo != []
    ensures Sized(c, s) && Has(c, s, todo[0])
    ensures s.mem.next[todo[0]] == First(todo[1..]) && (todo[1..] != [] ==> todo[1] in s.recs)
    ensures s.mem.prev[todo[0]] == last && (last != null ==> last in s.recs)
    ensures forall i | 0 <= i <= c.size && s.mem.heads[i] != null :: s.mem.heads[i] in s.recs
  {
    assert todo[0] in todo;
    assert |todo| > 1 ==> todo[1] in todo;
  }

  lemma SweepStart(c: Config, s: State, lists: seq<seq<Info>>)
    requires Inv(c, s, lists) && Sized(c, s) && |lists| == c.size + 1
    ensures Sweeping(c, Turned(c, s), lists[s.offset], null)
  {
    hide Inv;
    TickStart(c, s, lists);
    var t := Turned(c, s);
    MidSized(c, t, lists[s.offset := []], lists[s.offset], null);
    forall i | 0 <= i < |t.mem.heads| && t.mem.heads[i] != null
      ensures t.mem.heads[i] in t.recs && t.mem.heads[i] !in lists[s.offset]
    {
      HeadsClear(c, t, lists[s.offset := []], lists[s.offset], null, i);
    }
  }

  lemma SweepFree(c: Config, s: State, todo: seq<Info>, last: Info?, now: int)
    requires Sweeping(c, s, todo, last) && todo != [] && Has(c, s, todo[0]) && Freed(c, s.recs[todo[0]], now)
    ensures Sweeping(c, TickOne(c, s, todo[0], now), todo[1..], last)
  {
    ChainFacts(s.mem, todo, last);
    FreeOne(c, s, todo, last, now);
    BypassedChain(c, s.mem, todo, last);
    FreeThere(c, s, todo, last, now);
    assert Members([todo[0]]) == {todo[0]};
    hide TickOne;
    hide Chain;
  }

  lemma SweepKeep(c: Config, s: State, todo: seq<Info>, last: Info?, k: Record)
    requires Sweeping(c, s, todo, last) && todo != [] && k.index < c.size
    ensures Sweeping(c, Enter(c, s, todo[0], k), todo[1..], todo[0])
  {
    ChainFacts(s.mem, todo, last);
    ChainFrame(s.mem, Push(s.mem, Slot(c, k), todo[0]), todo[1..], todo[0]);
    EnterThere(c, s, todo[1..], todo[0], k);
    hide Chain;
    hide AllThere;
  }

  lemma SweepStep(c: Config, s: State, todo: seq<Info>, last: Info?, now: int)
    requires Sweeping(c, s, todo, last) && todo != []
    ensures Sized(c, s) && Has(c, s, todo[0])
    ensures Sweeping(c, TickOne(c, s, todo[0], now), todo[1..],
                     if Freed(c, s.recs[todo[0]], now) then last else todo[0])
  {
    hide Sweeping;
    hide Freed;
    SweepFacts(c, s, todo, last);
    if Freed(c, s.recs[todo[0]], now) {
      SweepFree(c, s, todo, last, now);
    } else {
      SweepKeep(c, s, todo, last, Kept(c, s.offset, s.recs[todo[0]], now));
    }
  }

  lemma DroppedLinks(W: set<Info>, m: Memory, x: Info)
    requires LinksAre(W, m.next, m.prev)
    ensures LinksAre(W - {x}, m.next - {x}, m.prev - {x})
  {
  }

  lemma MirroredRecord(W: set<Info>, recs: map<Info, Record>, x: Info)
    requires RecordsAre(W, recs) && x in W
    ensures x in recs && recs[x] == x.record
  {
  }

  lemma MirroredLinks(W: set<Info>, m: Memory, x: Info)
    requires LinksAre(W, m.next, m.prev) && x in W
    ensures x in m.next && x in m.prev && x.next == m.next[x] && x.prev == m.prev[x]
  {
  }

  /** All links and heads lead to records. */
  lemma Linkage(c: Config, s: State, lists: seq<seq<Info>>, x: Info, j: nat)
    requires Inv(c, s, lists) && x in s.recs && j <= c.size
    ensures Sized(c, s) && Has(c, s, x)
    ensures s.mem.next[x] != null ==> s.mem.next[x] in s.recs
    ensures s.mem.prev[x] != null ==> s.mem.prev[x] in s.recs
    ensures s.mem.heads[j] != null ==> s.mem.heads[j] in s.recs
    ensures var h := Pull(s.mem, Slot(c, s.recs[x]), x).heads; |h| == c.size + 1 && (h[j] != null ==> h[j] in s.recs)
  {
    hide Inv;
    InvFacts(c, s, lists, x);
    Neighbours(c, s, lists, x);
    FirstBelongs(c, s, lists, j);
  }

  class Damping {
    const c: Config
    const reuseList: array<Info?>
    var noReuseList: Info?
    var offset: nat

    constructor (c: Config)
      requires c.Valid()
      ensures this.c == c && fresh(reuseList) && Mirrors({}, Nothing(c))
    {
      this.c, noReuseList, offset := c, null, 0;
      reuseList := new Info?[c.size](i => null);
      new;
      assert reuseList[..] + [noReuseList] == Nothing(c).mem.heads;
    }

    ghost function Heads(): seq<Info?>
      reads this, reuseList
    {
      reuseList[..] + [noReuseList]
    }

    /** `s` is what the fields of this object and of the records `W` say. */
    ghost predicate Mirrors(W: set<Info>, s: State)
      reads this, reuseList, W
    {
      && c.Valid() && reuseList.Length == c.size
      && s.offset == offset && s.mem.heads == Heads()
      && LinksAre(W, s.mem.next, s.mem.prev) && s.recs.Keys == W && RecordsAre(W, s.recs)
    }

    method SetHead(i: nat, h: Info?)
      requires i <= reuseList.Length
      modifies this`noReuseList, reuseList
      ensures Heads() == old(Heads())[i := h]
    {
      if i == reuseList.Length {
        noReuseList := h;
      } else {
        reuseList[i] := h;
      }
    }

    /** BGP_DAMP_LIST_ADD, or the linking part of bgp_reuse_list_add */
    method Add(i: nat, x: Info, ghost W: set<Info>, ghost s: State)
      requires Mirrors(W, s) && i <= c.size
      requires s.mem.heads[i] != null ==> s.mem.heads[i] in W
      modifies this`noReuseList, reuseList, W`prev, x`prev, x`next
      ensures Mirrors(W + {x}, s.(mem := Push(s.mem, i, x), recs := s.recs[x := x.record]))
    {
      hide LinksAre;
      var h := if i == c.size then noReuseList else reuseList[i];
      LinkFront(x, h, W, s.mem);
      SetHead(i, x);
    }

    /** BGP_DAMP_LIST_DEL, or bgp_reuse_list_delete */
    method Remove(i: nat, x: Info, ghost W: set<Info>, ghost s: State)
      requires Mirrors(W, s) && i <= c.size && x in W
      requires x.next != null ==> x.next in W
      requires x.prev != null ==> x.prev in W
      modifies this`noReuseList, reuseList, W`prev, W`next
      ensures Mirrors(W, s.(mem := Pull(s.mem, i, x)))
    {
      var front := Unlink(x, W, s.mem);
      hide LinksAre;
      if front {
        SetHead(i, x.next);
      }
    }

    /** The numbers of a record change. */
    method SetRecord(x: Info, r: Record, ghost W: set<Info>, ghost s: State)
      requires Mirrors(W, s) && x in W
      modifies x`record
      ensures Mirrors(W, s.(recs := s.recs[x := r])) && x.record == r
    {
      x.record := r;
    }

    /** A new record joins the list that it says. */
    method EnterList(x: Info, r: Record, ghost W: set<Info>, ghost s: State)
      requires Mirrors(W, s) && Sized(c, s) && r.index < c.size
      requires s.mem.heads[Slot(c, r)] != null ==> s.mem.heads[Slot(c, r)] in W
      modifies this`noReuseList, reuseList, W`prev, x
      ensures Mirrors(W + {x}, Enter(c, s, x, r)) && x.record == r
    {
      hide LinksAre;
      hide RecordsAre;
      hide Push;
      Add(Slot(c, r), x, W, s);
      assert W + {x} == (W + {x}) + {x};
      ghost var t := s.(mem := Push(s.mem, Slot(c, r), x), recs := s.recs[x := x.record]);
      SetRecord(x, r, W + {x}, t);
      assert s.recs[x := r] == t.recs[x := r];
    }

    /** Off one list and onto another. */
    method MoveTo(x: Info, r: Record, ghost W: set<Info>, ghost s: State, ghost lists: seq<seq<Info>>)
      requires Mirrors(W, s) && x in W && r.index < c.size
      requires Inv(c, s, lists) && Has(c, s, x)
      modifies this`noReuseList, reuseList, W
      ensures Mirrors(W, Relist(c, s, x, r)) && x.record == r
    {
      hide Inv;
      hide LinksAre;
      hide RecordsAre;
      Linkage(c, s, lists, x, Slot(c, r));
      MirroredLinks(W, s.mem, x);
      var i := Slot(c, x.record);
      MirroredRecord(W, s.recs, x);
      Remove(i, x, W, s);
      ghost var t := s.(mem := Pull(s.mem, i, x));
      hide Pull;
      EnterList(x, r, W, t);
      assert W + {x} == W;
    }

    /** bgp_damp_info_free: unlinked from the list that its flag tells; the caller forgets `x`. */
    method FreeRecord(x: Info, ghost W: set<Info>, ghost s: State)
      requires Mirrors(W, s) && x in W && Sized(c, s) && Has(c, s, x)
      requires s.mem.next[x] != null ==> s.mem.next[x] in W
      requires s.mem.prev[x] != null ==> s.mem.prev[x] in W
      modifies this`noReuseList, reuseList, W`prev, W`next
      ensures Mirrors(W - {x}, Free(c, s, x))
    {
      hide LinksAre;
      MirroredLinks(W, s.mem, x);
      MirroredRecord(W, s.recs, x);
      var i := Slot(c, x.record);
      Remove(i, x, W, s);
      ghost var m := Pull(s.mem, i, x);
      hide Pull;
      DroppedLinks(W, m, x);
    }

    /** bgp_damp_withdraw; `found` is the damping record of the route, if it has one. */
    method WithdrawRoute(found: Info?, now: int, attrChange: bool,
                         ghost W: set<Info>, ghost s: State, ghost lists: seq<seq<Info>>)
      returns (x: Info, suppressed: bool)
      requires Mirrors(W, s) && Inv(c, s, lists) && Sized(c, s)
      requires found != null ==> found in W && Has(c, s, found)
      modifies this`noReuseList, reuseList, W
      ensures if found != null then x == found else fresh(x) && x !in W
      ensures Mirrors(W + {x}, Withdraw(c, s, x, now, attrChange))
      ensures suppressed <==> found != null && s.recs[found].damped
    {
      hide Inv;
      hide LinksAre;
      hide RecordsAre;
      hide Relist;
      hide Push;
      if found == null {
        var r := Record(Gain(attrChange), now, 0, 0, 1, false, false);
        x := new Info(r);
        FirstBelongs(c, s, lists, c.Idle());
        EnterList(x, r, W, s);
        ghost var t := Enter(c, s, x, r);
        if r.penalty >= c.suppress {
          EnterKeeps(c, s, lists, x, r);
          InvFacts(c, t, lists[c.Idle() := [x] + lists[c.Idle()]], x);
          MoveTo(x, Wheeled(c, offset, r.(suppressed := now)), W + {x}, t, lists[c.Idle() := [x] + lists[c.Idle()]]);
        }
        suppressed := false;
      } else {
        x := found;
        assert W + {x} == W;
        MirroredRecord(W, s.recs, x);
        var last := x.record.penalty;
        var r := Flapped(c, x.record, now, attrChange);
        suppressed := r.damped;
        if r.damped && r.penalty != last {
          MoveTo(x, Wheeled(c, offset, r), W, s, lists);
        } else if !r.damped && r.penalty >= c.suppress {
          MoveTo(x, Wheeled(c, offset, r.(suppressed := now)), W, s, lists);
        } else {
          SetRecord(x, r, W, s);
        }
      }
    }

    /** bgp_damp_update, for a route with a damping record */
    method UpdateRoute(x: Info, now: int, ghost W: set<Info>, ghost s: State, ghost lists: seq<seq<Info>>)
      returns (suppressed: bool, freed: bool)
      requires Mirrors(W, s) && Inv(c, s, lists) && Sized(c, s) && x in W && Has(c, s, x)
      modifies this`noReuseList, reuseList, W
      ensures Mirrors(if freed then W - {x} else W, Update(c, s, x, now))
      ensures var p := Decay(c, now - s.recs[x].updated, s.recs[x].penalty);
              && freed == Forgettable(c, p)
              && suppressed == (p >= if s.recs[x].damped then c.reuse else c.suppress)
    {
      hide Inv;
      hide LinksAre;
      hide RecordsAre;
      hide Relist;
      hide Free;
      hide Decay;
      InvFacts(c, s, lists, x);
      MirroredRecord(W, s.recs, x);
      var was := x.record;
      var p := Decay(c, now - was.updated, was.penalty);
      freed := Forgettable(c, p);
      var r := was.(penalty := p, lastUpdate := true, updated := if freed then was.updated else now);
      var move := r.damped && p < c.reuse;
      suppressed := !move && !(!r.damped && p < c.suppress);
      var u := if move then r.(damped := false, suppressed := 0) else r;
      if move {
        MoveTo(x, u, W, s, lists);
      } else {
        SetRecord(x, u, W, s);
      }
      if freed {
        ghost var t := if move then Relist(c, s, x, u) else s.(recs := s.recs[x := u]);
        ghost var lists' := SettleKeeps(c, s, lists, x, move, u);
        SettledThere(c, s, x, move, u);
        Linkage(c, t, lists', x, 0);
        FreeRecord(x, W, t);
      }
    }

    /** bgp_damp_scan */
    method ScanRoute(x: Info, now: int, ghost W: set<Info>, ghost s: State, ghost lists: seq<seq<Info>>)
      returns (announce: bool, freed: bool)
      requires Mirrors(W, s) && Inv(c, s, lists) && Sized(c, s) && x in W && Has(c, s, x)
      modifies this`noReuseList, reuseList, W
      ensures Mirrors(if freed then W - {x} else W, Scan(c, s, x, now))
      ensures var r := s.recs[x];
              && announce == (r.damped && now - r.suppressed >= c.maxSuppress && r.lastUpdate)
              && freed == (!r.damped && Forgettable(c, Decay(c, now - r.updated, r.penalty)))
    {
      hide Inv;
      hide LinksAre;
      hide RecordsAre;
      hide Relist;
      hide Free;
      hide Decay;
      announce, freed := false, false;
      InvFacts(c, s, lists, x);
      MirroredRecord(W, s.recs, x);
      var was := x.record;
      if was.damped {
        if now - was.suppressed >= c.maxSuppress {
          MoveTo(x, was.(damped := false, penalty := c.reuse, suppressed := 0, updated := now), W, s, lists);
          announce := was.lastUpdate;
        }
      } else {
        var p := Decay(c, now - was.updated, was.penalty);
        if Forgettable(c, p) {
          SetRecord(x, was.(penalty := p), W, s);
          ghost var t := s.(recs := s.recs[x := was.(penalty := p)]);
          ghost var lists' := SettleKeeps(c, s, lists, x, false, was.(penalty := p));
          Linkage(c, t, lists', x, 0);
          FreeRecord(x, W, t);
          freed := true;
        } else {
          SetRecord(x, was.(penalty := p, updated := now), W, s);
        }
      }
    }

    /** One turn of the loop of bgp_reuse_timer. */
    method Evaluate(x: Info, now: int, ghost W: set<Info>, ghost s: State, ghost todo: seq<Info>, ghost last: Info?)
      returns (ghost W': set<Info>)
      requires Mirrors(W, s) && Sweeping(c, s, todo, last) && todo != [] && x == todo[0]
      modifies this`noReuseList, reuseList, W
      ensures W' <= W && Mirrors(W', TickOne(c, s, x, now))
    {
      hide LinksAre;
      hide RecordsAre;
      hide Chain;
      SweepFacts(c, s, todo, last);
      MirroredLinks(W, s.mem, x);
      MirroredRecord(W, s.recs, x);
      var r := x.record;
      var p := Decay(c, now - r.updated, r.penalty);
      var k := Kept(c, offset, r, now);
      hide Decay;
      hide ReuseIndex;
      if Forgettable(c, p) {
        SetRecord(x, r.(penalty := p, updated := now, damped := false, suppressed := 0), W, s);
        ghost var t := s.(recs := s.recs[x := x.record]);
        FreedAlike(c, s, x, x.record, now);
        FreeRecord(x, W, t);
        W' := W - {x};
      } else {
        EnterList(x, k, W, s);
        W' := W;
        assert W + {x} == W;
      }
    }

    /** bgp_reuse_timer: the bucket at the offset is gone through, whatever becomes of the lists. */
    method ReuseTimer(now: int, ghost W: set<Info>, ghost s: State, ghost lists: seq<seq<Info>>)
      returns (ghost W': set<Info>)
      requires Mirrors(W, s) && Inv(c, s, lists) && Sized(c, s)
      modifies this, reuseList, W
      ensures W' <= W && Mirrors(W', Tick(c, s, now))
    {
      hide Inv;
      hide LinksAre;
      hide RecordsAre;
      hide Sweeping;
      hide TickOne;
      hide TickOver;
      hide Walk;
      BucketIs(c, s, lists);
      SweepStart(c, s, lists);
      InvList(c, s, lists, s.offset);
      var cur := reuseList[offset];
      reuseList[offset] := null;
      offset := (offset + 1) % c.size;
      ghost var todo, t, last := lists[s.offset], Turned(c, s), null;
      W' := W;
      assert Heads() == t.mem.heads;
      while cur != null
        invariant cur == First(todo) && Sweeping(c, t, todo, last)
        invariant W' <= W && Mirrors(W', t)
        invariant TickOver(c, t, todo, now) == Tick(c, s, now)
        decreases |todo|
      {
        var x := cur;
        SweepFacts(c, t, todo, last);
        MirroredLinks(W', t.mem, x);
        cur := x.next;
        W' := Evaluate(x, now, W', t, todo, last);
        SweepStep(c, t, todo, last, now);
        TickFirst(c, t, todo, now);
        last := if Freed(c, t.recs[x], now) then last else x;
        t, todo := TickOne(c, t, x, now), todo[1..];
      }
      assert TickOver(c, t, [], now) == t by { TickNone(c, t, now); }
    }
  }
}
