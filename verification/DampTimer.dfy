/**
 The reuse timer of route flap damping (bgp_reuse_timer in bgpd/bgp_damp.c, after section 4.8.7 of
 RFC 2439), and exactly when a tick keeps the lists in order: it clears the flag of a record before
 freeing it, so that the record is unlinked from the wrong list.
 */
module DampTimer {
  import opened DampLists
  import opened Damp

  // ----- The reuse timer

  ghost function Members(l: seq<Info>): set<Info> {
    set x | x in l
  }

  /** The records met when following the links from `cur`. */
  ghost function Walk(m: Memory, cur: Info?, fuel: nat): seq<Info>
    decreases fuel
  {
    if cur == null || fuel == 0 || cur !in m.next then [] else [cur] + Walk(m, m.next[cur], fuel - 1)
  }

  predicate Freed(c: Config, r: Record, now: int)
    requires c.Valid()
  {
    Forgettable(c, Decay(c, now - r.updated, r.penalty))
  }

  /** A record that the timer keeps: reusable, or back on the wheel. */
  function Kept(c: Config, offset: nat, r: Record, now: int): (k: Record)
    requires c.Valid() && r.index < c.size
    ensures k.index < c.size && k.penalty <= r.penalty
  {
    var a := r.(penalty := Decay(c, now - r.updated, r.penalty), updated := now);
    if a.penalty < c.reuse then a.(damped := false, suppressed := 0) else Wheeled(c, offset, a)
  }

  /** One turn of the loop; the flag is cleared before the record is freed. */
  ghost function TickOne(c: Config, s: State, x: Info, now: int): State
    requires Sized(c, s) && Has(c, s, x)
  {
    var r := s.recs[x];
    if Freed(c, r, now) then Free(c, s.(recs := s.recs[x := r.(damped := false)]), x)
    else Enter(c, s, x, Kept(c, s.offset, r, now))
  }

  ghost function TickOver(c: Config, s: State, todo: seq<Info>, now: int): State
    decreases todo
  {
    if todo == [] || !Sized(c, s) || !Has(c, s, todo[0]) then s
    else TickOver(c, TickOne(c, s, todo[0], now), todo[1..], now)
  }

  /** The head of the list at the offset is taken, and the wheel turns. */
  ghost function Turned(c: Config, s: State): State
    requires Sized(c, s)
  {
    s.(mem := s.mem.(heads := s.mem.heads[s.offset := null]), offset := (s.offset + 1) % c.size)
  }

  /** bgp_reuse_timer */
  ghost function Tick(c: Config, s: State, now: int): State
    requires Sized(c, s)
  {
    TickOver(c, Turned(c, s), Walk(s.mem, s.mem.heads[s.offset], |s.recs|), now)
  }

  // ----- In the middle of a tick

  /** The memory and the records without those that are still to do. */
  ghost function Rest(s: State, todo: seq<Info>): State {
    s.(mem := Memory(s.mem.next - Members(todo), s.mem.prev - Members(todo), s.mem.heads),
       recs := s.recs - Members(todo))
  }

  ghost predicate AllThere(c: Config, s: State, todo: seq<Info>) {
    forall x | x in todo :: Has(c, s, x) && s.recs[x].penalty <= Bound(c)
  }

  /** All is well but for the records still to do, which hang together behind `last`. */
  ghost predicate Mid(c: Config, s: State, lists: seq<seq<Info>>, todo: seq<Info>, last: Info?) {
    && Inv(c, Rest(s, todo), lists)
    && Chain(s.mem, todo, last)
    && AllThere(c, s, todo)
    && (last != null ==> last in s.mem.next && last in s.recs && last !in todo)
  }

  lemma RestTail(s: State, todo: seq<Info>)
    requires todo != []
    ensures Members(todo) == Members(todo[1..]) + {todo[0]}
  {
    assert todo == [todo[0]] + todo[1..];
  }

  lemma HeadsClear(c: Config, s: State, lists: seq<seq<Info>>, todo: seq<Info>, last: Info?, i: nat)
    requires Mid(c, s, lists, todo, last) && i < |s.mem.heads|
    ensures |lists| == c.size + 1 && |s.mem.heads| == c.size + 1
    ensures s.mem.heads[i] == First(lists[i])
    ensures s.mem.heads[i] != null ==> s.mem.heads[i] !in todo && s.mem.heads[i] in s.mem.prev
                                       && s.mem.heads[i] in s.recs && Slot(c, s.recs[s.mem.heads[i]]) == i
  {
    var t := Rest(s, todo);
    assert ListIs(t.mem, i, lists[i]);
    HeadIn(t.mem, i, lists[i]);
    PlacedAt(lists, At(c, t.recs), i);
  }

  /** Pushing the first record to do, with the others left out of account. */
  lemma PushRest(s: State, todo: seq<Info>, i: nat)
    requires todo != [] && i < |s.mem.heads| && todo[0] !in todo[1..]
    requires s.mem.heads[i] != null ==> s.mem.heads[i] !in todo
    ensures var m := Push(s.mem, i, todo[0]);
            Memory(m.next - Members(todo[1..]), m.prev - Members(todo[1..]), m.heads) ==
            Push(Rest(s, todo).mem, i, todo[0])
  {
    RestTail(s, todo);
    var x, h, others := todo[0], s.mem.heads[i], Members(todo[1..]);
    assert s.mem.next[x := h] - others == (s.mem.next - Members(todo))[x := h];
    assert s.mem.prev[x := null] - others == (s.mem.prev - Members(todo))[x := null];
    if h != null {
      assert s.mem.prev[x := null][h := x] - others == (s.mem.prev - Members(todo))[x := null][h := x];
    }
  }

  lemma EnterRest(c: Config, s: State, todo: seq<Info>, r: Record)
    requires todo != [] && Sized(c, s) && r.index < c.size && todo[0] !in todo[1..]
    requires var h := s.mem.heads[Slot(c, r)]; h != null ==> h !in todo
    ensures Rest(Enter(c, s, todo[0], r), todo[1..]) == Enter(c, Rest(s, todo), todo[0], r)
  {
    PushRest(s, todo, Slot(c, r));
    RestTail(s, todo);
    assert s.recs[todo[0] := r] - Members(todo[1..]) == (s.recs - Members(todo))[todo[0] := r];
  }

  /** A chain of records still to do is left alone by a push elsewhere. */
  lemma PushTodo(m: Memory, todo: seq<Info>, last: Info?, i: nat)
    requires Chain(m, todo, last) && todo != [] && i < |m.heads| && (m.heads[i] != null ==> m.heads[i] !in todo)
    ensures Chain(Push(m, i, todo[0]), todo[1..], todo[0])
  {
    ChainFrame(m, Push(m, i, todo[0]), todo[1..], todo[0]);
  }

  lemma EnterThere(c: Config, s: State, todo: seq<Info>, x: Info, r: Record)
    requires Sized(c, s) && AllThere(c, s, todo) && x !in todo && r.index < c.size
    ensures AllThere(c, Enter(c, s, x, r), todo)
  {
  }

  /** A record that is kept joins its new list; the rest is still to do, behind it. */
  lemma MidKeep(c: Config, s: State, lists: seq<seq<Info>>, todo: seq<Info>, last: Info?, now: int)
    returns (lists': seq<seq<Info>>)
    requires Mid(c, s, lists, todo, last) && todo != []
    ensures Sized(c, s) && Has(c, s, todo[0])
    ensures !Freed(c, s.recs[todo[0]], now) ==>
              var k := Kept(c, s.offset, s.recs[todo[0]], now);
              && Slot(c, k) < |lists|
              && lists' == lists[Slot(c, k) := [todo[0]] + lists[Slot(c, k)]]
              && Mid(c, TickOne(c, s, todo[0], now), lists', todo[1..], todo[0])
              && TickOne(c, s, todo[0], now).mem.next[todo[0]] == First(lists[Slot(c, k)])
  {
    hide Linked;
    hide InBounds;
    hide Decay;
    hide ReuseIndex;
    lists' := lists;
    var x := todo[0];
    assert x in todo;
    var r := s.recs[x];
    if !Freed(c, r, now) {
      var k := Kept(c, s.offset, r, now);
      var i := Slot(c, k);
      HeadsClear(c, s, lists, todo, last, i);
      lists' := lists[i := [x] + lists[i]];
      RestTail(s, todo);
      EnterKeeps(c, Rest(s, todo), lists, x, k);
      EnterRest(c, s, todo, k);
      PushTodo(s.mem, todo, last, i);
      EnterThere(c, s, todo[1..], x, k);
    }
  }

  // ----- What freeing does in the middle of a tick

  ghost predicate AllFreed(c: Config, recs: map<Info, Record>, l: seq<Info>, now: int)
    requires c.Valid()
  {
    forall x | x in l && x in recs :: Freed(c, recs[x], now)
  }

  /** The memory once `gone` have been unlinked one by one, with `left` still to do: `last` now points at `left`. */
  ghost function Bypassed(c: Config, m: Memory, gone: seq<Info>, left: seq<Info>, last: Info?): Memory
    requires c.Idle() < |m.heads|
  {
    Memory((if last == null then m.next else m.next[last := First(left)]) - Members(gone),
           (if left == [] then m.prev else m.prev[left[0] := last]) - Members(gone),
           if last == null then m.heads[c.Idle() := First(left)] else m.heads)
  }

  lemma FreeOne(c: Config, s: State, todo: seq<Info>, last: Info?, now: int)
    requires Sized(c, s) && todo != [] && Has(c, s, todo[0]) && Freed(c, s.recs[todo[0]], now)
    requires s.mem.next[todo[0]] == First(todo[1..]) && s.mem.prev[todo[0]] == last
    ensures TickOne(c, s, todo[0], now) ==
            s.(mem := Bypassed(c, s.mem, [todo[0]], todo[1..], last), recs := s.recs - {todo[0]})
  {
    var x := todo[0];
    assert Members([x]) == {x};
    assert s.recs[x := s.recs[x].(damped := false)] - {x} == s.recs - {x};
  }

  lemma BypassedChain(c: Config, m: Memory, todo: seq<Info>, last: Info?)
    requires c.Idle() < |m.heads| && todo != [] && Chain(m, todo, last) && (last != null ==> last !in todo)
    ensures Chain(Bypassed(c, m, [todo[0]], todo[1..], last), todo[1..], last)
  {
    var m', l := Bypassed(c, m, [todo[0]], todo[1..], last), todo[1..];
    assert Members([todo[0]]) == {todo[0]};
    if l != [] {
      ChainFrame(m, m', l[1..], l[0]);
    }
  }

  lemma BypassedMore(c: Config, m: Memory, x: Info, gone: seq<Info>, left: seq<Info>, last: Info?)
    requires c.Idle() < |m.heads| && gone != [] && (last != null ==> last != x && last !in gone)
    requires left != [] ==> left[0] !in gone && left[0] != x
    ensures Bypassed(c, Bypassed(c, m, [x], gone + left, last), gone, left, last) ==
            Bypassed(c, m, [x] + gone, left, last)
  {
    assert Members([x]) == {x} && Members([x] + gone) == {x} + Members(gone);
    var n := (gone + left)[0];
    assert n == gone[0] && n in Members(gone);
    if last != null {
      assert (m.next[last := n] - {x})[last := First(left)] - Members(gone) ==
             m.next[last := First(left)] - ({x} + Members(gone));
    } else {
      assert (m.next - {x}) - Members(gone) == m.next - ({x} + Members(gone));
    }
    if left != [] {
      assert (m.prev[n := last] - {x})[left[0] := last] - Members(gone) ==
             m.prev[left[0] := last] - ({x} + Members(gone));
    } else {
      assert (m.prev[n := last] - {x}) - Members(gone) == m.prev - ({x} + Members(gone));
    }
  }

  lemma {:induction false} ChainApart(m: Memory, a: seq<Info>, b: seq<Info>, p: Info?)
    requires Chain(m, a + b, p) && b != []
    ensures b[0] !in a
  {
    if a != [] {
      assert (a + b)[1..] == a[1..] + b;
      ChainApart(m, a[1..], b, a[0]);
      assert b[0] in a[1..] + b;
    }
  }

  lemma TickFirst(c: Config, s: State, todo: seq<Info>, now: int)
    requires todo != [] && Sized(c, s) && Has(c, s, todo[0])
    ensures TickOver(c, s, todo, now) == TickOver(c, TickOne(c, s, todo[0], now), todo[1..], now)
  {
  }

  lemma ChainFacts(m: Memory, todo: seq<Info>, last: Info?)
    requires Chain(m, todo, last) && todo != []
    ensures todo[0] in m.next && todo[0] in m.prev
    ensures m.next[todo[0]] == First(todo[1..]) && m.prev[todo[0]] == last && todo[0] !in todo[1..]
  {
  }

  lemma FreeThere(c: Config, s: State, todo: seq<Info>, last: Info?, now: int)
    requires Sized(c, s) && todo != [] && Chain(s.mem, todo, last) && AllThere(c, s, todo)
    requires last != null ==> last in s.mem.next && last !in todo
    ensures var t := s.(mem := Bypassed(c, s.mem, [todo[0]], todo[1..], last), recs := s.recs - {todo[0]});
            Sized(c, t) && AllThere(c, t, todo[1..]) && (last != null ==> last in t.mem.next)
  {
    ChainFacts(s.mem, todo, last);
    hide Chain;
    assert Members([todo[0]]) == {todo[0]};
    hide Members;
    var x, m := todo[0], Bypassed(c, s.mem, [todo[0]], todo[1..], last);
    forall y | y in todo[1..]
      ensures y in m.next && y in m.prev && y in s.recs - {x} && (s.recs - {x})[y] == s.recs[y]
    {
      assert y in todo && y != x;
    }
  }

  /** A stretch of freed records in a tick, all at once. */
  lemma {:induction false} FreeRun(c: Config, s: State, gone: seq<Info>, left: seq<Info>, last: Info?, now: int)
    requires Sized(c, s) && gone != [] && Chain(s.mem, gone + left, last) && AllThere(c, s, gone + left)
    requires AllFreed(c, s.recs, gone, now)
    requires last != null ==> last in s.mem.next && last !in gone + left
    ensures TickOver(c, s, gone + left, now) ==
            TickOver(c, s.(mem := Bypassed(c, s.mem, gone, left, last), recs := s.recs - Members(gone)), left, now)
    decreases gone
  {
    hide Freed;
    hide TickOne;
    hide TickOver;
    hide Chain;
    hide Bypassed;
    var todo, x := gone + left, gone[0];
    assert x in gone && x in todo && todo[0] == x;
    assert todo[1..] == gone[1..] + left;
    ChainFacts(s.mem, todo, last);
    FreeOne(c, s, todo, last, now);
    TickFirst(c, s, todo, now);
    var s1 := TickOne(c, s, x, now);
    if |gone| == 1 {
      assert gone == [x] && todo[1..] == left;
      assert Members(gone) == {x};
    } else {
      var rest := gone[1..];
      BypassedChain(c, s.mem, todo, last);
      FreeThere(c, s, todo, last, now);
      assert AllFreed(c, s1.recs, rest, now);
      assert last != null ==> last !in rest + left;
      FreeRun(c, s1, rest, left, last, now);
      if left != [] {
        ChainApart(s.mem, gone, left, last);
      }
      BypassedMore(c, s.mem, x, rest, left, last);
      assert [x] + rest == gone;
      assert Members(gone) == {x} + Members(rest);
      assert s1.recs - Members(rest) == s.recs - Members(gone);
    }
  }

  /**
   When a tick does no harm.  Going through the records to do: once one is freed, all after it must be freed
   too, and there must have been room: the last record kept had joined an empty list or, if none was kept,
   the no-reuse list was empty.
   */
  ghost predicate Harmless(c: Config, recs: map<Info, Record>, offset: nat, heads: seq<Info?>,
                           todo: seq<Info>, room: bool, now: int)
    requires c.Valid() && |heads| == c.size + 1
    requires forall x | x in todo :: x in recs && recs[x].index < c.size
    decreases todo
  {
    todo == [] ||
    if Freed(c, recs[todo[0]], now) then room && AllFreed(c, recs, todo, now)
    else
      var i := Slot(c, Kept(c, offset, recs[todo[0]], now));
      Harmless(c, recs, offset, heads[i := todo[0]], todo[1..], heads[i] == null, now)
  }

  /** What `room` stands for in the middle of a tick. */
  ghost predicate Room(c: Config, s: State, last: Info?)
    requires Sized(c, s) && (last != null ==> last in s.mem.next)
  {
    if last == null then s.mem.heads[c.Idle()] == null else s.mem.next[last] == null
  }

  lemma MidSized(c: Config, s: State, lists: seq<seq<Info>>, todo: seq<Info>, last: Info?)
    requires Mid(c, s, lists, todo, last)
    ensures Sized(c, s) && |lists| == c.size + 1 && AllThere(c, s, todo) && Chain(s.mem, todo, last)
    ensures last != null ==> last in s.mem.next && last !in todo && last in s.recs
    ensures last == null ==> s.mem.heads[c.Idle()] == First(lists[c.Idle()])
  {
    HeadsClear(c, s, lists, todo, last, c.Idle());
  }

  /** Freeing all that is left comes down to this. */
  lemma EndOfTick(c: Config, s: State, lists: seq<seq<Info>>, todo: seq<Info>, last: Info?, now: int)
    requires Mid(c, s, lists, todo, last) && todo != [] && c.Valid() && AllFreed(c, s.recs, todo, now)
    ensures TickOver(c, s, todo, now) ==
            s.(mem := Bypassed(c, s.mem, todo, [], last), recs := s.recs - Members(todo))
  {
    MidSized(c, s, lists, todo, last);
    assert todo + [] == todo;
    hide Mid;
    FreeRun(c, s, todo, [], last, now);
  }

  /** With room, the records freed at the end leave the lists as they were. */
  lemma EndWithRoom(c: Config, s: State, lists: seq<seq<Info>>, todo: seq<Info>, last: Info?, now: int)
    requires Mid(c, s, lists, todo, last) && todo != [] && c.Valid() && AllFreed(c, s.recs, todo, now)
    requires Sized(c, s) && (last != null ==> last in s.mem.next) && Room(c, s, last)
    ensures Inv(c, TickOver(c, s, todo, now), lists)
  {
    hide Inv;
    EndOfTick(c, s, lists, todo, last, now);
    MidSized(c, s, lists, todo, last);
    if last == null {
      assert s.mem.heads[c.Idle() := null] == s.mem.heads;
    } else {
      assert s.mem.next[last := null] == s.mem.next;
    }
    assert TickOver(c, s, todo, now) == Rest(s, todo);
  }

  /** Neighbours on a list point at each other, and a record without one is first. */
  lemma Neighbours(c: Config, s: State, lists: seq<seq<Info>>, x: Info)
    requires Inv(c, s, lists) && x in s.recs
    ensures x in s.mem.next && x in s.mem.prev
    ensures var n := s.mem.next[x];
            n != null ==> n != x && n in s.mem.prev && s.mem.prev[n] == x && n in s.recs
                          && Slot(c, s.recs[n]) == Slot(c, s.recs[x])
    ensures var p := s.mem.prev[x];
            p != null ==> p != x && p in s.mem.next && s.mem.next[p] == x && p in s.recs
                          && Slot(c, s.recs[p]) == Slot(c, s.recs[x])
    ensures Slot(c, s.recs[x]) < |s.mem.heads| && s.mem.heads[Slot(c, s.recs[x])] != null
  {
    InvHas(c, s, lists, x);
    var i := Slot(c, s.recs[x]);
    var at := At(c, s.recs);
    assert x in lists[i] && ListIs(s.mem, i, lists[i]);
    ChainMember(s.mem, lists[i], null, x);
    PlacedAt(lists, at, i);
  }

  /** Without room, the list that lost its tail or its head is broken. */
  lemma EndWithoutRoom(c: Config, s: State, lists: seq<seq<Info>>, todo: seq<Info>, last: Info?, now: int,
                       lists': seq<seq<Info>>)
    requires Mid(c, s, lists, todo, last) && todo != [] && c.Valid() && AllFreed(c, s.recs, todo, now)
    requires Sized(c, s) && (last != null ==> last in s.mem.next) && !Room(c, s, last)
    ensures !Inv(c, TickOver(c, s, todo, now), lists')
  {
    hide Inv;
    hide Chain;
    EndOfTick(c, s, lists, todo, last, now);
    MidSized(c, s, lists, todo, last);
    var t := TickOver(c, s, todo, now);
    if Inv(c, t, lists') {
      var z := if last == null then s.mem.heads[c.Idle()] else s.mem.next[last];
      if last == null {
        HeadsClear(c, s, lists, todo, last, c.Idle());
      } else {
        Neighbours(c, Rest(s, todo), lists, last);
      }
      assert z in t.recs;
      Neighbours(c, t, lists', z);
      assert false;
    }
  }

  // ----- A tick that keeps a record after freeing one

  /**
   What is wrong with the lists: `y` points at `z` which does not belong behind it; `z`, the first record
   kept, points back at a `y` that does not belong in front of it; or the no-reuse list starts with a
   record of the wheel.
   */
  datatype Flaw = Mismatch(y: Info, z: Info) | Stray(y: Info, z: Info) | Foreign(z: Info)

  ghost predicate Live(s: State, x: Info, todo: seq<Info>) {
    x in s.recs && x in s.mem.next && x in s.mem.prev && x !in todo
  }

  ghost predicate Pending(c: Config, s: State, todo: seq<Info>, last: Info) {
    && Sized(c, s) && Chain(s.mem, todo, last) && AllThere(c, s, todo) && Live(s, last, todo)
    && (forall i | 0 <= i < |s.mem.heads| && s.mem.heads[i] != null :: s.mem.heads[i] !in todo)
  }

  ghost predicate Apart(c: Config, s: State, y: Info, z: Info)
    requires y in s.recs && z in s.recs
  {
    z == y || Slot(c, s.recs[y]) != Slot(c, s.recs[z])
  }

  ghost predicate Flawed(c: Config, s: State, todo: seq<Info>, last: Info, f: Flaw) {
    c.Idle() < |s.mem.heads| &&
    match f
    case Mismatch(y, z) =>
      Live(s, y, todo) && Live(s, z, todo) && y != last && s.mem.next[y] == z
      && (Apart(c, s, y, z) || s.mem.prev[z] != y)
    case Stray(y, z) =>
      Live(s, y, todo) && Live(s, z, todo) && y == last && s.mem.prev[z] == y && Apart(c, s, y, z)
      && (s.mem.next[y] == z || s.mem.next[y] == First(todo))
    case Foreign(z) =>
      Live(s, z, todo) && s.mem.heads[c.Idle()] == z && Slot(c, s.recs[z]) != c.Idle()
  }

  lemma FirstBelongs(c: Config, s: State, lists: seq<seq<Info>>, i: nat)
    requires Inv(c, s, lists) && i < |s.mem.heads|
    ensures var h := s.mem.heads[i]; h != null ==> h in s.recs && Slot(c, s.recs[h]) == i
  {
    assert ListIs(s.mem, i, lists[i]);
    HeadIn(s.mem, i, lists[i]);
    PlacedAt(lists, At(c, s.recs), i);
  }

  lemma FlawedEnd(c: Config, s: State, last: Info, f: Flaw, lists: seq<seq<Info>>)
    requires Flawed(c, s, [], last, f)
    ensures !Inv(c, s, lists)
  {
    hide Inv;
    if Inv(c, s, lists) {
      match f {
        case Mismatch(y, z) => Neighbours(c, s, lists, y);
        case Stray(y, z) => Neighbours(c, s, lists, z);
        case Foreign(z) => FirstBelongs(c, s, lists, c.Idle());
      }
      assert false;
    }
  }

  /** Freeing another record does not mend a flaw... */
  lemma FlawedFree(c: Config, s: State, todo: seq<Info>, last: Info, f: Flaw, now: int)
    requires Pending(c, s, todo, last) && Flawed(c, s, todo, last, f) && todo != []
    requires Has(c, s, todo[0]) && Freed(c, s.recs[todo[0]], now)
    ensures var t := TickOne(c, s, todo[0], now);
            Pending(c, t, todo[1..], last) && Flawed(c, t, todo[1..], last, f)
  {
    hide TickOne;
    hide Chain;
    hide AllThere;
    hide Freed;
    ChainFacts(s.mem, todo, last);
    FreeOne(c, s, todo, last, now);
    BypassedChain(c, s.mem, todo, last);
    FreeThere(c, s, todo, last, now);
    assert Members([todo[0]]) == {todo[0]};
  }

  lemma PendingKeep(c: Config, s: State, todo: seq<Info>, last: Info, k: Record)
    requires Pending(c, s, todo, last) && todo != [] && k.index < c.size
    ensures Pending(c, Enter(c, s, todo[0], k), todo[1..], todo[0])
  {
    ChainFacts(s.mem, todo, last);
    PushTodo(s.mem, todo, last, Slot(c, k));
    EnterThere(c, s, todo[1..], todo[0], k);
    hide Chain;
    hide AllThere;
  }

  /** ...and neither does keeping one. */
  lemma FlawedKeep(c: Config, s: State, todo: seq<Info>, last: Info, f: Flaw, now: int) returns (f': Flaw)
    requires Pending(c, s, todo, last) && Flawed(c, s, todo, last, f) && todo != []
    requires Has(c, s, todo[0]) && !Freed(c, s.recs[todo[0]], now)
    ensures var t := TickOne(c, s, todo[0], now);
            Pending(c, t, todo[1..], todo[0]) && Flawed(c, t, todo[1..], todo[0], f')
  {
    hide Chain;
    hide AllThere;
    hide Kept;
    hide Freed;
    var x := todo[0];
    var k := Kept(c, s.offset, s.recs[x], now);
    ChainFacts(s.mem, todo, last);
    PendingKeep(c, s, todo, last, k);
    match f {
      case Mismatch(y, z) => f' := f;
      case Stray(y, z) => f' := if s.mem.next[y] == z then Mismatch(y, z) else Mismatch(y, x);
      case Foreign(z) => f' := if Slot(c, k) == c.Idle() then Stray(x, z) else f;
    }
  }

  lemma {:induction false} FlawedStays(c: Config, s: State, todo: seq<Info>, last: Info, f: Flaw, now: int,
                                       lists: seq<seq<Info>>)
    requires Pending(c, s, todo, last) && Flawed(c, s, todo, last, f)
    ensures !Inv(c, TickOver(c, s, todo, now), lists)
    decreases todo
  {
    hide Inv;
    hide Flawed;
    hide TickOne;
    if todo == [] {
      FlawedEnd(c, s, last, f, lists);
    } else {
      assert todo[0] in todo;
      var t := TickOne(c, s, todo[0], now);
      if Freed(c, s.recs[todo[0]], now) {
        FlawedFree(c, s, todo, last, f, now);
        FlawedStays(c, t, todo[1..], last, f, now, lists);
      } else {
        var f' := FlawedKeep(c, s, todo, last, f, now);
        FlawedStays(c, t, todo[1..], todo[0], f', now, lists);
      }
    }
  }

  lemma {:induction false} LeftChain(m: Memory, gone: seq<Info>, left: seq<Info>, last: Info?)
    requires Chain(m, gone + left, last) && left != []
    ensures Chain(m, left[1..], left[0]) && left[0] in m.next && left[0] in m.prev && left[0] !in left[1..]
    ensures forall x | x in left :: x !in gone
    decreases gone
  {
    if gone == [] {
      assert gone + left == left;
    } else {
      assert (gone + left)[1..] == gone[1..] + left;
      LeftChain(m, gone[1..], left, gone[0]);
    }
  }

  /** The state right after the first record is kept that follows freed ones. */
  ghost function Resumed(c: Config, s: State, gone: seq<Info>, left: seq<Info>, last: Info?, k: Record): State
    requires Sized(c, s) && left != [] && k.index < c.size
  {
    Enter(c, s.(mem := Bypassed(c, s.mem, gone, left, last), recs := s.recs - Members(gone)), left[0], k)
  }

  lemma ResumedFrame(c: Config, s: State, gone: seq<Info>, left: seq<Info>, last: Info?, k: Record, x: Info)
    requires Sized(c, s) && left != [] && k.index < c.size && Has(c, s, x) && x !in gone && x != left[0] && x != last
    requires s.mem.heads[Slot(c, k)] != x
    ensures var u := Resumed(c, s, gone, left, last, k);
            Has(c, u, x) && u.recs[x] == s.recs[x] && u.mem.next[x] == s.mem.next[x] && u.mem.prev[x] == s.mem.prev[x]
  {
  }

  lemma ResumedHeads(c: Config, s: State, gone: seq<Info>, left: seq<Info>, last: Info?, k: Record, i: nat)
    requires Sized(c, s) && left != [] && k.index < c.size && i <= c.size
    ensures var u := Resumed(c, s, gone, left, last, k);
            && Sized(c, u) && u.mem.heads[i] in {s.mem.heads[i], left[0]}
            && left[0] in u.recs && left[0] in u.mem.next && left[0] in u.mem.prev
  {
  }

  lemma ResumedPending(c: Config, s: State, lists: seq<seq<Info>>, gone: seq<Info>, left: seq<Info>, last: Info?,
                       k: Record)
    requires left != [] && Mid(c, s, lists, gone + left, last) && Sized(c, s) && k.index < c.size
    ensures Pending(c, Resumed(c, s, gone, left, last, k), left[1..], left[0])
  {
    hide Inv;
    hide Resumed;
    MidSized(c, s, lists, gone + left, last);
    LeftChain(s.mem, gone, left, last);
    var u := Resumed(c, s, gone, left, last, k);
    ResumedHeads(c, s, gone, left, last, k, 0);
    forall i | 0 <= i < |u.mem.heads| && u.mem.heads[i] != null
      ensures u.mem.heads[i] !in left[1..]
    {
      HeadsClear(c, s, lists, gone + left, last, i);
      ResumedHeads(c, s, gone, left, last, k, i);
    }
    forall x | x in left[1..]
      ensures x in s.recs && x in s.mem.next && x in s.mem.prev
      ensures Has(c, u, x) && u.recs[x] == s.recs[x] && u.mem.next[x] == s.mem.next[x] && u.mem.prev[x] == s.mem.prev[x]
    {
      assert x in gone + left && x in left;
      HeadsClear(c, s, lists, gone + left, last, Slot(c, k));
      ResumedFrame(c, s, gone, left, last, k, x);
    }
    ChainFrame(s.mem, u.mem, left[1..], left[0]);
  }

  lemma ResumedLinks(c: Config, s: State, gone: seq<Info>, left: seq<Info>, last: Info?, k: Record)
    requires Sized(c, s) && left != [] && k.index < c.size && left[0] !in gone
    requires last != null ==> last in s.mem.prev && last in s.recs && last !in gone && last != left[0]
    requires s.mem.heads[Slot(c, k)] != left[0]
    ensures var u, y := Resumed(c, s, gone, left, last, k), left[0];
            && Live(u, y, left[1..]) == (y !in left[1..]) && u.recs[y] == k
            && (last != null ==> Live(u, last, []) && u.mem.next[last] == y && u.mem.prev[y] == null)
            && (last == null && Slot(c, k) == c.Idle() ==> u.mem.next[y] == y && u.mem.prev[y] == y)
            && (last == null && Slot(c, k) != c.Idle() ==> u.mem.heads[c.Idle()] == y)
  {
  }

  lemma NotMissing(c: Config, s: State, lists: seq<seq<Info>>, todo: seq<Info>, last: Info)
    requires Mid(c, s, lists, todo, last)
    ensures last in s.mem.next && last in s.mem.prev && last in s.recs
  {
    InvHas(c, Rest(s, todo), lists, last);
  }

  lemma ResumedFlawed(c: Config, s: State, lists: seq<seq<Info>>, gone: seq<Info>, left: seq<Info>, last: Info?,
                      k: Record) returns (f: Flaw)
    requires left != [] && Mid(c, s, lists, gone + left, last) && Sized(c, s) && k.index < c.size
    ensures Flawed(c, Resumed(c, s, gone, left, last, k), left[1..], left[0], f)
  {
    hide Mid;
    hide Resumed;
    hide Chain;
    var y := left[0];
    assert y in gone + left;
    MidSized(c, s, lists, gone + left, last);
    LeftChain(s.mem, gone, left, last);
    HeadsClear(c, s, lists, gone + left, last, Slot(c, k));
    ResumedHeads(c, s, gone, left, last, k, c.Idle());
    if last != null {
      NotMissing(c, s, lists, gone + left, last);
      f := Mismatch(last, y);
    } else {
      f := if Slot(c, k) == c.Idle() then Stray(y, y) else Foreign(y);
    }
    ResumedLinks(c, s, gone, left, last, k);
  }

  lemma BypassedFirst(c: Config, s: State, gone: seq<Info>, left: seq<Info>, last: Info?)
    requires Sized(c, s) && left != [] && Chain(s.mem, gone + left, last) && AllThere(c, s, gone + left)
    ensures var t := s.(mem := Bypassed(c, s.mem, gone, left, last), recs := s.recs - Members(gone));
            Sized(c, t) && Has(c, t, left[0]) && t.recs[left[0]] == s.recs[left[0]]
  {
    LeftChain(s.mem, gone, left, last);
    assert left[0] in gone + left;
  }

  lemma FreedThenKept(c: Config, s: State, lists: seq<seq<Info>>, gone: seq<Info>, left: seq<Info>, last: Info?,
                      now: int, lists': seq<seq<Info>>)
    requires gone != [] && left != [] && Mid(c, s, lists, gone + left, last) && c.Valid()
    requires AllFreed(c, s.recs, gone, now) && left[0] in s.recs && !Freed(c, s.recs[left[0]], now)
    ensures !Inv(c, TickOver(c, s, gone + left, now), lists')
  {
    hide Inv;
    hide Freed;
    hide Kept;
    hide Mid;
    hide Chain;
    hide Flawed;
    hide Pending;
    hide Bypassed;
    hide Enter;
    MidSized(c, s, lists, gone + left, last);
    FreeRun(c, s, gone, left, last, now);
    var t := s.(mem := Bypassed(c, s.mem, gone, left, last), recs := s.recs - Members(gone));
    BypassedFirst(c, s, gone, left, last);
    var k := Kept(c, s.offset, s.recs[left[0]], now);
    TickFirst(c, t, left, now);
    ResumedPending(c, s, lists, gone, left, last, k);
    var f := ResumedFlawed(c, s, lists, gone, left, last, k);
    FlawedStays(c, Resumed(c, s, gone, left, last, k), left[1..], left[0], f, now, lists');
  }

  lemma {:induction false} SplitFreed(c: Config, recs: map<Info, Record>, todo: seq<Info>, now: int) returns (n: nat)
    requires c.Valid() && todo != [] && (forall x | x in todo :: x in recs)
    requires Freed(c, recs[todo[0]], now) && !AllFreed(c, recs, todo, now)
    ensures 0 < n < |todo| && AllFreed(c, recs, todo[..n], now) && !Freed(c, recs[todo[n]], now)
  {
    hide Freed;
    n := 1;
    assert todo[..1] == [todo[0]] && todo[..|todo|] == todo;
    while n < |todo| && Freed(c, recs[todo[n]], now)
      invariant 0 < n <= |todo| && AllFreed(c, recs, todo[..n], now)
    {
      assert todo[..n + 1] == todo[..n] + [todo[n]];
      n := n + 1;
    }
  }

  // ----- Exactly when a tick keeps the lists in order

  /** Keeping a record changes none of the others to do. */
  lemma KeepFrame(c: Config, s: State, todo: seq<Info>, last: Info?, now: int)
    requires Sized(c, s) && todo != [] && AllThere(c, s, todo) && Chain(s.mem, todo, last)
    requires Has(c, s, todo[0]) && !Freed(c, s.recs[todo[0]], now)
    ensures var t, k := TickOne(c, s, todo[0], now), Kept(c, s.offset, s.recs[todo[0]], now);
            && t.offset == s.offset && todo[0] in t.mem.next
            && t.mem.heads == s.mem.heads[Slot(c, k) := todo[0]]
            && t.mem.next[todo[0]] == s.mem.heads[Slot(c, k)]
            && forall x | x in todo[1..] :: x in s.recs && x in t.recs && t.recs[x] == s.recs[x]
  {
    ChainFacts(s.mem, todo, last);
    hide Chain;
    hide Kept;
    forall x | x in todo[1..]
      ensures x in s.recs && x != todo[0]
    {
      assert x in todo;
    }
  }

  lemma {:induction false} TickSound(c: Config, s: State, lists: seq<seq<Info>>, todo: seq<Info>, last: Info?,
                                     recs: map<Info, Record>, now: int) returns (lists': seq<seq<Info>>)
    requires Mid(c, s, lists, todo, last) && Sized(c, s)
    requires forall x | x in todo :: x in recs && recs[x].index < c.size && x in s.recs && recs[x] == s.recs[x]
    requires last != null ==> last in s.mem.next
    requires Harmless(c, recs, s.offset, s.mem.heads, todo, Room(c, s, last), now)
    ensures Inv(c, TickOver(c, s, todo, now), lists')
    decreases todo
  {
    hide Inv;
    hide Chain;
    lists' := lists;
    if todo == [] {
      assert s.mem.next - Members([]) == s.mem.next && s.mem.prev - Members([]) == s.mem.prev;
      assert s.recs - Members([]) == s.recs;
      assert Rest(s, todo) == s;
    } else if Freed(c, recs[todo[0]], now) {
      EndWithRoom(c, s, lists, todo, last, now);
    } else {
      var on := MidKeep(c, s, lists, todo, last, now);
      KeepFrame(c, s, todo, last, now);
      var t := TickOne(c, s, todo[0], now);
      hide Mid;
      hide TickOne;
      hide Kept;
      TickFirst(c, s, todo, now);
      lists' := TickSound(c, t, on, todo[1..], todo[0], recs, now);
    }
  }

  lemma FreedFirst(c: Config, s: State, lists: seq<seq<Info>>, todo: seq<Info>, last: Info?, now: int,
                   lists': seq<seq<Info>>)
    requires Mid(c, s, lists, todo, last) && todo != [] && Sized(c, s)
    requires todo[0] in s.recs && Freed(c, s.recs[todo[0]], now)
    requires Inv(c, TickOver(c, s, todo, now), lists')
    ensures last != null ==> last in s.mem.next
    ensures AllFreed(c, s.recs, todo, now) && Room(c, s, last)
  {
    MidSized(c, s, lists, todo, last);
    hide Mid;
    hide Inv;
    hide Freed;
    if !AllFreed(c, s.recs, todo, now) {
      var n := SplitFreed(c, s.recs, todo, now);
      assert todo[..n] + todo[n..] == todo;
      FreedThenKept(c, s, lists, todo[..n], todo[n..], last, now, lists');
    } else if !Room(c, s, last) {
      EndWithoutRoom(c, s, lists, todo, last, now, lists');
    }
  }

  lemma {:induction false} TickUnsound(c: Config, s: State, lists: seq<seq<Info>>, todo: seq<Info>, last: Info?,
                                       recs: map<Info, Record>, now: int, lists': seq<seq<Info>>)
    requires Mid(c, s, lists, todo, last) && Sized(c, s)
    requires forall x | x in todo :: x in recs && recs[x].index < c.size && x in s.recs && recs[x] == s.recs[x]
    requires last != null ==> last in s.mem.next
    requires Inv(c, TickOver(c, s, todo, now), lists')
    ensures Harmless(c, recs, s.offset, s.mem.heads, todo, Room(c, s, last), now)
    decreases todo
  {
    hide Inv;
    hide Chain;
    if todo != [] {
      MidSized(c, s, lists, todo, last);
      if Freed(c, recs[todo[0]], now) {
        FreedFirst(c, s, lists, todo, last, now, lists');
        assert AllFreed(c, recs, todo, now);
      } else {
        var on := MidKeep(c, s, lists, todo, last, now);
        KeepFrame(c, s, todo, last, now);
        var t := TickOne(c, s, todo[0], now);
        hide Mid;
        hide TickOne;
        hide Kept;
        TickFirst(c, s, todo, now);
        TickUnsound(c, t, on, todo[1..], todo[0], recs, now, lists');
      }
    }
  }

  lemma {:induction false} WalkIs(m: Memory, l: seq<Info>, p: Info?, fuel: nat)
    requires Chain(m, l, p) && fuel >= |l|
    ensures Walk(m, First(l), fuel) == l
    decreases l
  {
    if l != [] {
      WalkIs(m, l[1..], l[0], fuel - 1);
    }
  }

  lemma {:induction false} ChainFits(m: Memory, l: seq<Info>, p: Info?, s: set<Info>)
    requires Chain(m, l, p) && forall x | x in l :: x in s
    ensures |l| <= |s|
    decreases l
  {
    if l != [] {
      assert l[0] in s && forall x | x in l[1..] :: x in l;
      ChainFits(m, l[1..], l[0], s - {l[0]});
    }
  }

  /** What the timer is about to go through. */
  ghost function Bucket(s: State): seq<Info>
    requires s.offset < |s.mem.heads|
  {
    Walk(s.mem, s.mem.heads[s.offset], |s.recs|)
  }

  /** The members of list `i`. */
  lemma InvList(c: Config, s: State, lists: seq<seq<Info>>, i: nat)
    requires Inv(c, s, lists) && i < |lists|
    ensures |lists| == c.size + 1 == |s.mem.heads| && ListIs(s.mem, i, lists[i])
    ensures forall x | x in lists[i] :: x in s.recs && Slot(c, s.recs[x]) == i && Has(c, s, x)
                                        && s.recs[x].penalty <= Bound(c)
  {
    PlacedAt(lists, At(c, s.recs), i);
    hide Placed;
    hide ListIs;
    assert s.mem.next.Keys == At(c, s.recs).Keys;
  }

  lemma InvLists(c: Config, s: State, lists: seq<seq<Info>>)
    requires Inv(c, s, lists)
    ensures Sized(c, s) && |lists| == c.size + 1
  {
  }

  lemma BucketIs(c: Config, s: State, lists: seq<seq<Info>>)
    requires Inv(c, s, lists)
    ensures Sized(c, s) && |lists| == c.size + 1 && Bucket(s) == lists[s.offset]
    ensures forall x | x in lists[s.offset] :: x in s.recs && s.recs[x].index < c.size
  {
    InvLists(c, s, lists);
    hide Inv;
    InvList(c, s, lists, s.offset);
    ChainFits(s.mem, lists[s.offset], null, s.recs.Keys);
    WalkIs(s.mem, lists[s.offset], null, |s.recs|);
  }

  lemma TakenPlaced(lists: seq<seq<Info>>, at: map<Info, nat>, o: nat)
    requires Placed(lists, at) && o < |lists|
    ensures Placed(lists[o := []], at - Members(lists[o]))
  {
    var at', lists' := at - Members(lists[o]), lists[o := []];
    forall i, x | 0 <= i < |lists'| && x in lists'[i]
      ensures x in at' && at'[x] == i
    {
      assert i != o && x in lists[i] && at[x] == i;
    }
  }

  lemma AtRest(c: Config, recs: map<Info, Record>, l: seq<Info>)
    ensures At(c, recs - Members(l)) == At(c, recs) - Members(l)
    ensures InBounds(c, recs) ==> InBounds(c, recs - Members(l))
  {
  }

  /** A list that is not taken stays as it was. */
  lemma TakenOther(c: Config, s: State, lists: seq<seq<Info>>, i: nat)
    requires Inv(c, s, lists) && i < |lists| && Sized(c, s) && |lists| == c.size + 1
    ensures |Rest(Turned(c, s), lists[s.offset]).mem.heads| == c.size + 1
    ensures ListIs(Rest(Turned(c, s), lists[s.offset]).mem, i, lists[s.offset := []][i])
  {
    hide Inv;
    InvList(c, s, lists, i);
    InvList(c, s, lists, s.offset);
    if i != s.offset {
      hide ListIs;
      var r := Rest(Turned(c, s), lists[s.offset]);
      assert forall y | y in lists[i] :: y !in Members(lists[s.offset]);
      OtherList(s.mem, r.mem, i, lists[i]);
    }
  }

  lemma RestKeys(s: State, l: seq<Info>, at: map<Info, nat>)
    requires s.mem.next.Keys == at.Keys && s.mem.prev.Keys == at.Keys
    ensures Rest(s, l).mem.next.Keys == (at - Members(l)).Keys
    ensures Rest(s, l).mem.prev.Keys == (at - Members(l)).Keys
  {
  }

  lemma TakenLinked(c: Config, s: State, lists: seq<seq<Info>>)
    requires Inv(c, s, lists) && Sized(c, s) && |lists| == c.size + 1
    ensures Inv(c, Rest(Turned(c, s), lists[s.offset]), lists[s.offset := []])
  {
    var l, at := lists[s.offset], At(c, s.recs);
    var r, left := Rest(Turned(c, s), l), lists[s.offset := []];
    TakenPlaced(lists, at, s.offset);
    AtRest(c, s.recs, l);
    RestKeys(Turned(c, s), l, at);
    hide Placed;
    hide ListIs;
    hide InBounds;
    hide At;
    forall i | 0 <= i < |left|
      ensures |r.mem.heads| == c.size + 1 && ListIs(r.mem, i, left[i])
    {
      TakenOther(c, s, lists, i);
    }
    assert r.recs == s.recs - Members(l);
    assert Linked(r.mem, left, at - Members(l));
  }

  /** With its bucket taken off the wheel, the rest is in order. */
  lemma TickStart(c: Config, s: State, lists: seq<seq<Info>>)
    requires Inv(c, s, lists) && Sized(c, s) && |lists| == c.size + 1
    ensures Mid(c, Turned(c, s), lists[s.offset := []], lists[s.offset], null)
  {
    hide Inv;
    TakenLinked(c, s, lists);
    InvList(c, s, lists, s.offset);
    ChainFrame(s.mem, Turned(c, s).mem, lists[s.offset], null);
  }

  /** What can be told before a tick: it frees nothing, or only at the end of the bucket and with room. */
  ghost predicate Calm(c: Config, s: State, now: int)
    requires Sized(c, s)
  {
    var t := Turned(c, s);
    && (forall x | x in Bucket(s) :: x in s.recs && s.recs[x].index < c.size)
    && Harmless(c, s.recs, t.offset, t.mem.heads, Bucket(s), t.mem.heads[c.Idle()] == null, now)
  }

  /** A calm tick keeps every record on exactly one well-linked list... */
  lemma TickKeeps(c: Config, s: State, lists: seq<seq<Info>>, now: int) returns (lists': seq<seq<Info>>)
    requires Inv(c, s, lists) && Sized(c, s) && Calm(c, s, now)
    ensures Inv(c, Tick(c, s, now), lists')
  {
    hide Inv;
    hide Mid;
    hide Walk;
    BucketIs(c, s, lists);
    TickStart(c, s, lists);
    lists' := TickSound(c, Turned(c, s), lists[s.offset := []], lists[s.offset], null, s.recs, now);
  }

  /** ...and no other tick does, whatever the lists are taken to be. */
  lemma TickKeepsOnlyCalm(c: Config, s: State, lists: seq<seq<Info>>, now: int, lists': seq<seq<Info>>)
    requires Inv(c, s, lists) && Sized(c, s) && Inv(c, Tick(c, s, now), lists')
    ensures Calm(c, s, now)
  {
    hide Inv;
    hide Mid;
    hide Walk;
    BucketIs(c, s, lists);
    TickStart(c, s, lists);
    TickUnsound(c, Turned(c, s), lists[s.offset := []], lists[s.offset], null, s.recs, now, lists');
  }

  /** In particular, a tick that frees nothing is calm. */
  lemma {:induction false} QuietIsHarmless(c: Config, recs: map<Info, Record>, offset: nat, heads: seq<Info?>,
                                           todo: seq<Info>, room: bool, now: int)
    requires c.Valid() && |heads| == c.size + 1
    requires forall x | x in todo :: x in recs && recs[x].index < c.size && !Freed(c, recs[x], now)
    ensures Harmless(c, recs, offset, heads, todo, room, now)
    decreases todo
  {
    hide Freed;
    hide Kept;
    if todo != [] {
      var i := Slot(c, Kept(c, offset, recs[todo[0]], now));
      QuietIsHarmless(c, recs, offset, heads[i := todo[0]], todo[1..], heads[i] == null, now);
    }
  }

  ghost function NoLists(c: Config): seq<seq<Info>> {
    seq(c.size + 1, i => [])
  }

  /** Nothing recorded yet. */
  ghost function Nothing(c: Config): State {
    State(Memory(map[], map[], seq(c.size + 1, i => null)), map[], 0)
  }

  lemma NothingInv(c: Config)
    requires c.Valid()
    ensures Inv(c, Nothing(c), NoLists(c))
  {
    assert At(c, Nothing(c).recs) == map[];
  }

  /** A tick with nothing due only turns the wheel. */
  lemma NothingDue(c: Config, s: State, now: int)
    requires Sized(c, s) && s.mem.heads[s.offset] == null
    ensures Tick(c, s, now) == s.(offset := (s.offset + 1) % c.size)
  {
    assert s.mem.heads[s.offset := null] == s.mem.heads;
  }

  /** A tick that frees the one record due: with it goes the whole no-reuse list. */
  lemma LostHead(c: Config, s: State, x: Info, now: int)
    requires Sized(c, s) && Has(c, s, x) && Freed(c, s.recs[x], now) && Bucket(s) == [x]
    requires s.mem.next[x] == null && s.mem.prev[x] == null
    ensures var t := Tick(c, s, now);
            t.mem.heads == s.mem.heads[s.offset := null][c.Idle() := null] && t.recs == s.recs - {x}
  {
    var t := Turned(c, s);
    assert Has(c, t, x);
    hide Freed;
    hide Walk;
    FreeOne(c, t, [x], null, now);
    TickFirst(c, t, [x], now);
  }
}
