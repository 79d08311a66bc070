/**
 Route flap damping (bgpd/bgp_damp.c, after sections 4.8.2 and 4.8.6 of RFC 2439).

 A record for every flapping route is on one of a wheel of reuse lists while the route is
 suppressed, and on the no-reuse list otherwise.
 */
module Damp {
  import opened Lists
  import opened DampLists

  const DELTA_T := 5
  const DEFAULT_PENALTY := 1000

  /** The tables are computed in floating point by the configuration; here they are given. */
  datatype Config = Config(
    suppress: nat, reuse: nat, ceiling: nat, maxSuppress: int, size: nat,
    decay: seq<real>, scale: real, index: seq<nat>)
  {
    predicate Valid() {
      && size > 0 && 0 < reuse <= ceiling && index != []
      && forall i | 0 <= i < |decay| :: 0.0 <= decay[i] <= 1.0
    }

    /** The no-reuse list comes after the lists of the wheel. */
    function Idle(): nat { size }
  }

  // ----- Numbers

  lemma Scaled(n: nat, f: real)
    requires 0.0 <= f <= 1.0
    ensures 0 <= (n as real * f).Floor <= n
  {
    assert 0.0 <= n as real * f <= n as real;
  }

  /** bgp_damp_decay */
  function Decay(c: Config, elapsed: int, penalty: nat): (r: nat)
    requires c.Valid()
    ensures r <= penalty
  {
    if -DELTA_T < elapsed < DELTA_T then penalty
    else if elapsed < 0 || elapsed / DELTA_T >= |c.decay| then 0
    else
      var f := c.decay[elapsed / DELTA_T];
      Scaled(penalty, f);
      (penalty as real * f).Floor
  }

  /** What is left after the `i`th interval: all at first, nothing behind the table, else the part the table says. */
  lemma DecayIs(c: Config, elapsed: int, penalty: nat, i: nat)
    requires c.Valid() && DELTA_T * i <= elapsed < DELTA_T * (i + 1)
    ensures var r := Decay(c, elapsed, penalty);
            if i == 0 then r == penalty
            else if i >= |c.decay| then r == 0
            else r as real <= penalty as real * c.decay[i] < (r + 1) as real
  {
    assert elapsed / DELTA_T == i;
  }

  /** If the clock has gone back, nothing is left, unless it was less than an interval. */
  lemma DecayBack(c: Config, elapsed: int, penalty: nat)
    requires c.Valid() && elapsed < 0
    ensures Decay(c, elapsed, penalty) == if elapsed <= -DELTA_T then 0 else penalty
  {
  }

  lemma ProductOrders(a: real, b: real, f: real, g: real)
    requires 0.0 <= a <= b && 0.0 <= f <= g
    ensures a * f <= b * g
  {
    assert a * f <= a * g <= b * g;
  }

  /** A larger penalty stays the larger one, and with a falling table less is left after a longer time. */
  lemma DecayOrders(c: Config, elapsed: int, later: int, p: nat, q: nat)
    requires c.Valid() && p <= q && 0 <= elapsed <= later
    requires forall i, j | 0 <= i < j < |c.decay| :: c.decay[j] <= c.decay[i]
    ensures Decay(c, later, p) <= Decay(c, elapsed, q)
  {
    var i, j := elapsed / DELTA_T, later / DELTA_T;
    if elapsed >= DELTA_T && j < |c.decay| {
      assert c.decay[j] <= c.decay[i];
      ProductOrders(p as real, q as real, c.decay[j], c.decay[i]);
    } else if later >= DELTA_T && j < |c.decay| {
      Scaled(p, c.decay[j]);
    }
  }

  /** An index into a table that ends at `last`; the unsigned conversion takes negative numbers to its end. */
  function Position(x: real, last: nat): (i: nat)
    ensures i <= last
  {
    if x <= -1.0 || x >= last as real then last else if x < 0.0 then 0 else x.Floor
  }

  function Excess(c: Config, penalty: nat): real
    requires c.Valid()
  {
    (penalty as real / c.reuse as real - 1.0) * c.scale
  }

  /** The place of a penalty in the table of offsets. */
  function IndexOf(c: Config, penalty: nat): (i: nat)
    requires c.Valid()
    ensures i < |c.index|
  {
    Position(Excess(c, penalty), |c.index| - 1)
  }

  lemma QuotientOrders(a: real, b: real, r: real)
    requires a <= b && r > 0.0
    ensures a / r <= b / r
  {
  }

  lemma Itself(r: real)
    requires r > 0.0
    ensures r / r == 1.0
  {
  }

  lemma ExcessOrders(c: Config, p: nat, q: nat)
    requires c.Valid() && c.reuse <= p <= q && c.scale >= 0.0
    ensures 0.0 <= Excess(c, p) <= Excess(c, q)
  {
    var r := c.reuse as real;
    QuotientOrders(r, p as real, r);
    QuotientOrders(p as real, q as real, r);
    var x, y := p as real / r - 1.0, q as real / r - 1.0;
    Itself(r);
    ProductOrders(x, y, c.scale, c.scale);
    ProductOrders(0.0, x, c.scale, c.scale);
  }

  /** Of two suppressed routes, the one with the larger penalty comes no earlier in the table of offsets. */
  lemma IndexOrders(c: Config, p: nat, q: nat)
    requires c.Valid() && c.reuse <= p <= q && c.scale >= 0.0
    ensures IndexOf(c, p) <= IndexOf(c, q)
  {
    ExcessOrders(c, p, q);
    hide Excess;
  }

  lemma ExcessTimes(p: real, r: real, scale: real)
    requires r > 0.0
    ensures (p / r - 1.0) * scale * r == (p - r) * scale
  {
    assert p / r * r == p;
    assert (p / r - 1.0) * r == p - r;
    assert (p / r - 1.0) * scale * r == (p / r - 1.0) * r * scale;
  }

  lemma Fraction(d: real, r: real)
    requires r > 0.0
    ensures 0.0 <= d ==> 0.0 <= d * r
    ensures d < 1.0 ==> d * r < r
  {
    assert d < 1.0 ==> (1.0 - d) * r > 0.0;
    assert (1.0 - d) * r == r - d * r;
  }

  lemma ScaledBracket(i: real, x: real, r: real, e: real)
    requires r > 0.0 && x * r == e
    ensures i <= x ==> 0.0 <= e - i * r
    ensures x < i + 1.0 ==> e - i * r < r
  {
    var d := x - i;
    assert e - i * r == d * r;
    Fraction(d, r);
  }

  lemma PositionBracket(x: real, last: nat)
    requires x >= 0.0
    ensures var i := Position(x, last);
            i as real <= x && (i < last ==> x < i as real + 1.0)
  {
  }

  /** The place is that of the excess over the reuse limit, in steps of the scale, as far as the table goes. */
  lemma IndexBracket(c: Config, penalty: nat)
    requires c.Valid() && c.reuse <= penalty && c.scale >= 0.0
    ensures var i, excess := IndexOf(c, penalty), (penalty as real - c.reuse as real) * c.scale;
            && 0.0 <= excess - i as real * c.reuse as real
            && (i < |c.index| - 1 ==> excess - i as real * c.reuse as real < c.reuse as real)
  {
    ExcessOrders(c, c.reuse, penalty);
    ExcessTimes(penalty as real, c.reuse as real, c.scale);
    var x := Excess(c, penalty);
    var e := (penalty as real - c.reuse as real) * c.scale;
    assert x * c.reuse as real == e;
    hide Excess;
    PositionBracket(x, |c.index| - 1);
    hide Position;
    ScaledBracket(IndexOf(c, penalty) as real, x, c.reuse as real, e);
  }

  lemma Opposite(p: real, r: real, scale: real)
    ensures (p - r) * scale == -((r - p) * scale)
  {
  }

  lemma NotNegative(a: real, b: real)
    requires a > 0.0 && b >= 0.0
    ensures a * b >= 0.0
  {
  }

  lemma Sign(y: real, r: real)
    requires r > 0.0
    ensures y <= 0.0 <==> y * r <= 0.0
  {
  }

  lemma Fractions(x: real, r: real)
    requires r > 0.0
    ensures x <= -1.0 <==> -(x * r) >= r
    ensures x <= 0.0 <==> -(x * r) >= 0.0
  {
    Sign(x, r);
    Sign(x + 1.0, r);
    assert (x + 1.0) * r == x * r + r;
  }

  lemma PositionBelow(x: real, last: nat)
    requires x <= 0.0
    ensures Position(x, last) == if x <= -1.0 then last else 0
  {
  }

  lemma MissingPosition(x: real, r: real, missing: real, last: nat)
    requires r > 0.0 && x * r == -missing && missing >= 0.0
    ensures Position(x, last) == if missing >= r then last else 0
  {
    Fractions(x, r);
    PositionBelow(x, last);
    hide Position;
  }

  /** A penalty below the reuse limit has the first place, or the last one if it is more than a step below. */
  lemma IndexBelow(c: Config, penalty: nat)
    requires c.Valid() && penalty < c.reuse && c.scale >= 0.0
    ensures var missing := (c.reuse as real - penalty as real) * c.scale;
            IndexOf(c, penalty) == if missing >= c.reuse as real then |c.index| - 1 else 0
  {
    ExcessTimes(penalty as real, c.reuse as real, c.scale);
    Opposite(penalty as real, c.reuse as real, c.scale);
    NotNegative(c.reuse as real - penalty as real, c.scale);
    var missing := (c.reuse as real - penalty as real) * c.scale;
    assert Excess(c, penalty) * c.reuse as real == -missing;
    hide Excess;
    hide Position;
    MissingPosition(Excess(c, penalty), c.reuse as real, missing, |c.index| - 1);
  }

  /** How many ticks a penalty has to wait for, before the one that evaluates it. */
  function Delay(c: Config, penalty: nat): (n: nat)
    requires c.Valid()
    ensures n < c.size
  {
    c.index[IndexOf(c, penalty)] % c.size
  }

  lemma SmallMod(n: nat, size: nat)
    requires n < size
    ensures n % size == n
  {
  }

  /** With a rising table, the larger penalty waits at least as long. */
  lemma DelayOrders(c: Config, p: nat, q: nat)
    requires c.Valid() && c.reuse <= p <= q && c.scale >= 0.0
    requires forall i, j | 0 <= i < j < |c.index| :: c.index[i] <= c.index[j] < c.size
    ensures Delay(c, p) <= Delay(c, q)
  {
    IndexOrders(c, p, q);
    var i, j := IndexOf(c, p), IndexOf(c, q);
    hide IndexOf;
    if i < j {
      assert c.index[i] <= c.index[j];
      SmallMod(c.index[i], c.size);
      SmallMod(c.index[j], c.size);
    }
  }

  /** bgp_reuse_index: where on the wheel a penalty belongs. */
  function ReuseIndex(c: Config, offset: nat, penalty: nat): (r: nat)
    requires c.Valid()
    ensures r < c.size
  {
    (offset + c.index[IndexOf(c, penalty)]) % c.size
  }

  predicate Forgettable(c: Config, penalty: nat) {
    2 * penalty <= c.reuse
  }

  // ----- The operations

  /** All records, with `offset` the list of the wheel that is evaluated next. */
  datatype State = State(mem: Memory, recs: map<Info, Record>, offset: nat)

  /** The list a record belongs on. */
  function Slot(c: Config, r: Record): nat {
    if r.damped then r.index else c.Idle()
  }

  ghost function At(c: Config, recs: map<Info, Record>): map<Info, nat> {
    map x | x in recs :: Slot(c, recs[x])
  }

  ghost predicate Sized(c: Config, s: State) {
    c.Valid() && s.offset < c.size && |s.mem.heads| == c.size + 1
  }

  /** `x` has links and a record. */
  ghost predicate Has(c: Config, s: State, x: Info) {
    x in s.recs && x in s.mem.next && x in s.mem.prev && s.recs[x].index < c.size
  }

  /** A new record for `x`, on the list where the record says it is. */
  ghost function Enter(c: Config, s: State, x: Info, r: Record): State
    requires Sized(c, s) && r.index < c.size
  {
    s.(mem := Push(s.mem, Slot(c, r), x), recs := s.recs[x := r])
  }

  /** `x` off the list it was on, and onto the one where its new record says it is. */
  ghost function Relist(c: Config, s: State, x: Info, r: Record): State
    requires Sized(c, s) && Has(c, s, x) && r.index < c.size
  {
    s.(mem := Push(Pull(s.mem, Slot(c, s.recs[x]), x), Slot(c, r), x), recs := s.recs[x := r])
  }

  /** bgp_damp_info_free: off the list that its flag tells. */
  ghost function Free(c: Config, s: State, x: Info): State
    requires Sized(c, s) && Has(c, s, x)
  {
    s.(mem := Drop(Pull(s.mem, Slot(c, s.recs[x]), x), x), recs := s.recs - {x})
  }

  /** The record with its place on the wheel. */
  function Wheeled(c: Config, offset: nat, r: Record): (w: Record)
    requires c.Valid()
    ensures w.index < c.size
  {
    r.(index := ReuseIndex(c, offset, r.penalty), damped := true)
  }

  function Gain(attrChange: bool): nat {
    if attrChange then DEFAULT_PENALTY / 2 else DEFAULT_PENALTY
  }

  /** The record after one more flap. */
  function Flapped(c: Config, r: Record, now: int, attrChange: bool): (f: Record)
    requires c.Valid()
  {
    var p := Decay(c, now - r.updated, r.penalty) + Gain(attrChange);
    r.(penalty := if p > c.ceiling then c.ceiling else p, flaps := r.flaps + 1, lastUpdate := false, updated := now)
  }

  /** bgp_damp_withdraw */
  ghost function Withdraw(c: Config, s: State, x: Info, now: int, attrChange: bool): State
    requires Sized(c, s) && (x in s.recs ==> Has(c, s, x))
  {
    if x !in s.recs then
      var r := Record(Gain(attrChange), now, 0, 0, 1, false, false);
      var t := Enter(c, s, x, r);
      if r.penalty >= c.suppress && Has(c, t, x)
      then Relist(c, t, x, Wheeled(c, s.offset, r.(suppressed := now))) else t
    else
      var was := s.recs[x];
      var r := Flapped(c, was, now, attrChange);
      if r.damped then
        if r.penalty != was.penalty then Relist(c, s, x, Wheeled(c, s.offset, r)) else s.(recs := s.recs[x := r])
      else if r.penalty >= c.suppress then Relist(c, s, x, Wheeled(c, s.offset, r.(suppressed := now)))
      else s.(recs := s.recs[x := r])
  }

  /** bgp_damp_update */
  ghost function Update(c: Config, s: State, x: Info, now: int): State
    requires Sized(c, s) && (x in s.recs ==> Has(c, s, x))
  {
    if x !in s.recs then s
    else
      var was := s.recs[x];
      var p := Decay(c, now - was.updated, was.penalty);
      var r := was.(penalty := p, lastUpdate := true, updated := if Forgettable(c, p) then was.updated else now);
      var t := if r.damped && p < c.reuse then Relist(c, s, x, r.(damped := false, suppressed := 0))
               else s.(recs := s.recs[x := r]);
      if Forgettable(c, p) && Sized(c, t) && Has(c, t, x) then Free(c, t, x) else t
  }

  /** bgp_damp_scan */
  ghost function Scan(c: Config, s: State, x: Info, now: int): State
    requires Sized(c, s) && Has(c, s, x)
  {
    var was := s.recs[x];
    if was.damped then
      if now - was.suppressed >= c.maxSuppress
      then Relist(c, s, x, was.(damped := false, penalty := c.reuse, suppressed := 0, updated := now)) else s
    else
      var p := Decay(c, now - was.updated, was.penalty);
      if Forgettable(c, p) then Free(c, s.(recs := s.recs[x := was.(penalty := p)]), x)
      else s.(recs := s.recs[x := was.(penalty := p, updated := now)])
  }

  // ----- What every operation keeps

  function Bound(c: Config): nat {
    if c.ceiling > DEFAULT_PENALTY then c.ceiling else DEFAULT_PENALTY
  }

  ghost predicate InBounds(c: Config, recs: map<Info, Record>) {
    forall x | x in recs :: recs[x].penalty <= Bound(c) && recs[x].index < c.size
  }

  /** Every record is on exactly one well-linked list, the one its flag tells, and no penalty is out of bounds. */
  ghost predicate Inv(c: Config, s: State, lists: seq<seq<Info>>) {
    Sized(c, s) && InBounds(c, s.recs) && Linked(s.mem, lists, At(c, s.recs))
  }

  lemma AtUpdate(c: Config, recs: map<Info, Record>, x: Info, r: Record)
    ensures At(c, recs[x := r]) == At(c, recs)[x := Slot(c, r)]
    ensures InBounds(c, recs) && r.penalty <= Bound(c) && r.index < c.size ==> InBounds(c, recs[x := r])
  {
  }

  lemma AtDrop(c: Config, recs: map<Info, Record>, x: Info)
    ensures At(c, recs - {x}) == At(c, recs) - {x}
    ensures InBounds(c, recs) ==> InBounds(c, recs - {x})
  {
  }

  lemma InvHas(c: Config, s: State, lists: seq<seq<Info>>, x: Info)
    requires Inv(c, s, lists)
    ensures |lists| == c.size + 1
    ensures x in s.recs ==> Has(c, s, x) && x in At(c, s.recs) && At(c, s.recs)[x] == Slot(c, s.recs[x])
    ensures x !in s.recs ==> x !in At(c, s.recs)
  {
    assert x in s.recs <==> x in At(c, s.recs);
  }

  lemma PullHeads(m: Memory, j: nat, x: Info)
    requires j < |m.heads| && x in m.next && x in m.prev
    ensures |Pull(m, j, x).heads| == |m.heads|
  {
  }

  lemma EnterKeeps(c: Config, s: State, lists: seq<seq<Info>>, x: Info, r: Record)
    requires Inv(c, s, lists) && x !in s.recs && r.index < c.size && r.penalty <= Bound(c)
    ensures var j := Slot(c, r);
            j < |lists| && Inv(c, Enter(c, s, x, r), lists[j := [x] + lists[j]])
  {
    var j := Slot(c, r);
    InvHas(c, s, lists, x);
    hide Linked;
    hide Push;
    hide At;
    hide InBounds;
    PushLinked(s.mem, lists, At(c, s.recs), j, x);
    AtUpdate(c, s.recs, x, r);
    PushHeads(s.mem, j, x);
  }

  lemma FreeKeeps(c: Config, s: State, lists: seq<seq<Info>>, x: Info)
    requires Inv(c, s, lists) && x in s.recs
    ensures Has(c, s, x) && Slot(c, s.recs[x]) < |lists|
    ensures var i := Slot(c, s.recs[x]);
            Inv(c, Free(c, s, x), lists[i := Without<Info>(lists[i], x)])
  {
    InvHas(c, s, lists, x);
    hide Linked;
    hide Pull;
    hide At;
    hide InBounds;
    PullLinked(s.mem, lists, At(c, s.recs), x);
    PullHeads(s.mem, Slot(c, s.recs[x]), x);
    AtDrop(c, s.recs, x);
  }

  lemma PushPulled(m: Memory, j: nat, x: Info)
    requires j < |m.heads|
    ensures Push(m, j, x) == Push(Drop(m, x), j, x)
  {
    var h := m.heads[j];
    assert m.next[x := h] == (m.next - {x})[x := h];
    assert m.prev[x := null] == (m.prev - {x})[x := null];
  }

  lemma RelistIsFreeEnter(c: Config, s: State, x: Info, r: Record)
    requires Sized(c, s) && Has(c, s, x) && r.index < c.size && Sized(c, Free(c, s, x))
    ensures Relist(c, s, x, r) == Enter(c, Free(c, s, x), x, r)
  {
    var i := Slot(c, s.recs[x]);
    hide Pull;
    hide Push;
    PullHeads(s.mem, i, x);
    PushPulled(Pull(s.mem, i, x), Slot(c, r), x);
    assert (s.recs - {x})[x := r] == s.recs[x := r];
  }

  /** The lists after a move. */
  ghost function Moved(lists: seq<seq<Info>>, i: nat, j: nat, x: Info): seq<seq<Info>>
    requires i < |lists| && j < |lists|
  {
    var off := lists[i := Without<Info>(lists[i], x)];
    off[j := [x] + off[j]]
  }

  lemma RelistKeeps(c: Config, s: State, lists: seq<seq<Info>>, x: Info, r: Record)
    requires Inv(c, s, lists) && x in s.recs && r.index < c.size && r.penalty <= Bound(c)
    ensures Has(c, s, x) && Slot(c, s.recs[x]) < |lists| && Slot(c, r) < |lists|
    ensures Inv(c, Relist(c, s, x, r), Moved(lists, Slot(c, s.recs[x]), Slot(c, r), x))
  {
    FreeKeeps(c, s, lists, x);
    InvHas(c, s, lists, x);
    var i := Slot(c, s.recs[x]);
    hide Linked;
    hide At;
    hide InBounds;
    var t := Free(c, s, x);
    assert Sized(c, t) && x !in t.recs;
    EnterKeeps(c, t, lists[i := Without<Info>(lists[i], x)], x, r);
    RelistIsFreeEnter(c, s, x, r);
    hide Free;
    hide Relist;
    hide Enter;
  }

  lemma AtStay(c: Config, recs: map<Info, Record>, x: Info, r: Record)
    requires x in recs && Slot(c, r) == Slot(c, recs[x])
    ensures At(c, recs[x := r]) == At(c, recs)
  {
  }

  /** A record that stays on its list. */
  lemma StayKeeps(c: Config, s: State, lists: seq<seq<Info>>, x: Info, r: Record)
    requires Inv(c, s, lists) && x in s.recs
    requires Slot(c, r) == Slot(c, s.recs[x]) && r.penalty <= Bound(c) && r.index < c.size
    ensures Inv(c, s.(recs := s.recs[x := r]), lists)
  {
    hide Linked;
    hide At;
    hide InBounds;
    AtStay(c, s.recs, x, r);
    AtUpdate(c, s.recs, x, r);
  }

  lemma InvFacts(c: Config, s: State, lists: seq<seq<Info>>, x: Info)
    requires Inv(c, s, lists)
    ensures Sized(c, s)
    ensures x in s.recs ==> Has(c, s, x) && s.recs[x].penalty <= Bound(c)
  {
    InvHas(c, s, lists, x);
  }

  /** A record is moved or stays, as its new contents say. */
  lemma SettleKeeps(c: Config, s: State, lists: seq<seq<Info>>, x: Info, move: bool, r: Record)
    returns (lists': seq<seq<Info>>)
    requires Inv(c, s, lists) && x in s.recs && r.index < c.size && r.penalty <= Bound(c)
    requires !move ==> Slot(c, r) == Slot(c, s.recs[x])
    ensures Sized(c, s) && Has(c, s, x)
    ensures Inv(c, if move then Relist(c, s, x, r) else s.(recs := s.recs[x := r]), lists')
  {
    hide Inv;
    InvFacts(c, s, lists, x);
    if move {
      RelistKeeps(c, s, lists, x, r);
      lists' := Moved(lists, Slot(c, s.recs[x]), Slot(c, r), x);
    } else {
      StayKeeps(c, s, lists, x, r);
      lists' := lists;
    }
  }

  lemma ForgetKeeps(c: Config, s: State, lists: seq<seq<Info>>, x: Info) returns (lists': seq<seq<Info>>)
    requires Inv(c, s, lists) && x in s.recs
    ensures Sized(c, s) && Has(c, s, x) && Inv(c, Free(c, s, x), lists')
  {
    hide Inv;
    InvFacts(c, s, lists, x);
    FreeKeeps(c, s, lists, x);
    lists' := lists[Slot(c, s.recs[x]) := Without<Info>(lists[Slot(c, s.recs[x])], x)];
  }

  lemma NewKeeps(c: Config, s: State, lists: seq<seq<Info>>, x: Info, now: int, attrChange: bool)
    returns (lists': seq<seq<Info>>)
    requires Inv(c, s, lists) && x !in s.recs
    ensures Sized(c, s) && Inv(c, Withdraw(c, s, x, now, attrChange), lists')
  {
    hide Inv;
    hide Relist;
    hide ReuseIndex;
    hide Push;
    InvFacts(c, s, lists, x);
    var r := Record(Gain(attrChange), now, 0, 0, 1, false, false);
    EnterKeeps(c, s, lists, x, r);
    lists' := lists[c.Idle() := [x] + lists[c.Idle()]];
    var t := Enter(c, s, x, r);
    InvFacts(c, t, lists', x);
    if r.penalty >= c.suppress {
      lists' := SettleKeeps(c, t, lists', x, true, Wheeled(c, s.offset, r.(suppressed := now)));
    }
  }

  lemma WithdrawKeeps(c: Config, s: State, lists: seq<seq<Info>>, x: Info, now: int, attrChange: bool)
    returns (lists': seq<seq<Info>>)
    requires Inv(c, s, lists)
    ensures Sized(c, s) && (x in s.recs ==> Has(c, s, x))
    ensures Inv(c, Withdraw(c, s, x, now, attrChange), lists')
  {
    hide Inv;
    hide Relist;
    hide ReuseIndex;
    hide Decay;
    InvFacts(c, s, lists, x);
    if x !in s.recs {
      lists' := NewKeeps(c, s, lists, x, now, attrChange);
    } else {
      var r := Flapped(c, s.recs[x], now, attrChange);
      if if r.damped then r.penalty != s.recs[x].penalty else r.penalty >= c.suppress {
        var w := Wheeled(c, s.offset, if r.damped then r else r.(suppressed := now));
        lists' := SettleKeeps(c, s, lists, x, true, w);
      } else {
        lists' := SettleKeeps(c, s, lists, x, false, r);
      }
    }
  }

  lemma UpdateKeeps(c: Config, s: State, lists: seq<seq<Info>>, x: Info, now: int)
    returns (lists': seq<seq<Info>>)
    requires Inv(c, s, lists)
    ensures Sized(c, s) && (x in s.recs ==> Has(c, s, x))
    ensures Inv(c, Update(c, s, x, now), lists')
  {
    hide Inv;
    hide Push;
    hide Pull;
    hide Free;
    hide Decay;
    InvFacts(c, s, lists, x);
    lists' := lists;
    if x in s.recs {
      var was := s.recs[x];
      var p := Decay(c, now - was.updated, was.penalty);
      var r := was.(penalty := p, lastUpdate := true, updated := if Forgettable(c, p) then was.updated else now);
      var move := r.damped && p < c.reuse;
      var u := if move then r.(damped := false, suppressed := 0) else r;
      lists' := SettleKeeps(c, s, lists, x, move, u);
      var t := if move then Relist(c, s, x, u) else s.(recs := s.recs[x := u]);
      InvFacts(c, t, lists', x);
      if Forgettable(c, p) {
        lists' := ForgetKeeps(c, t, lists', x);
      }
    }
  }

  lemma ScanKeeps(c: Config, s: State, lists: seq<seq<Info>>, x: Info, now: int)
    returns (lists': seq<seq<Info>>)
    requires Inv(c, s, lists) && x in s.recs
    ensures Sized(c, s) && Has(c, s, x) && Inv(c, Scan(c, s, x, now), lists')
  {
    hide Inv;
    hide Relist;
    hide Free;
    hide Decay;
    InvFacts(c, s, lists, x);
    var was := s.recs[x];
    lists' := lists;
    if was.damped {
      if now - was.suppressed >= c.maxSuppress {
        lists' := SettleKeeps(c, s, lists, x, true,
                              was.(damped := false, penalty := c.reuse, suppressed := 0, updated := now));
      }
    } else {
      var p := Decay(c, now - was.updated, was.penalty);
      if Forgettable(c, p) {
        lists' := SettleKeeps(c, s, lists, x, false, was.(penalty := p));
        lists' := ForgetKeeps(c, s.(recs := s.recs[x := was.(penalty := p)]), lists', x);
      } else {
        lists' := SettleKeeps(c, s, lists, x, false, was.(penalty := p, updated := now));
      }
    }
  }

  /** A record that entered, moved or stayed is there, with its new contents. */
  lemma EnteredThere(c: Config, s: State, x: Info, r: Record)
    requires Sized(c, s) && r.index < c.size
    ensures var t := Enter(c, s, x, r);
            Sized(c, t) && Has(c, t, x) && t.recs == s.recs[x := r] && t.offset == s.offset
  {
  }

  lemma SettledThere(c: Config, s: State, x: Info, move: bool, r: Record)
    requires Sized(c, s) && Has(c, s, x) && r.index < c.size
    ensures var t := if move then Relist(c, s, x, r) else s.(recs := s.recs[x := r]);
            Sized(c, t) && Has(c, t, x) && t.recs == s.recs[x := r]
            && t.recs.Keys == s.recs.Keys && t.offset == s.offset
  {
  }
}
