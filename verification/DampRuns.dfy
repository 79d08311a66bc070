/**
 Runs of route flap damping: what they keep, and when a suppressed route has its turn.
 */
module DampRuns {
  import opened Lists
  import opened DampLists
  import opened Damp
  import opened DampTimer

  // ----- Runs

  datatype Step =
    | Withdrawn(x: Info, attrChange: bool, now: int)
    | Updated(x: Info, now: int)
    | Scanned(x: Info, now: int)
    | Forgotten(x: Info)
    | Ticked(now: int)

  ghost function StepOf(c: Config, s: State, step: Step): State {
    if !Sized(c, s) then s
    else
      match step
      case Withdrawn(x, attrChange, now) =>
        if x !in s.recs || Has(c, s, x) then Withdraw(c, s, x, now, attrChange) else s
      case Updated(x, now) => if Has(c, s, x) then Update(c, s, x, now) else s
      case Scanned(x, now) => if Has(c, s, x) then Scan(c, s, x, now) else s
      case Forgotten(x) => if Has(c, s, x) then Free(c, s, x) else s
      case Ticked(now) => Tick(c, s, now)
  }

  ghost function Run(c: Config, s: State, steps: seq<Step>): State
    decreases steps
  {
    if steps == [] then s else Run(c, StepOf(c, s, steps[0]), steps[1..])
  }

  /** Every tick of the run is calm. */
  ghost predicate CalmRun(c: Config, s: State, steps: seq<Step>)
    decreases steps
  {
    steps == [] ||
    (&& (steps[0].Ticked? && Sized(c, s) ==> Calm(c, s, steps[0].now))
     && CalmRun(c, StepOf(c, s, steps[0]), steps[1..]))
  }

  lemma StepIsTick(c: Config, s: State, step: Step)
    requires Sized(c, s) && step.Ticked?
    ensures StepOf(c, s, step) == Tick(c, s, step.now)
  {
  }

  lemma StepKeeps(c: Config, s: State, lists: seq<seq<Info>>, step: Step) returns (lists': seq<seq<Info>>)
    requires Inv(c, s, lists) && (step.Ticked? && Sized(c, s) ==> Calm(c, s, step.now))
    ensures Inv(c, StepOf(c, s, step), lists')
  {
    hide Inv;
    hide Withdraw;
    hide Update;
    hide Scan;
    hide Free;
    hide Tick;
    hide Calm;
    lists' := lists;
    InvLists(c, s, lists);
    match step {
      case Withdrawn(x, attrChange, now) => lists' := WithdrawKeeps(c, s, lists, x, now, attrChange);
      case Updated(x, now) =>
        if Has(c, s, x) {
          lists' := UpdateKeeps(c, s, lists, x, now);
        }
      case Scanned(x, now) =>
        if Has(c, s, x) {
          lists' := ScanKeeps(c, s, lists, x, now);
        }
      case Forgotten(x) =>
        if Has(c, s, x) {
          lists' := ForgetKeeps(c, s, lists, x);
        }
      case Ticked(now) => lists' := TickKeeps(c, s, lists, now);
    }
  }

  /** At the start and after every step, each record is on exactly one well-linked list; `ls` are the lists. */
  ghost predicate Throughout(c: Config, s: State, steps: seq<Step>, ls: seq<seq<seq<Info>>>)
    decreases steps
  {
    && |ls| == |steps| + 1 && Inv(c, s, ls[0])
    && (steps == [] || Throughout(c, StepOf(c, s, steps[0]), steps[1..], ls[1..]))
  }

  /** Throughout every calm run, each record stays on exactly one well-linked list, and penalties stay bounded... */
  lemma {:induction false} RunKeeps(c: Config, s: State, lists: seq<seq<Info>>, steps: seq<Step>)
    returns (ls: seq<seq<seq<Info>>>)
    requires Inv(c, s, lists) && CalmRun(c, s, steps)
    ensures Throughout(c, s, steps, ls) && Inv(c, Run(c, s, steps), ls[|steps|])
    decreases steps
  {
    hide Inv;
    hide StepOf;
    hide Calm;
    ls := [lists];
    if steps != [] {
      var lists' := StepKeeps(c, s, lists, steps[0]);
      var later := RunKeeps(c, StepOf(c, s, steps[0]), lists', steps[1..]);
      ls := [lists] + later;
      assert ls[1..] == later && ls[|steps|] == later[|steps| - 1];
    }
  }

  /** ...and throughout no other run. */
  lemma {:induction false} RunKeepsOnlyCalm(c: Config, s: State, steps: seq<Step>, ls: seq<seq<seq<Info>>>)
    requires Throughout(c, s, steps, ls)
    ensures CalmRun(c, s, steps)
    decreases steps
  {
    hide Inv;
    hide StepOf;
    hide Calm;
    hide Tick;
    if steps != [] {
      var step := steps[0];
      if step.Ticked? && Sized(c, s) {
        StepIsTick(c, s, step);
        TickKeepsOnlyCalm(c, s, ls[0], step.now, ls[1]);
      }
      RunKeepsOnlyCalm(c, StepOf(c, s, step), steps[1..], ls[1..]);
    }
  }

  // ----- Every record on the wheel has its turn

  /** How far the wheel turns from `offset` to `index`. */
  function Ahead(c: Config, index: nat, offset: nat): (n: nat)
    requires index < c.size && offset < c.size
    ensures n < c.size
  {
    if index >= offset then index - offset else index + c.size - offset
  }

  /** How many ticks pass before the one that evaluates `x`. */
  ghost function Waiting(c: Config, s: State, x: Info): (n: nat)
    requires Sized(c, s) && Has(c, s, x)
    ensures n < c.size
  {
    Ahead(c, s.recs[x].index, s.offset)
  }

  lemma AtLeast(k: nat, size: nat)
    requires k > 0
    ensures k * size >= size
  {
  }

  lemma Distribute(a: int, b: int, size: int)
    ensures (a - b) * size == a * size - b * size
  {
  }

  lemma ModIs(n: nat, q: nat, size: nat, r: nat)
    requires r < size && n == q * size + r
    ensures n % size == r
  {
    var d, m := n / size, n % size;
    assert n == d * size + m;
    Distribute(q, d, size);
    Distribute(d, q, size);
    if q > d {
      AtLeast(q - d, size);
    } else if d > q {
      AtLeast(d - q, size);
    }
  }

  lemma AheadOf(size: nat, offset: nat, e: nat)
    requires offset < size
    ensures var i := (offset + e) % size;
            e % size == if i >= offset then i - offset else i + size - offset
  {
    var k, q := e % size, e / size;
    assert e == q * size + k;
    if offset + k < size {
      ModIs(offset + e, q, size, offset + k);
    } else {
      Distribute(q + 1, 1, size);
      ModIs(offset + e, q + 1, size, offset + k - size);
    }
  }

  /** On the wheel, at the place that its penalty tells, a record waits for as long as the penalty tells. */
  lemma PlacedWaits(c: Config, offset: nat, penalty: nat)
    requires c.Valid() && offset < c.size
    ensures Ahead(c, ReuseIndex(c, offset, penalty), offset) == Delay(c, penalty)
  {
    AheadOf(c.size, offset, c.index[IndexOf(c, penalty)]);
  }

  /** What the evaluation of record `r` of `x` leaves: nothing, a route in use again, or one that waits on. */
  ghost predicate Evaluated(c: Config, t: State, x: Info, r: Record, now: int)
    requires c.Valid()
  {
    var p := Decay(c, now - r.updated, r.penalty);
    if 2 * p <= c.reuse then x !in t.recs
    else
      && x in t.recs && t.recs[x].index < c.size && t.offset < c.size
      && var k := t.recs[x];
         && k.penalty == p && k.updated == now && k.flaps == r.flaps && k.lastUpdate == r.lastUpdate
         && (if p < c.reuse then !k.damped && k.suppressed == 0
             else k.damped && k.suppressed == r.suppressed && Ahead(c, k.index, t.offset) == Delay(c, p))
  }

  lemma EvaluatedBy(c: Config, t: State, x: Info, r: Record, now: int)
    requires c.Valid() && r.index < c.size && t.offset < c.size && r.damped
    requires if Freed(c, r, now) then x !in t.recs else x in t.recs && t.recs[x] == Kept(c, t.offset, r, now)
    ensures Evaluated(c, t, x, r, now)
  {
    hide Decay;
    PlacedWaits(c, t.offset, Decay(c, now - r.updated, r.penalty));
    hide ReuseIndex;
    hide Delay;
  }

  lemma TickOneFrame(c: Config, s: State, x: Info, now: int, y: Info)
    requires Sized(c, s) && Has(c, s, x) && x != y
    ensures var t := TickOne(c, s, x, now);
            && t.offset == s.offset && Sized(c, t)
            && (y in s.recs <==> y in t.recs) && (y in s.recs ==> t.recs[y] == s.recs[y])
            && (Has(c, s, y) ==> Has(c, t, y))
  {
  }

  lemma TickOneDone(c: Config, s: State, x: Info, now: int)
    requires Sized(c, s) && Has(c, s, x)
    ensures var t := TickOne(c, s, x, now);
            if Freed(c, s.recs[x], now) then x !in t.recs
            else x in t.recs && t.recs[x] == Kept(c, s.offset, s.recs[x], now)
  {
  }

  lemma {:induction false} TickOverOffset(c: Config, s: State, todo: seq<Info>, now: int)
    ensures TickOver(c, s, todo, now).offset == s.offset
    decreases todo
  {
    if todo != [] && Sized(c, s) && Has(c, s, todo[0]) {
      TickOverOffset(c, TickOne(c, s, todo[0], now), todo[1..], now);
    }
  }

  /** A tick leaves a record alone that is not in its bucket. */
  lemma {:induction false} TickOverFrame(c: Config, s: State, todo: seq<Info>, now: int, y: Info)
    requires y !in todo
    ensures var t := TickOver(c, s, todo, now);
            && t.offset == s.offset
            && (y in s.recs <==> y in t.recs) && (y in s.recs ==> t.recs[y] == s.recs[y])
    decreases todo
  {
    hide TickOne;
    if todo != [] && Sized(c, s) && Has(c, s, todo[0]) {
      TickOneFrame(c, s, todo[0], now, y);
      TickOverFrame(c, TickOne(c, s, todo[0], now), todo[1..], now, y);
    }
  }

  /** And it evaluates every record in its bucket, once. */
  lemma {:induction false} TickOverEach(c: Config, s: State, todo: seq<Info>, now: int, x: Info)
    requires Sized(c, s) && NoDup(todo) && x in todo && forall y | y in todo :: Has(c, s, y)
    ensures Has(c, s, x)
    ensures var t := TickOver(c, s, todo, now);
            if Freed(c, s.recs[x], now) then x !in t.recs
            else x in t.recs && t.recs[x] == Kept(c, s.offset, s.recs[x], now)
    decreases todo
  {
    hide TickOne;
    hide Freed;
    hide Kept;
    var t := TickOne(c, s, todo[0], now);
    assert todo[0] in todo;
    TickFirst(c, s, todo, now);
    if todo[0] == x {
      TickOneDone(c, s, x, now);
      TickOverFrame(c, t, todo[1..], now, x);
    } else {
      forall y | y in todo[1..]
        ensures Has(c, t, y)
      {
        assert y in todo;
        TickOneFrame(c, s, todo[0], now, y);
      }
      TickOneFrame(c, s, todo[0], now, x);
      TickOverEach(c, t, todo[1..], now, x);
    }
  }

  lemma {:induction false} ChainNoDup(m: Memory, l: seq<Info>, p: Info?)
    requires Chain(m, l, p)
    ensures NoDup<Info>(l)
    decreases l
  {
    if l != [] {
      ChainNoDup(m, l[1..], l[0]);
    }
  }

  lemma OnList(c: Config, s: State, lists: seq<seq<Info>>, x: Info, i: nat)
    requires Inv(c, s, lists) && x in s.recs && i < |lists|
    ensures x in lists[i] <==> Slot(c, s.recs[x]) == i
  {
    PlacedAt(lists, At(c, s.recs), i);
    assert x in At(c, s.recs);
  }

  lemma NextOffset(size: nat, offset: nat)
    requires offset < size
    ensures (offset + 1) % size == if offset + 1 == size then 0 else offset + 1
  {
  }

  /** A suppressed record is evaluated when the wheel has turned to it, whatever else that tick does. */
  lemma TickEvaluates(c: Config, s: State, lists: seq<seq<Info>>, x: Info, now: int)
    requires Inv(c, s, lists) && x in s.recs && s.recs[x].damped && s.recs[x].index == s.offset
    ensures Sized(c, s) && Has(c, s, x)
    ensures Evaluated(c, Tick(c, s, now), x, s.recs[x], now)
  {
    hide Inv;
    hide Walk;
    hide Freed;
    hide Kept;
    hide TickOver;
    hide Evaluated;
    BucketIs(c, s, lists);
    OnList(c, s, lists, x, s.offset);
    InvList(c, s, lists, s.offset);
    ChainNoDup(s.mem, lists[s.offset], null);
    hide Chain;
    TickOverEach(c, Turned(c, s), lists[s.offset], now, x);
    TickOverOffset(c, Turned(c, s), lists[s.offset], now);
    NextOffset(c.size, s.offset);
    EvaluatedBy(c, Tick(c, s, now), x, s.recs[x], now);
  }

  /** Until then, every tick brings it one closer. */
  lemma TickWaits(c: Config, s: State, lists: seq<seq<Info>>, x: Info, now: int)
    requires Inv(c, s, lists) && x in s.recs && s.recs[x].damped && s.recs[x].index != s.offset
    ensures Sized(c, s) && Has(c, s, x)
    ensures var t := Tick(c, s, now);
            && x in t.recs && t.recs[x] == s.recs[x] && t.offset < c.size
            && Waiting(c, s, x) == Ahead(c, s.recs[x].index, t.offset) + 1
  {
    hide Inv;
    hide Walk;
    hide TickOver;
    BucketIs(c, s, lists);
    InvFacts(c, s, lists, x);
    OnList(c, s, lists, x, s.offset);
    TickOverFrame(c, Turned(c, s), lists[s.offset], now, x);
    NextOffset(c.size, s.offset);
  }

  /** The record that a step is about. */
  ghost predicate About(step: Step, x: Info) {
    !step.Ticked? && step.x == x
  }

  function Ticks(steps: seq<Step>): nat
    decreases steps
  {
    if steps == [] then 0 else (if steps[0].Ticked? then 1 else 0) + Ticks(steps[1..])
  }

  /** Steps about other records leave a record and the wheel alone. */
  lemma StepFrame(c: Config, s: State, step: Step, x: Info)
    requires !step.Ticked? && step.x != x
    ensures var t := StepOf(c, s, step);
            t.offset == s.offset && (x in s.recs <==> x in t.recs) && (x in s.recs ==> t.recs[x] == s.recs[x])
  {
  }

  /** A suppressed record that is left alone stays as it is, and the wheel stands at it after `Waiting` ticks. */
  lemma {:induction false} WheelStands(c: Config, s: State, lists: seq<seq<Info>>, x: Info, steps: seq<Step>)
    returns (later: seq<seq<Info>>)
    requires Inv(c, s, lists) && CalmRun(c, s, steps)
    requires x in s.recs && s.recs[x].damped && forall step | step in steps :: !About(step, x)
    ensures Sized(c, s) && Has(c, s, x) && Waiting(c, s, x) < c.size
    ensures Ticks(steps) == Waiting(c, s, x) ==>
              var t := Run(c, s, steps);
              && x in t.recs && t.recs[x] == s.recs[x] && t.offset == t.recs[x].index
              && Inv(c, t, later)
    decreases steps
  {
    hide Inv;
    later := lists;
    hide StepOf;
    hide Calm;
    InvFacts(c, s, lists, x);
    if steps != [] {
      var step := steps[0];
      var t := StepOf(c, s, step);
      assert step in steps && forall later | later in steps[1..] :: later in steps;
      if step.Ticked? {
        if s.recs[x].index != s.offset {
          TickWaits(c, s, lists, x, step.now);
          StepIsTick(c, s, step);
          var lists' := StepKeeps(c, s, lists, step);
          later := WheelStands(c, t, lists', x, steps[1..]);
        }
      } else {
        StepFrame(c, s, step, x);
        var lists' := StepKeeps(c, s, lists, step);
        later := WheelStands(c, t, lists', x, steps[1..]);
      }
    }
  }

  lemma {:induction false} RunAppend(c: Config, s: State, a: seq<Step>, b: seq<Step>)
    ensures Run(c, s, a + b) == Run(c, Run(c, s, a), b)
    decreases a
  {
    hide StepOf;
    if a == [] {
      assert a + b == b;
    } else {
      assert (a + b)[1..] == a[1..] + b;
      RunAppend(c, StepOf(c, s, a[0]), a[1..], b);
    }
  }

  lemma RunOne(c: Config, s: State, step: Step)
    ensures Run(c, s, [step]) == StepOf(c, s, step)
  {
    assert [step][1..] == [];
  }

  /**
   A suppressed record that is left alone is evaluated within one turn of the wheel, by the tick that follows
   `Waiting` others: it is freed, used again, or suppressed on with its penalty decayed.
   */
  lemma WheelTurns(c: Config, s: State, lists: seq<seq<Info>>, x: Info, steps: seq<Step>, now: int)
    requires Inv(c, s, lists) && CalmRun(c, s, steps)
    requires x in s.recs && s.recs[x].damped && forall step | step in steps :: !About(step, x)
    ensures Sized(c, s) && Has(c, s, x) && Waiting(c, s, x) < c.size
    ensures Ticks(steps) == Waiting(c, s, x) ==>
              Evaluated(c, Run(c, s, steps + [Ticked(now)]), x, s.recs[x], now)
  {
    hide Inv;
    hide StepOf;
    hide Run;
    hide Calm;
    hide Tick;
    hide Evaluated;
    var later := WheelStands(c, s, lists, x, steps);
    if Ticks(steps) == Waiting(c, s, x) {
      var t := Run(c, s, steps);
      TickEvaluates(c, t, later, x, now);
      RunAppend(c, s, steps, [Ticked(now)]);
      RunOne(c, t, Ticked(now));
      StepIsTick(c, t, Ticked(now));
    }
  }

  // ----- When a route is suppressed, and when it is used again

  ghost predicate Suppressed(s: State, x: Info) {
    x in s.recs && s.recs[x].damped
  }

  /** What a withdrawal does to the numbers of a record. */
  lemma WithdrawNumbers(c: Config, s: State, x: Info, now: int, attrChange: bool)
    requires Sized(c, s) && (x in s.recs ==> Has(c, s, x))
    ensures var t, gain := Withdraw(c, s, x, now, attrChange), if attrChange then 500 else 1000;
            && Sized(c, t) && Has(c, t, x) && t.offset == s.offset && t.recs.Keys == s.recs.Keys + {x}
            && var r := t.recs[x];
               && r.updated == now && !r.lastUpdate
               && (x !in s.recs ==> r.penalty == gain && r.flaps == 1)
               && (x in s.recs ==>
                     var p := Decay(c, now - s.recs[x].updated, s.recs[x].penalty) + gain;
                     r.penalty == (if p > c.ceiling then c.ceiling else p) && r.flaps == s.recs[x].flaps + 1)
               && (r.damped <==> (x in s.recs && s.recs[x].damped) || r.penalty >= c.suppress)
               && (r.damped ==> r.suppressed == if x in s.recs && s.recs[x].damped then s.recs[x].suppressed else now)
               && (r.damped ==>
                     if x in s.recs && s.recs[x].damped && r.penalty == s.recs[x].penalty
                     then r.index == s.recs[x].index else Waiting(c, t, x) == Delay(c, r.penalty))
  {
    hide Decay;
    hide Enter;
    hide Relist;
    hide ReuseIndex;
    hide Delay;
    if x !in s.recs {
      var r := Record(Gain(attrChange), now, 0, 0, 1, false, false);
      PlacedWaits(c, s.offset, r.penalty);
      EnteredThere(c, s, x, r);
      SettledThere(c, Enter(c, s, x, r), x, true, Wheeled(c, s.offset, r.(suppressed := now)));
    } else {
      var r := Flapped(c, s.recs[x], now, attrChange);
      PlacedWaits(c, s.offset, r.penalty);
      SettledThere(c, s, x, true, Wheeled(c, s.offset, if r.damped then r else r.(suppressed := now)));
      SettledThere(c, s, x, false, r);
    }
  }

  lemma Overwritten(recs: map<Info, Record>, x: Info, r: Record)
    ensures recs[x := r] - {x} == recs - {x}
  {
  }

  /** An update lets the penalty decay; the record is then forgotten, or the route in use again, or the rest stays. */
  lemma UpdateNumbers(c: Config, s: State, x: Info, now: int)
    requires Sized(c, s) && Has(c, s, x)
    ensures var t, r := Update(c, s, x, now), s.recs[x];
            var p := Decay(c, now - r.updated, r.penalty);
            && t.offset == s.offset
            && t.recs == if 2 * p <= c.reuse then s.recs - {x}
                         else if r.damped && p < c.reuse
                         then s.recs[x := r.(penalty := p, updated := now, lastUpdate := true,
                                             damped := false, suppressed := 0)]
                         else s.recs[x := r.(penalty := p, updated := now, lastUpdate := true)]
  {
    hide Decay;
    hide Relist;
    var was := s.recs[x];
    var p := Decay(c, now - was.updated, was.penalty);
    var r := was.(penalty := p, lastUpdate := true, updated := if Forgettable(c, p) then was.updated else now);
    var q := r.(damped := false, suppressed := 0);
    SettledThere(c, s, x, true, q);
    SettledThere(c, s, x, false, r);
    Overwritten(s.recs, x, q);
    Overwritten(s.recs, x, r);
    hide Has;
  }

  /** A scan does so for routes in use; a suppressed one it only frees after the maximum time, at the reuse limit. */
  lemma ScanNumbers(c: Config, s: State, x: Info, now: int)
    requires Sized(c, s) && Has(c, s, x)
    ensures var t, r := Scan(c, s, x, now), s.recs[x];
            var p := Decay(c, now - r.updated, r.penalty);
            && t.offset == s.offset
            && t.recs == if r.damped then
                           if now - r.suppressed < c.maxSuppress then s.recs
                           else s.recs[x := r.(damped := false, penalty := c.reuse, suppressed := 0, updated := now)]
                         else if 2 * p <= c.reuse then s.recs - {x}
                         else s.recs[x := r.(penalty := p, updated := now)]
  {
    hide Decay;
    hide Push;
    hide Pull;
    var was := s.recs[x];
    Overwritten(s.recs, x, was.(penalty := Decay(c, now - was.updated, was.penalty)));
  }

  /** A route that a withdrawal has put on the wheel is evaluated when its penalty says, wherever the wheel stood. */
  lemma ReuseOnTime(c: Config, s: State, lists: seq<seq<Info>>, x: Info, now: int, attrChange: bool,
                    steps: seq<Step>, later: int)
    requires Inv(c, s, lists)
    requires var t := StepOf(c, s, Withdrawn(x, attrChange, now));
             && CalmRun(c, t, steps) && (forall step | step in steps :: !About(step, x))
             && x in t.recs && t.recs[x].damped
             && !(Suppressed(s, x) && s.recs[x].penalty == t.recs[x].penalty)
             && c.Valid() && Ticks(steps) == Delay(c, t.recs[x].penalty)
    ensures var t := StepOf(c, s, Withdrawn(x, attrChange, now));
            Evaluated(c, Run(c, t, steps + [Ticked(later)]), x, t.recs[x], later)
  {
    hide Inv;
    hide Withdraw;
    hide Run;
    hide CalmRun;
    hide Evaluated;
    hide Delay;
    InvFacts(c, s, lists, x);
    WithdrawNumbers(c, s, x, now, attrChange);
    var step := Withdrawn(x, attrChange, now);
    var lists' := StepKeeps(c, s, lists, step);
    WheelTurns(c, StepOf(c, s, step), lists', x, steps, later);
  }

  function Capped(c: Config, penalty: nat): nat {
    if penalty > c.ceiling then c.ceiling else penalty
  }

  /** A route that is withdrawn `n` times in one instant is announced in between. */
  function FlapSteps(x: Info, now: int, n: nat): seq<Step> {
    if n == 0 then []
    else if n == 1 then [Withdrawn(x, false, now)]
    else [Withdrawn(x, false, now), Updated(x, now)] + FlapSteps(x, now, n - 1)
  }

  /** What `n` flaps at once add up to. */
  function Total(c: Config, n: nat): nat {
    if n == 1 then DEFAULT_PENALTY else Capped(c, n * DEFAULT_PENALTY)
  }

  /** `x` has flapped just now, and if it is suppressed, then since now and with the place that its penalty tells. */
  ghost predicate Seated(c: Config, s: State, x: Info, now: int) {
    && Sized(c, s) && Has(c, s, x) && s.recs[x].updated == now
    && (s.recs[x].damped ==>
          && Waiting(c, s, x) == Delay(c, s.recs[x].penalty)
          && s.recs[x].penalty >= c.reuse && s.recs[x].suppressed == now)
  }

  lemma WithdrawSeats(c: Config, s: State, x: Info, now: int)
    requires Sized(c, s) && c.reuse <= c.suppress && (x in s.recs ==> Seated(c, s, x, now))
    ensures var t := StepOf(c, s, Withdrawn(x, false, now));
            && Seated(c, t, x, now) && t.offset == s.offset && t.recs.Keys == s.recs.Keys + {x}
            && t.recs[x].penalty == (if x in s.recs then Capped(c, s.recs[x].penalty + DEFAULT_PENALTY)
                                     else DEFAULT_PENALTY)
            && t.recs[x].damped == ((x in s.recs && s.recs[x].damped) || t.recs[x].penalty >= c.suppress)
  {
    hide Withdraw;
    WithdrawNumbers(c, s, x, now, false);
    assert x in s.recs ==> Decay(c, 0, s.recs[x].penalty) == s.recs[x].penalty;
  }

  /** Announced again at once, the route keeps its penalty and its place, unless the penalty is forgotten already. */
  lemma UpdateSeats(c: Config, s: State, x: Info, now: int)
    requires Seated(c, s, x, now)
    ensures var t, p := StepOf(c, s, Updated(x, now)), s.recs[x].penalty;
            && Sized(c, t) && t.offset == s.offset
            && if Forgettable(c, p) then t.recs.Keys == s.recs.Keys - {x}
               else Seated(c, t, x, now) && t.recs.Keys == s.recs.Keys
                    && t.recs[x].penalty == p && t.recs[x].damped == s.recs[x].damped
  {
    hide Push;
    hide Delay;
    assert Decay(c, 0, s.recs[x].penalty) == s.recs[x].penalty;
  }

  lemma SeatedThere(c: Config, s: State, x: Info, now: int)
    requires Seated(c, s, x, now)
    ensures Sized(c, s) && x in s.recs
  {
  }

  lemma RunTwo(c: Config, s: State, a: Step, b: Step, rest: seq<Step>)
    ensures Run(c, s, [a, b] + rest) == Run(c, StepOf(c, StepOf(c, s, a), b), rest)
  {
    hide StepOf;
    RunOne(c, s, a);
    RunOne(c, StepOf(c, s, a), b);
    assert [a, b] + rest == [a] + ([b] + rest);
    RunAppend(c, s, [a], [b] + rest);
    RunAppend(c, StepOf(c, s, a), [b], rest);
  }

  /** Further flaps add up, as long as nothing is forgotten in between. */
  lemma {:induction false} FlapsOn(c: Config, s: State, x: Info, now: int, n: nat)
    requires Seated(c, s, x, now) && c.reuse <= c.suppress && n > 0 && !Forgettable(c, s.recs[x].penalty)
    ensures var t, r := Run(c, s, FlapSteps(x, now, n)), s.recs[x];
            && Seated(c, t, x, now) && t.offset == s.offset && t.recs.Keys == s.recs.Keys
            && t.recs[x].penalty == Capped(c, r.penalty + n * DEFAULT_PENALTY)
            && t.recs[x].damped == (r.damped || t.recs[x].penalty >= c.suppress)
    decreases n
  {
    hide StepOf;
    SeatedThere(c, s, x, now);
    WithdrawSeats(c, s, x, now);
    var w, u := Withdrawn(x, false, now), Updated(x, now);
    var t := StepOf(c, s, w);
    SeatedThere(c, t, x, now);
    if n == 1 {
      RunOne(c, s, w);
    } else {
      UpdateSeats(c, t, x, now);
      RunTwo(c, s, w, u, FlapSteps(x, now, n - 1));
      hide Run;
      FlapsOn(c, StepOf(c, t, u), x, now, n - 1);
    }
  }

  /**
   Penalties of flaps add up to the ceiling, and the route is suppressed once they reach the suppress value; but if
   the penalty of one flap is forgotten at once, every flap is the first.
   */
  lemma {:induction false} FlapsAccumulate(c: Config, s: State, x: Info, now: int, n: nat)
    requires Sized(c, s) && c.reuse <= c.suppress && x !in s.recs && n > 0
    ensures var t := Run(c, s, FlapSteps(x, now, n));
            && Seated(c, t, x, now) && t.offset == s.offset && t.recs.Keys == s.recs.Keys + {x}
            && if Forgettable(c, DEFAULT_PENALTY) then t.recs[x].penalty == DEFAULT_PENALTY && !t.recs[x].damped
               else t.recs[x].penalty == Total(c, n)
                    && t.recs[x].damped == (DEFAULT_PENALTY >= c.suppress || Total(c, n) >= c.suppress)
    decreases n
  {
    hide StepOf;
    WithdrawSeats(c, s, x, now);
    var w, u := Withdrawn(x, false, now), Updated(x, now);
    var t := StepOf(c, s, w);
    SeatedThere(c, t, x, now);
    if n == 1 {
      RunOne(c, s, w);
    } else {
      UpdateSeats(c, t, x, now);
      RunTwo(c, s, w, u, FlapSteps(x, now, n - 1));
      hide Run;
      if Forgettable(c, DEFAULT_PENALTY) {
        FlapsAccumulate(c, StepOf(c, t, u), x, now, n - 1);
      } else {
        FlapsOn(c, StepOf(c, t, u), x, now, n - 1);
      }
    }
  }

  /** What takes a route out of suppression. */
  predicate Reprieved(c: Config, r: Record, step: Step, x: Info)
    requires c.Valid()
  {
    match step
    case Updated(y, now) => y == x && Decay(c, now - r.updated, r.penalty) < c.reuse
    case Scanned(y, now) => y == x && now - r.suppressed >= c.maxSuppress
    case Forgotten(y) => y == x
    case Ticked(now) => r.index < c.size && Decay(c, now - r.updated, r.penalty) < c.reuse
    case Withdrawn(_, _, _) => false
  }

  lemma UpdateFlips(c: Config, s: State, x: Info, now: int)
    requires Sized(c, s) && Has(c, s, x)
    ensures var t, r := Update(c, s, x, now), s.recs[x];
            && (x in t.recs && t.recs[x].damped ==> r.damped)
            && (r.damped && !(x in t.recs && t.recs[x].damped) ==> Decay(c, now - r.updated, r.penalty) < c.reuse)
  {
    hide Decay;
    hide Push;
    hide Pull;
  }

  lemma ScanFlips(c: Config, s: State, x: Info, now: int)
    requires Sized(c, s) && Has(c, s, x)
    ensures var t, r := Scan(c, s, x, now), s.recs[x];
            && (x in t.recs && t.recs[x].damped ==> r.damped)
            && (r.damped && !(x in t.recs && t.recs[x].damped) ==> now - r.suppressed >= c.maxSuppress)
  {
    hide Decay;
    hide Push;
    hide Pull;
  }

  lemma TickPasses(c: Config, s: State, lists: seq<seq<Info>>, x: Info, now: int)
    requires Inv(c, s, lists) && x in s.recs && !s.recs[x].damped
    ensures Sized(c, s) && x in Tick(c, s, now).recs && Tick(c, s, now).recs[x] == s.recs[x]
  {
    hide Inv;
    hide Walk;
    hide TickOver;
    BucketIs(c, s, lists);
    OnList(c, s, lists, x, s.offset);
    TickOverFrame(c, Turned(c, s), lists[s.offset], now, x);
  }

  lemma TickInventsNothing(c: Config, s: State, lists: seq<seq<Info>>, x: Info, now: int)
    requires Inv(c, s, lists) && x !in s.recs
    ensures Sized(c, s) && x !in Tick(c, s, now).recs
  {
    hide Inv;
    hide Walk;
    hide TickOver;
    BucketIs(c, s, lists);
    TickOverFrame(c, Turned(c, s), lists[s.offset], now, x);
  }

  lemma TickFlips(c: Config, s: State, lists: seq<seq<Info>>, x: Info, now: int)
    requires Inv(c, s, lists) && x in s.recs
    ensures Sized(c, s)
    ensures var t, r := Tick(c, s, now), s.recs[x];
            && (x in t.recs && t.recs[x].damped ==> r.damped)
            && (r.damped && !(x in t.recs && t.recs[x].damped) ==> Decay(c, now - r.updated, r.penalty) < c.reuse)
  {
    hide Inv;
    hide Tick;
    hide Decay;
    InvFacts(c, s, lists, x);
    if s.recs[x].damped {
      if s.recs[x].index == s.offset {
        TickEvaluates(c, s, lists, x, now);
      } else {
        TickWaits(c, s, lists, x, now);
      }
    } else {
      TickPasses(c, s, lists, x, now);
    }
  }

  lemma FreedGone(c: Config, s: State, x: Info)
    requires Sized(c, s) && Has(c, s, x)
    ensures x !in Free(c, s, x).recs
  {
  }

  /**
   Hysteresis: only a withdrawal that brings the penalty to the suppress value suppresses a route, be it the first
   one, and only a penalty below the reuse limit, the maximum time, or forgetting the route ends its suppression.
   */
  lemma Hysteresis(c: Config, s: State, lists: seq<seq<Info>>, step: Step, x: Info)
    requires Inv(c, s, lists)
    ensures Sized(c, s)
    ensures var t := StepOf(c, s, step);
            && (!Suppressed(s, x) && Suppressed(t, x) ==>
                  step.Withdrawn? && step.x == x && t.recs[x].penalty >= c.suppress)
            && (Suppressed(s, x) && !Suppressed(t, x) ==> Reprieved(c, s.recs[x], step, x))
  {
    hide Inv;
    hide Tick;
    hide Withdraw;
    hide Update;
    hide Scan;
    hide Free;
    hide Decay;
    InvFacts(c, s, lists, x);
    if !step.Ticked? && step.x != x {
      StepFrame(c, s, step, x);
    } else {
      match step {
        case Withdrawn(_, attrChange, now) => WithdrawNumbers(c, s, x, now, attrChange);
        case Updated(_, now) =>
          if x in s.recs {
            UpdateFlips(c, s, x, now);
          }
        case Scanned(_, now) =>
          if x in s.recs {
            ScanFlips(c, s, x, now);
          }
        case Forgotten(_) =>
          if x in s.recs {
            FreedGone(c, s, x);
          }
        case Ticked(now) =>
          if x in s.recs {
            TickFlips(c, s, lists, x, now);
          } else {
            TickInventsNothing(c, s, lists, x, now);
          }
      }
    }
  }

  // ----- A run that loses the no-reuse list

  const DELTA_REUSE := 10

  /**
   The ticks `j` to `m` of a timer that fires every DELTA_REUSE seconds; after those in `scans`, all routes are
   scanned, of which only `x` has a record.
   */
  function Regular(x: Info, now: int, j: nat, m: nat, scans: set<nat>): seq<Step>
    decreases m - j
  {
    if j >= m then []
    else
      var t := now + DELTA_REUSE * (j + 1);
      [Ticked(t)] + (if j in scans then [Scanned(x, t)] else []) + Regular(x, now, j + 1, m, scans)
  }

  lemma {:induction false} NoTickCalm(c: Config, s: State, steps: seq<Step>)
    requires forall step | step in steps :: !step.Ticked?
    ensures CalmRun(c, s, steps)
    decreases steps
  {
    hide StepOf;
    if steps != [] {
      assert steps[0] in steps && forall step | step in steps[1..] :: step in steps;
      NoTickCalm(c, StepOf(c, s, steps[0]), steps[1..]);
    }
  }

  lemma {:induction false} FlapsDoNotTick(x: Info, now: int, n: nat)
    ensures forall step | step in FlapSteps(x, now, n) :: !step.Ticked?
  {
    if n > 1 {
      FlapsDoNotTick(x, now, n - 1);
    }
  }

  lemma SecondIn(l: seq<Info>)
    ensures |l| > 1 ==> l[1] in l && l[1] in l[1..]
  {
  }

  /** The only record there is, is alone on its list, and all other lists are empty. */
  lemma OneList(c: Config, s: State, lists: seq<seq<Info>>, x: Info)
    requires Inv(c, s, lists) && s.recs.Keys == {x} && s.recs[x].damped
    ensures Sized(c, s) && Has(c, s, x)
    ensures s.mem.heads[s.recs[x].index] == x && s.mem.next[x] == null && s.mem.prev[x] == null
    ensures forall j | 0 <= j <= c.size && j != s.recs[x].index :: s.mem.heads[j] == null
  {
    hide Inv;
    InvFacts(c, s, lists, x);
    InvLists(c, s, lists);
    var i := s.recs[x].index;
    OnList(c, s, lists, x, i);
    InvList(c, s, lists, i);
    var l := lists[i];
    assert forall z | z in l :: z == x;
    assert l[0] == x by { assert l[0] in l; }
    ChainFacts(s.mem, l, null);
    SecondIn(l);
    forall j | 0 <= j <= c.size && j != i
      ensures s.mem.heads[j] == null
    {
      InvList(c, s, lists, j);
      HeadIn(s.mem, j, lists[j]);
    }
  }

  /** A scan leaves a suppressed record alone until the maximum time is over. */
  lemma ScanWaits(c: Config, s: State, x: Info, now: int)
    requires Sized(c, s) && Has(c, s, x) && s.recs[x].damped && now - s.recs[x].suppressed < c.maxSuppress
    ensures StepOf(c, s, Scanned(x, now)) == s
  {
  }

  /** A tick with nothing due turns the wheel by one, and a scan at that time leaves `x` alone. */
  lemma TickPassesOne(c: Config, s: State, x: Info, time: int)
    requires Sized(c, s) && s.offset + 1 < c.size && Has(c, s, x) && s.recs[x].damped
    requires s.mem.heads[s.offset] == null && time - s.recs[x].suppressed < c.maxSuppress
    ensures var t := s.(offset := s.offset + 1);
            StepOf(c, s, Ticked(time)) == t && StepOf(c, t, Scanned(x, time)) == t
  {
    var t := s.(offset := s.offset + 1);
    ScanWaits(c, t, x, time);
    hide StepOf;
    NothingDue(c, s, time);
    StepIsTick(c, s, Ticked(time));
    NextOffset(c.size, s.offset);
  }

  /** Ticks with nothing due turn the wheel on to list `k`, whatever is scanned in between. */
  lemma {:induction false} TicksPass(c: Config, s: State, x: Info, now: int, j: nat, k: nat, scans: set<nat>)
    requires Sized(c, s) && s.offset == j <= k < c.size && Has(c, s, x) && s.recs[x].damped
    requires s.recs[x].suppressed == now && DELTA_REUSE * k < c.maxSuppress
    requires forall i | j <= i < k :: s.mem.heads[i] == null
    ensures Run(c, s, Regular(x, now, j, k, scans)) == s.(offset := k)
    decreases k - j
  {
    hide StepOf;
    if j < k {
      hide Run;
      var time := now + DELTA_REUSE * (j + 1);
      TickPassesOne(c, s, x, time);
      var t, rest := s.(offset := j + 1), Regular(x, now, j + 1, k, scans);
      TicksPass(c, t, x, now, j + 1, k, scans);
      assert t.(offset := k) == s.(offset := k);
      RunOne(c, s, Ticked(time));
      if j in scans {
        assert Regular(x, now, j, k, scans) == [Ticked(time), Scanned(x, time)] + rest;
        RunTwo(c, s, Ticked(time), Scanned(x, time), rest);
      } else {
        assert Regular(x, now, j, k, scans) == [Ticked(time)] + rest;
        RunAppend(c, s, [Ticked(time)], rest);
      }
    } else {
      assert s.(offset := k) == s;
    }
  }

  /** How many regular ticks it takes until `n` flaps at once have their turn. */
  function Turn(c: Config, n: nat): nat
    requires c.Valid()
  {
    Delay(c, Total(c, n)) + 1
  }

  lemma OneInBucket(s: State, x: Info)
    requires s.offset < |s.mem.heads| && s.mem.heads[s.offset] == x
    requires x in s.recs && x in s.mem.next && s.mem.next[x] == null
    ensures Bucket(s) == [x]
  {
    assert s.recs.Keys != {};
    assert Walk(s.mem, null, |s.recs| - 1) == [];
  }

  /** What is forgotten by the time of its turn although it was suppressed long enough to be there. */
  predicate Vanishes(c: Config, n: nat)
    requires c.Valid()
  {
    && n > 0 && DEFAULT_PENALTY < c.suppress <= Total(c, n)
    && c.reuse <= c.suppress && !Forgettable(c, DEFAULT_PENALTY)
    && DELTA_REUSE * (Turn(c, n) - 1) < c.maxSuppress
    && Forgettable(c, Decay(c, DELTA_REUSE * Turn(c, n), Total(c, n)))
  }

  /** After the flaps, the one record is alone on the wheel. */
  lemma FlapsThere(c: Config, x: Info, now: int, n: nat)
    requires c.Valid() && Vanishes(c, n)
    ensures var s, k := Run(c, Nothing(c), FlapSteps(x, now, n)), Turn(c, n) - 1;
            && Sized(c, s) && Has(c, s, x) && s.recs.Keys == {x} && s.offset == 0
            && s.recs[x].damped && s.recs[x].updated == now && s.recs[x].suppressed == now
            && s.recs[x].penalty == Total(c, n)
            && s.mem.heads[k] == x && s.mem.next[x] == null && s.mem.prev[x] == null
            && (forall j | 0 <= j <= c.size && j != k :: s.mem.heads[j] == null)
  {
    hide StepOf;
    hide Run;
    hide Inv;
    hide Calm;
    hide Decay;
    var steps := FlapSteps(x, now, n);
    FlapsAccumulate(c, Nothing(c), x, now, n);
    FlapsDoNotTick(x, now, n);
    NoTickCalm(c, Nothing(c), steps);
    NothingInv(c);
    var ls := RunKeeps(c, Nothing(c), NoLists(c), steps);
    OneList(c, Run(c, Nothing(c), steps), ls[|steps|], x);
  }

  /** The first flap of another route, while nothing is on the no-reuse list. */
  lemma OtherFlap(c: Config, s: State, x: Info, y: Info, now: int)
    requires Sized(c, s) && Has(c, s, x) && y !in s.recs && DEFAULT_PENALTY < c.suppress
    requires s.mem.heads[c.Idle()] == null
    ensures var t := StepOf(c, s, Withdrawn(y, false, now));
            && Sized(c, t) && Has(c, t, x) && t.recs == s.recs[y := t.recs[y]] && y in t.recs && !t.recs[y].damped
            && t.offset == s.offset && t.mem.heads == s.mem.heads[c.Idle() := y]
            && t.mem.next[x] == s.mem.next[x] && t.mem.prev[x] == s.mem.prev[x]
  {
  }

  lemma LastTick(c: Config, s: State, x: Info, time: int)
    requires Sized(c, s) && Has(c, s, x) && s.mem.heads[s.offset] == x
    requires s.mem.next[x] == null && s.mem.prev[x] == null && Freed(c, s.recs[x], time)
    ensures var t := StepOf(c, s, Ticked(time));
            t.recs == s.recs - {x} && t.mem.heads == s.mem.heads[s.offset := null][c.Idle() := null]
  {
    StepIsTick(c, s, Ticked(time));
    hide StepOf;
    hide Tick;
    OneInBucket(s, x);
    LostHead(c, s, x, time);
  }

  /** `x` flaps, the wheel turns with scans in between, and `y` flaps once when `x` is next. */
  function UpToLastTick(c: Config, x: Info, y: Info, now: int, n: nat, scans: set<nat>, later: int): seq<Step>
    requires c.Valid()
  {
    FlapSteps(x, now, n) + (Regular(x, now, 0, Turn(c, n) - 1, scans) + [Withdrawn(y, false, later)])
  }

  /**
   A run from nothing, with regular ticks and scans, at whose last tick the one record due is freed: with it goes the
   no-reuse list, although `y` still belongs there.
   */
  lemma NoReuseListIsLost(c: Config, x: Info, y: Info, now: int, n: nat, scans: set<nat>, later: int)
    requires c.Valid() && Vanishes(c, n) && x != y
    ensures var steps := UpToLastTick(c, x, y, now, n, scans, later);
            var s := Run(c, Nothing(c), steps);
            var t := Run(c, Nothing(c), steps + [Ticked(now + DELTA_REUSE * Turn(c, n))]);
            && |s.mem.heads| == c.size + 1 && s.mem.heads[c.Idle()] == y
            && t.recs.Keys == {y} && !t.recs[y].damped
            && |t.mem.heads| == c.size + 1 && t.mem.heads[c.Idle()] == null
  {
    hide StepOf;
    hide Run;
    hide Regular;
    hide Decay;
    hide ReuseIndex;
    hide FlapSteps;
    var flaps, ticks, k := FlapSteps(x, now, n), Regular(x, now, 0, Turn(c, n) - 1, scans), Turn(c, n) - 1;
    var w, tick := Withdrawn(y, false, later), Ticked(now + DELTA_REUSE * Turn(c, n));
    var s0 := Run(c, Nothing(c), flaps);
    FlapsThere(c, x, now, n);
    var s1 := s0.(offset := k);
    TicksPass(c, s0, x, now, 0, k, scans);
    OtherFlap(c, s1, x, y, later);
    var s2 := StepOf(c, s1, w);
    RunAppend(c, Nothing(c), flaps, ticks + [w]);
    RunAppend(c, s0, ticks, [w]);
    RunOne(c, s1, w);
    RunAppend(c, Nothing(c), flaps + (ticks + [w]), [tick]);
    RunOne(c, s2, tick);
    LastTick(c, s2, x, tick.now);
  }

  /** What bgp_damp_parameter_set computes for a half-life of ten minutes and the defaults, as far as it matters. */
  predicate HalfLifeTen(c: Config) {
    && c.Valid() && c.suppress == 2000 && c.reuse == 750 && c.ceiling == 12000 && c.maxSuppress == 2400
    && c.size == 241 && |c.decay| == 480 && |c.index| == 1024 && c.scale == 1024.0 / 15.0 && c.index[1023] == 239
  }

  /** Twelve flaps right after a tick meet the condition: they are due exactly when the decay table ends. */
  lemma HalfLifeTenLoses(c: Config)
    requires HalfLifeTen(c)
    ensures Vanishes(c, 12)
  {
    assert Total(c, 12) == 12000;
    assert 12000 as real / 750 as real == 16.0;
    assert Excess(c, 12000) == 15.0 * (1024.0 / 15.0) == 1024.0;
    assert IndexOf(c, 12000) == 1023;
    assert Turn(c, 12) == 240;
  }
}
