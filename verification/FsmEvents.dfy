/**
 What events lead to, told event by event and field by field (the FSM array and the handlers of bgpd/bgp_fsm.c).
 */
module FsmEvents {
  import opened Fsm

  // ----- One event

  /** What the connection below has to tell. */
  predicate OfConnection(e: Event) {
    e in {TcpOpen, TcpClosed, TcpOpenFailed, TcpFatal}
  }

  /** The session ends with a NOTIFICATION: the hold time is over, or a message came before its time. */
  predicate AtFault(s: Status, e: Event) {
    || (e.HoldExpired? && s in {OpenSent, OpenConfirm, Established})
    || (s.OpenSent? && e in {ReceiveKeepalive, ReceiveUpdate})
  }

  /** A connection is to be started: for the first time, or once more. */
  predicate Connects(s: Status, e: Event) {
    (s.Idle? && e.BgpStart?) || (s in {Connect, Active} && e.ConnectRetry?)
  }

  /** Which event ends what is going on, with bgp_stop. */
  predicate Stops(s: Status, e: Event) {
    && !s.Deleted?
    && match e
       case BgpStart | KeepaliveExpired => s.Clearing? && e.KeepaliveExpired?
       case BgpStop | TcpClosed => true
       case TcpOpen => s !in {Connect, Active}
       case TcpOpenFailed => s !in {Idle, Active}
       case TcpFatal => s != Active
       case ConnectRetry => s in {Connect, Established, Clearing}
       case HoldExpired => s in {OpenSent, OpenConfirm, Established, Clearing}
       case ReceiveOpen => s in {Established, Clearing}
       case ReceiveKeepalive | ReceiveUpdate => s in {OpenSent, Clearing}
       case ReceiveNotification => s != Idle
       case ClearingCompleted => s.Clearing?
  }

  /** The handlers that call bgp_stop. */
  predicate StopsAll(h: Handler) {
    h in {Stop, ConnectFail, Reconnect, StopWithError, HoldtimeExpire, EventError, ClearingDone}
  }

  /** Which handler an event calls. */
  lemma TableSorts(s: Status, e: Event)
    ensures var h := Table(s, e).0;
            && (h.Start? || h.Reconnect? <==> Connects(s, e)) && (h.Reconnect? <==> s.Connect? && e.ConnectRetry?)
            && (h in {HoldtimeExpire, EventError} <==> AtFault(s, e))
            && (h.StopWithError? <==> e.ReceiveNotification? && s in {Active, OpenSent, OpenConfirm, Established})
            && (h.Establish? <==> s.OpenConfirm? && e.ReceiveKeepalive?)
            && (h.ClearingDone? <==> s.Clearing? && e.ClearingCompleted?)
            && (h.ConnectSuccess? <==> s in {Connect, Active} && e.TcpOpen?)
            && (StopsAll(h) <==> Stops(s, e))
  {
  }

  lemma HandledTimers(p: Peer, h: Handler, env: Env)
    ensures var (q, proceed) := Handled(p, h, env);
            && (!proceed ==> if h in {HoldtimeExpire, EventError} then q.timers == OFF && q.status.Deleted?
                             else q.timers == p.timers && q.status == p.status)
            && (q.timers.routeadv <==> h.Establish? || (p.timers.routeadv && !StopsAll(h)))
            && (h.Start? ==> proceed == StartWorks(env))
            && (h.ConnectSuccess? ==> proceed == !env.badSocket)
            && (h in {HoldtimeExpire, EventError} ==> proceed == !env.temporary)
            && (proceed || h in {Start, ConnectSuccess, HoldtimeExpire, EventError})
  {
    hide CompletionsIn;
  }

  /** bgp_event goes where the table says, unless its handler stops it. */
  lemma EventGoes(p: Peer, e: Event, env: Env)
    ensures var (h, next) := Table(p.status, e);
            EventStep(p, e, env).status ==
            if (h.Start? && !StartWorks(env)) || (h.ConnectSuccess? && env.badSocket) then p.status
            else if h in {HoldtimeExpire, EventError} && env.temporary then Deleted
            else next
  {
    hide EventStep;
    hide Table;
    EventStatus(p, e, env);
    HandledTimers(p, Table(p.status, e).0, env);
    hide Handled;
  }

  lemma TableLeads(s: Status, e: Event)
    ensures var t := Table(s, e).1;
            && (t.Connect? && t != s <==> Connects(s, e) && !s.Connect?)
            && (t.Active? && t != s <==> (s.Connect? && e.TcpOpenFailed?) || (s.OpenSent? && OfConnection(e)))
            && (t.OpenSent? && t != s <==> s in {Connect, Active} && e.TcpOpen?)
            && (t.OpenConfirm? && t != s <==> s.OpenSent? && e.ReceiveOpen?)
            && (t.Established? && t != s <==> s.OpenConfirm? && e.ReceiveKeepalive?)
            && (t.Clearing? && t != s <==>
                  && s.Established?
                  && e !in {BgpStart, KeepaliveExpired, ReceiveKeepalive, ReceiveUpdate, ClearingCompleted})
            && (t.Deleted? ==> s.Deleted?)
  {
  }

  /** Which event enters which state. */
  lemma EventLeads(p: Peer, e: Event, env: Env)
    ensures var s, t := p.status, EventStep(p, e, env).status;
            && (t.Connect? && t != s <==> StartWorks(env) && Connects(s, e) && !s.Connect?)
            && (t.Active? && t != s <==> (s.Connect? && e.TcpOpenFailed?) || (s.OpenSent? && OfConnection(e)))
            && (t.OpenSent? && t != s <==> s in {Connect, Active} && e.TcpOpen? && !env.badSocket)
            && (t.OpenConfirm? && t != s <==> s.OpenSent? && e.ReceiveOpen?)
            && (t.Established? && t != s <==> s.OpenConfirm? && e.ReceiveKeepalive?)
            && (t.Clearing? && t != s <==>
                  && s.Established? && !(env.temporary && e.HoldExpired?)
                  && e !in {BgpStart, KeepaliveExpired, ReceiveKeepalive, ReceiveUpdate, ClearingCompleted})
            && (t.Deleted? && t != s <==> env.temporary && AtFault(s, e))
  {
    hide EventStep;
    hide Table;
    EventGoes(p, e, env);
    TableSorts(p.status, e);
    TableLeads(p.status, e);
  }

  /** Which event keeps a peer in its state; every other one leads to Idle, unless it enters one of the states above. */
  lemma EventStays(p: Peer, e: Event, env: Env)
    ensures EventStep(p, e, env).status == p.status <==>
            match p.status
            case Idle => !(e.BgpStart? && StartWorks(env))
            case Connect => e in {BgpStart, ConnectRetry} || (e.TcpOpen? && env.badSocket)
            case Active =>
              || e in {BgpStart, TcpOpenFailed}
              || (e.TcpOpen? && env.badSocket) || (e.ConnectRetry? && !StartWorks(env))
            case OpenSent => e.BgpStart?
            case OpenConfirm => e in {BgpStart, KeepaliveExpired}
            case Established => e in {BgpStart, KeepaliveExpired, ReceiveKeepalive, ReceiveUpdate}
            case Clearing => !e.ClearingCompleted?
            case Deleted => true
  {
    hide EventStep;
    EventGoes(p, e, env);
  }

  /** The connection attempt queues what comes of it. */
  function Answer(env: Env): seq<Event> {
    if env.suppressed then []
    else if env.passive || env.connection.Failed? then [TcpOpenFailed]
    else if env.connection.Succeeded? then [TcpOpen]
    else []
  }

  /** What the handlers queue themselves. */
  function Queued(p: Peer, e: Event, env: Env): seq<Event> {
    var t := EventStep(p, e, env).status;
    if Connects(p.status, e) then Answer(env)
    else if t != p.status && t in {Clearing, Deleted} && !p.clearWork && !env.routes then [ClearingCompleted]
    else []
  }

  lemma StartedIs(p: Peer, env: Env)
    requires !p.status.Deleted?
    ensures Started(p, env) == (p.(queue := p.queue + Answer(env)), StartWorks(env))
  {
    assert p.queue + [] == p.queue;
    assert p == p.(queue := p.queue);
  }

  /** What a handler leaves, before the state changes. */
  lemma HandledIs(p: Peer, h: Handler, env: Env)
    requires !p.status.Deleted? && (h.Reconnect? || h in {HoldtimeExpire, EventError} ==> !p.status.Clearing?)
    ensures var q := Handled(p, h, env).0;
            match h
            case Start => q.queue == p.queue + Answer(env) && q.dropped == p.dropped && q.clearWork == p.clearWork
            case Reconnect => q.queue == Answer(env) && q.dropped == Stopped(p).dropped && q.clearWork == p.clearWork
            case Stop | ConnectFail | StopWithError =>
              q.queue == Stopped(p).queue && q.dropped == Stopped(p).dropped && q.clearWork == p.clearWork
            case ClearingDone => q.queue == [] && q.dropped == Stopped(p).dropped && q.clearWork == p.clearWork
            case HoldtimeExpire | EventError =>
              && q.dropped == Stopped(p).dropped
              && q.queue == (if env.temporary && !p.clearWork && !env.routes then [ClearingCompleted] else [])
              && q.clearWork == (p.clearWork || (env.temporary && env.routes))
            case _ => q.queue == p.queue && q.dropped == p.dropped && q.clearWork == p.clearWork
    ensures var (q, proceed) := Handled(p, h, env);
            proceed ==> q.status == if h.Establish? then Established else p.status
  {
    hide CompletionsIn;
    if h.Start? {
      StartedIs(p, env);
    } else if h.Reconnect? {
      StartedIs(Stopped(p), env);
      assert [] + Answer(env) == Answer(env);
    }
  }

  lemma ChangedIs(p: Peer, next: Status, env: Env)
    requires !p.status.Deleted?
    ensures var q := TimersSet(if next != p.status then ChangedTo(p, next, env) else p, env);
            && q.dropped == p.dropped
            && q.clearWork == (p.clearWork || (next != p.status && next in {Clearing, Deleted} && env.routes))
            && q.queue == p.queue + if next != p.status && next in {Clearing, Deleted} && !p.clearWork && !env.routes
                                    then [ClearingCompleted] else []
  {
    assert p.queue + [] == p.queue;
  }

  /** Stopping forgets what is queued, except in Clearing, and counts a session that is lost. */
  lemma EventQueues(p: Peer, e: Event, env: Env)
    ensures var s, q := p.status, EventStep(p, e, env);
            && q.queue == (if Stops(s, e) && (s.Clearing? ==> e.ClearingCompleted?) then [] else p.queue)
                          + Queued(p, e, env)
            && (q.clearWork <==> p.clearWork || (env.routes && q.status != s && q.status in {Clearing, Deleted}))
            && q.dropped == p.dropped + (if s.Established? && Stops(s, e) then 1 else 0)
  {
    hide CompletionsIn;
    hide Table;
    hide Stops;
    hide Connects;
    hide AtFault;
    hide StartWorks;
    TableSorts(p.status, e);
    EventStatus(p, e, env);
    TableShape(p.status, e);
    assert p.queue + [] == p.queue;
    if !p.status.Deleted? {
      var (h, next) := Table(p.status, e);
      HandledIs(p, h, env);
      var q := Handled(p, h, env).0;
      hide Handled;
      if Handled(p, h, env).1 {
        ChangedIs(q, next, env);
      }
      hide TimersSet;
      hide ChangedTo;
    }
  }

  lemma HandledInterval(p: Peer, h: Handler, env: Env)
    ensures var x := p.startInterval;
            var more := if 2 * x < MAX_START then 2 * x else MAX_START;
            Handled(p, h, env).0.startInterval ==
            match h
            case StopWithError => more
            case HoldtimeExpire | EventError =>
              if !env.temporary then INIT_START else if env.badSocket then x else more
            case Establish => INIT_START
            case _ => x
  {
    hide CompletionsIn;
  }

  /** How long to wait before the next start. */
  lemma EventInterval(p: Peer, e: Event, env: Env)
    ensures var s, x := p.status, p.startInterval;
            var more := if 2 * x < MAX_START then 2 * x else MAX_START;
            EventStep(p, e, env).startInterval ==
            if e.ReceiveNotification? && s in {Active, OpenSent, OpenConfirm, Established} then more
            else if AtFault(s, e) && !env.temporary then INIT_START
            else if AtFault(s, e) && !env.badSocket then more
            else if s.OpenConfirm? && e.ReceiveKeepalive? then INIT_START
            else x
  {
    hide CompletionsIn;
    hide Table;
    hide AtFault;
    TableSorts(p.status, e);
    var (h, next) := Table(p.status, e);
    HandledInterval(p, h, env);
    hide Handled;
  }

  lemma TimersAfter(p: Peer, env: Env)
    ensures var t, s, held := TimersSet(p, env).timers, p.status, env.holdtime != 0;
            && (t.start <==> s.Idle? && !env.suppressed && !env.inactive)
            && (t.connect <==> s.Connect? || (s.Active? && !env.passive && !env.nsfWait))
            && (t.holdtime <==> held && s in {OpenSent, OpenConfirm, Established})
            && (t.keepalive <==> held && s in {OpenConfirm, Established})
            && (t.routeadv <==> s.Established? && p.timers.routeadv)
  {
  }

  /** The timers that run after an event, unless its handler did not get on with it. */
  lemma EventTimers(p: Peer, e: Event, env: Env)
    ensures var s, q := p.status, EventStep(p, e, env);
            if (!StartWorks(env) && Connects(s, e) && !s.Connect?)
               || (env.badSocket && s in {Connect, Active} && e.TcpOpen?) then q.timers == p.timers
            else
              var t, held := q.timers, env.holdtime != 0;
              && (t.start <==> q.status.Idle? && !env.suppressed && !env.inactive)
              && (t.connect <==> q.status.Connect? || (q.status.Active? && !env.passive && !env.nsfWait))
              && (t.holdtime <==> held && q.status in {OpenSent, OpenConfirm, Established})
              && (t.keepalive <==> held && q.status in {OpenConfirm, Established})
              && (t.routeadv <==> q.status.Established? && (s.Established? ==> p.timers.routeadv))
  {
    hide CompletionsIn;
    hide Table;
    hide AtFault;
    hide Connects;
    hide Stops;
    TableSorts(p.status, e);
    TableShape(p.status, e);
    EventStatus(p, e, env);
    var (h, next) := Table(p.status, e);
    HandledTimers(p, h, env);
    hide Handled;
    hide ChangedTo;
    var q := Handled(p, h, env).0;
    ChangeKeeps(q, next, env);
    TimersAfter(if next != q.status then ChangedTo(q, next, env) else q, env);
    hide TimersSet;
  }

  // ----- Whole runs

  /** A state is entered by an event, by taking over a connection, or by deleting the peer. */
  lemma StepLeads(p: Peer, s: Step)
    ensures var q := StepOf(p, s);
            || q.status == p.status
            || (s.TakeOver? && q.status.OpenSent? && !p.status.Deleted?)
            || (s.Delete? && q.status.Deleted?)
            || (Executed(p, s).Some?
                && exists r: Peer :: r.status == p.status && q == EventStep(r, Executed(p, s).value, s.env))
  {
    hide EventStep;
    hide CompletionsIn;
    match s
    case Dispatch(env) =>
      if p.queue != [] {
        assert p.(queue := p.queue[1..]).status == p.status;
      }
    case StartTimer(env) => assert p.(timers := p.timers.(start := false)).status == p.status;
    case ConnectTimer(env) => assert p.(timers := p.timers.(connect := false)).status == p.status;
    case HoldTimer(env) => assert p.(timers := p.timers.(holdtime := false)).status == p.status;
    case KeepaliveTimer(env) => assert p.(timers := p.timers.(keepalive := false)).status == p.status;
    case _ =>
  }

  /** What a start comes to, once the event it queues is dispatched. */
  lemma StartOutcome(p: Peer, env: Env, later: Env)
    requires p.status.Idle? && p.timers.start && p.queue == [] && !env.suppressed
    ensures var q := Run(p, [StartTimer(env), Dispatch(later)]);
            && q.queue == []
            && if env.passive || env.connection.Failed? then
                 q.status.Active? && q.timers == OFF.(connect := !later.passive && !later.nsfWait)
               else if env.connection.Succeeded? then q.status == if later.badSocket then Connect else OpenSent
               else q.status == if env.badSocket then Idle else Connect
  {
    hide EventStep;
    hide Run;
    RunTwo(p, StartTimer(env), Dispatch(later));
    var r := p.(timers := p.timers.(start := false));
    EventLeads(r, BgpStart, env);
    EventStays(r, BgpStart, env);
    EventQueues(r, BgpStart, env);
    assert [] + Answer(env) == Answer(env);
    if Answer(env) != [] {
      var q, e := EventStep(r, BgpStart, env).(queue := []), Answer(env)[0];
      assert Answer(env)[1..] == [];
      EventLeads(q, e, later);
      EventStays(q, e, later);
      EventQueues(q, e, later);
      EventTimers(q, e, later);
    }
  }

  /** A passive peer that may start listens in Active, and goes on to OpenSent when it is connected to. */
  lemma PassivePeer(p: Peer, env: Env, later: Env, last: Env)
    requires p.status.Idle? && p.timers.start && p.queue == [] && !env.suppressed && env.passive
    ensures Run(p, [StartTimer(env), Dispatch(later)]).status.Active?
    ensures Run(p, [StartTimer(env), Dispatch(later), Arrive(TcpOpen), Dispatch(last)]).status ==
            if last.badSocket then Active else OpenSent
  {
    hide EventStep;
    hide CompletionsIn;
    var a, b := [StartTimer(env), Dispatch(later)], [Arrive(TcpOpen), Dispatch(last)];
    StartOutcome(p, env, later);
    assert a + b == [StartTimer(env), Dispatch(later), Arrive(TcpOpen), Dispatch(last)];
    RunAppend(p, a, b);
    var q := Run(p, a);
    hide Run;
    RunTwo(q, Arrive(TcpOpen), Dispatch(last));
    assert ([] + [TcpOpen])[1..] == [];
    EventLeads(q, TcpOpen, last);
    EventStays(q, TcpOpen, last);
  }

  // ----- Backing off

  /** How often the peer has backed off since its interval was last reset, if it was `k` times before the step. */
  function BackedOff(k: nat, p: Peer, s: Step): nat {
    match Executed(p, s)
    case None => if s == Notify(false) then k + 1 else k
    case Some(e) =>
      if e.ReceiveNotification? && p.status in {Active, OpenSent, OpenConfirm, Established} then k + 1
      else if AtFault(p.status, e) && !s.env.temporary then 0
      else if AtFault(p.status, e) && !s.env.badSocket then k + 1
      else if p.status.OpenConfirm? && e.ReceiveKeepalive? then 0
      else k
  }

  function BackedOffOver(k: nat, p: Peer, steps: seq<Step>): nat
    decreases steps
  {
    if steps == [] then k else BackedOffOver(BackedOff(k, p, steps[0]), StepOf(p, steps[0]), steps[1..])
  }

  function Power(k: nat): nat {
    if k == 0 then 1 else 2 * Power(k - 1)
  }

  /** The start interval doubles with every time, up to a maximum. */
  function Interval(k: nat): nat {
    if INIT_START * Power(k) < MAX_START then INIT_START * Power(k) else MAX_START
  }

  lemma IntervalDoubles(k: nat)
    ensures Interval(k + 1) == (if 2 * Interval(k) < MAX_START then 2 * Interval(k) else MAX_START)
    ensures Interval(0) == INIT_START
  {
  }

  lemma StepBacksOff(p: Peer, s: Step, k: nat)
    requires p.startInterval == Interval(k)
    ensures StepOf(p, s).startInterval == Interval(BackedOff(k, p, s))
  {
    hide EventStep;
    hide CompletionsIn;
    hide Interval;
    hide AtFault;
    IntervalDoubles(k);
    match s
    case Dispatch(env) =>
      if p.queue != [] {
        EventInterval(p.(queue := p.queue[1..]), p.queue[0], env);
      }
    case StartTimer(env) => EventInterval(p.(timers := p.timers.(start := false)), BgpStart, env);
    case ConnectTimer(env) => EventInterval(p.(timers := p.timers.(connect := false)), ConnectRetry, env);
    case HoldTimer(env) => EventInterval(p.(timers := p.timers.(holdtime := false)), HoldExpired, env);
    case KeepaliveTimer(env) => EventInterval(p.(timers := p.timers.(keepalive := false)), KeepaliveExpired, env);
    case _ =>
  }

  /** Over any run of a new peer: the interval is the initial one, doubled for each time since the last reset. */
  lemma {:induction false} RunBacksOff(p: Peer, steps: seq<Step>, k: nat)
    requires p.startInterval == Interval(k)
    ensures Run(p, steps).startInterval == Interval(BackedOffOver(k, p, steps))
    decreases steps
  {
    hide StepOf;
    hide Interval;
    hide BackedOff;
    if steps != [] {
      StepBacksOff(p, steps[0], k);
      RunBacksOff(StepOf(p, steps[0]), steps[1..], BackedOff(k, p, steps[0]));
    }
  }
}
