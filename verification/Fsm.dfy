/**
 The session state machine (bgpd/bgp_fsm.c and bgp_fsm.h, after section 8 of RFC 4271):
 the transition table, the handlers with their event queue, timers and counters,
 and the route clearing that keeps a lost session in Clearing until it has finished.
 */
module Fsm {
  import opened Options

  datatype Status = Idle | Connect | Active | OpenSent | OpenConfirm | Established | Clearing | Deleted

  datatype Event =
    | BgpStart | BgpStop | TcpOpen | TcpClosed | TcpOpenFailed | TcpFatal
    | ConnectRetry | HoldExpired | KeepaliveExpired
    | ReceiveOpen | ReceiveKeepalive | ReceiveUpdate | ReceiveNotification | ClearingCompleted

  datatype Handler =
    | Start | Stop | Ignore | ConnectSuccess | ConnectFail | Reconnect | StopWithError | HoldtimeExpire
    | FsmOpen | EventError | Establish | KeepaliveExpire | FsmKeepalive | FsmUpdate | ClearingDone

  /** The FSM table: what to do with an event, and the state to go to. */
  function Table(s: Status, e: Event): (Handler, Status) {
    match s
    case Idle =>
      (match e
       case BgpStart => (Start, Connect)
       case BgpStop | TcpOpen | TcpClosed | TcpFatal => (Stop, Idle)
       case _ => (Ignore, Idle))
    case Connect =>
      (match e
       case BgpStart => (Ignore, Connect)
       case BgpStop | TcpClosed | ReceiveNotification => (Stop, Idle)
       case TcpOpen => (ConnectSuccess, OpenSent)
       case TcpOpenFailed => (ConnectFail, Active)
       case TcpFatal => (ConnectFail, Idle)
       case ConnectRetry => (Reconnect, Connect)
       case _ => (Ignore, Idle))
    case Active =>
      (match e
       case BgpStart | TcpOpenFailed => (Ignore, Active)
       case BgpStop | TcpClosed => (Stop, Idle)
       case TcpOpen => (ConnectSuccess, OpenSent)
       case ConnectRetry => (Start, Connect)
       case ReceiveNotification => (StopWithError, Idle)
       case _ => (Ignore, Idle))
    case OpenSent =>
      (match e
       case BgpStart => (Ignore, OpenSent)
       case BgpStop => (Stop, Idle)
       case TcpOpen | TcpClosed | TcpOpenFailed | TcpFatal => (Stop, Active)
       case HoldExpired => (HoldtimeExpire, Idle)
       case ReceiveOpen => (FsmOpen, OpenConfirm)
       case ReceiveKeepalive | ReceiveUpdate => (EventError, Idle)
       case ReceiveNotification => (StopWithError, Idle)
       case _ => (Ignore, Idle))
    case OpenConfirm =>
      (match e
       case BgpStart | KeepaliveExpired => (Ignore, OpenConfirm)
       case BgpStop | TcpOpen | TcpClosed | TcpOpenFailed | TcpFatal => (Stop, Idle)
       case HoldExpired => (HoldtimeExpire, Idle)
       case ReceiveKeepalive => (Establish, Established)
       case ReceiveNotification => (StopWithError, Idle)
       case _ => (Ignore, Idle))
    case Established =>
      (match e
       case BgpStart => (Ignore, Established)
       case BgpStop | TcpOpen | TcpClosed | TcpOpenFailed | TcpFatal | ConnectRetry | ReceiveOpen =>
         (Stop, Clearing)
       case HoldExpired => (HoldtimeExpire, Clearing)
       case KeepaliveExpired => (KeepaliveExpire, Established)
       case ReceiveKeepalive => (FsmKeepalive, Established)
       case ReceiveUpdate => (FsmUpdate, Established)
       case ReceiveNotification => (StopWithError, Clearing)
       case ClearingCompleted => (Ignore, Idle))
    case Clearing =>
      (match e
       case BgpStart => (Ignore, Clearing)
       case ClearingCompleted => (ClearingDone, Idle)
       case _ => (Stop, Clearing))
    case Deleted => (Ignore, Deleted)
  }

  /** What the handlers find outside the state machine when they look. */
  datatype Env = Env(
    suppressed: bool,          // shut down, or over its prefix limit
    inactive: bool,            // no address family configured
    passive: bool,
    nsfWait: bool,             // graceful restart in progress
    temporary: bool,           // a peer made for an accepted connection
    holdtime: nat,             // the negotiated hold time
    connection: Connection,    // what bgp_connect answers
    badSocket: bool,           // the descriptor turns out negative
    routes: bool)              // clearing found routes of this peer to queue

  datatype Connection = Failed | Succeeded | InProgress

  /** The fields of struct peer that the state machine owns; `clearWork`: the clear-node queue is scheduled. */
  datatype Peer = Peer(
    status: Status, queue: seq<Event>, clearWork: bool, established: nat, dropped: nat, startInterval: nat,
    timers: Timers)

  /** Which timers are running. */
  datatype Timers = Timers(start: bool, connect: bool, holdtime: bool, keepalive: bool, routeadv: bool)

  const OFF := Timers(false, false, false, false, false)

  const INIT_START := 5
  const MAX_START := 120

  // ----- The pieces of the handlers

  /** BGP_EVENT_ADD */
  function Add(p: Peer, e: Event): Peer {
    if p.status.Deleted? then p else p.(queue := p.queue + [e])
  }

  /** bgp_stop */
  function Stopped(p: Peer): Peer {
    p.(queue := if p.status.Clearing? then p.queue else [],
       dropped := if p.status.Established? then p.dropped + 1 else p.dropped,
       timers := OFF)
  }

  function Doubled(interval: nat): nat {
    if interval * 2 >= MAX_START then MAX_START else interval * 2
  }

  /** bgp_fsm_change_status: entering Clearing or Deleted clears the routes, or completes at once without any. */
  function ChangedTo(p: Peer, s: Status, env: Env): Peer {
    if s.Clearing? || s.Deleted? then
      var q := p.(clearWork := p.clearWork || env.routes);
      (if q.clearWork then q else Add(q, ClearingCompleted)).(status := s)
    else p.(status := s)
  }

  /** bgp_timer_set */
  function TimersSet(p: Peer, env: Env): Peer {
    var held := env.holdtime != 0;
    p.(timers :=
      match p.status
      case Idle => OFF.(start := !env.suppressed && !env.inactive)
      case Connect => OFF.(connect := true)
      case Active => OFF.(connect := !env.passive && !env.nsfWait)
      case OpenSent => OFF.(holdtime := held)
      case OpenConfirm => OFF.(holdtime := held, keepalive := held)
      case Established => OFF.(holdtime := held, keepalive := held, routeadv := p.timers.routeadv)
      case Clearing | Deleted => OFF)
  }

  /** peer_delete, as far as the state machine goes */
  function Removed(p: Peer, env: Env): Peer {
    TimersSet(ChangedTo(Stopped(p), Deleted, env), env)
  }

  /** bgp_start: the result, and whether the handler lets bgp_event proceed. */
  function Started(p: Peer, env: Env): (Peer, bool) {
    if env.suppressed then (p, false)
    else if env.passive then (Add(p, TcpOpenFailed), true)
    else
      match env.connection
      case Failed => (Add(p, TcpOpenFailed), true)
      case Succeeded => (Add(p, TcpOpen), true)
      case InProgress => (p, !env.badSocket)
  }

  /** bgp_write_notify */
  function Notified(p: Peer, badSocket: bool): Peer {
    if badSocket then Add(p, TcpFatal) else Add(p.(startInterval := Doubled(p.startInterval)), BgpStop)
  }

  /** bgp_stop_with_notify; sending the notification queues an event, which the stop then flushes. */
  function StoppedWithNotify(p: Peer, env: Env): (Peer, bool) {
    var q := Notified(p, env.badSocket);
    if env.temporary then (Removed(q, env), false)
    else (Stopped(q.(startInterval := INIT_START)), true)
  }

  function Unheld(p: Peer): Peer {
    p.(timers := p.timers.(holdtime := false))
  }

  function Handled(p: Peer, h: Handler, env: Env): (Peer, bool) {
    match h
    case Start => Started(p, env)
    case Stop | ConnectFail => (Stopped(p), true)
    case Ignore | KeepaliveExpire => (p, true)
    case ConnectSuccess => (p, !env.badSocket)
    case Reconnect => (Started(Stopped(p), env).0, true)
    case StopWithError => (Stopped(p.(startInterval := Doubled(p.startInterval))), true)
    case HoldtimeExpire | EventError => StoppedWithNotify(p, env)
    case FsmOpen | FsmKeepalive | FsmUpdate => (Unheld(p), true)
    case Establish =>
      var q := ChangedTo(p.(startInterval := INIT_START, established := p.established + 1), Established, env);
      (q.(timers := q.timers.(routeadv := true)), true)
    case ClearingDone => (Stopped(p).(queue := []), true)
  }

  /** bgp_event */
  function EventStep(p: Peer, e: Event, env: Env): Peer {
    var (h, next) := Table(p.status, e);
    var (q, proceed) := Handled(p, h, env);
    if proceed then TimersSet(if next != q.status then ChangedTo(q, next, env) else q, env) else q
  }

  // ----- Everything that can happen to a peer

  datatype Step =
    | Arrive(event: Event)      // another part of the daemon queues an event; completions are not theirs to queue
    | Dispatch(env: Env)        // the event at the head of the queue is executed
    | StartTimer(env: Env) | ConnectTimer(env: Env) | HoldTimer(env: Env) | KeepaliveTimer(env: Env) | RouteadvTimer
    | Refresh(env: Env)         // bgp_timer_set is called from elsewhere
    | Notify(badSocket: bool)   // a NOTIFICATION is sent from elsewhere
    | ClearRoutes               // routes are queued for clearing from outside bgp_fsm_change_status
    | ClearDone                 // the clear-node queue has been worked off
    | TakeOver(nsfMode: bool, collided: bool)   // an accepted connection is transferred to this peer
    | Delete(env: Env)

  /** Whether bgp_open_receive transfers a connection to its peer; `collided`: it has closed another one for it. */
  predicate TakesOver(s: Status, nsfMode: bool, collided: bool) {
    !s.Deleted? && (collided || s in {Connect, Active, OpenSent, OpenConfirm} || (s.Established? && nsfMode))
  }

  function StepOf(p: Peer, s: Step): Peer {
    match s
    case Arrive(e) => if e.ClearingCompleted? then p else Add(p, e)
    case Dispatch(env) => if p.queue == [] then p else EventStep(p.(queue := p.queue[1..]), p.queue[0], env)
    case StartTimer(env) =>
      if p.timers.start then EventStep(p.(timers := p.timers.(start := false)), BgpStart, env) else p
    case ConnectTimer(env) =>
      if p.timers.connect then EventStep(p.(timers := p.timers.(connect := false)), ConnectRetry, env) else p
    case HoldTimer(env) =>
      if p.timers.holdtime then EventStep(p.(timers := p.timers.(holdtime := false)), HoldExpired, env) else p
    case KeepaliveTimer(env) =>
      if p.timers.keepalive then EventStep(p.(timers := p.timers.(keepalive := false)), KeepaliveExpired, env) else p
    case RouteadvTimer =>
      if p.timers.routeadv && !p.status.Deleted? then p.(timers := p.timers.(routeadv := true)) else p
    case Refresh(env) => TimersSet(p, env)
    case Notify(badSocket) => Notified(p, badSocket)
    case ClearRoutes => p.(clearWork := true)
    case ClearDone => if p.clearWork then Add(p.(clearWork := false), ClearingCompleted) else p
    case TakeOver(nsfMode, collided) =>
      if TakesOver(p.status, nsfMode, collided) then Stopped(p).(status := OpenSent) else p
    case Delete(env) => if p.status.Deleted? then p else Removed(p, env)
  }

  function Run(p: Peer, steps: seq<Step>): Peer
    decreases steps
  {
    if steps == [] then p else Run(StepOf(p, steps[0]), steps[1..])
  }

  /** A peer as configured, or as made for an accepted connection. */
  predicate New(p: Peer) {
    p.status in {Idle, Active} && p == Peer(p.status, [], false, 0, 0, INIT_START, OFF)
  }

  // ----- What every run keeps

  function CompletionsIn(q: seq<Event>): nat {
    if q == [] then 0 else (if q[0].ClearingCompleted? then 1 else 0) + CompletionsIn(q[1..])
  }

  /** Completions of route clearing that are still to come: queued, or scheduled work that will queue one. */
  function Outstanding(p: Peer): nat {
    CompletionsIn(p.queue) + if p.clearWork then 1 else 0
  }

  /** A peer in Clearing is waiting for exactly one completion; other live peers for none. */
  predicate OneCompletion(p: Peer) {
    && (p.status.Clearing? ==> Outstanding(p) == 1)
    && (!p.status.Clearing? && !p.status.Deleted? ==> Outstanding(p) == 0)
  }

  predicate Counted(p: Peer) {
    p.established == p.dropped + if p.status.Established? then 1 else 0
  }

  /** Each timer runs only in the states it belongs to. */
  predicate TimersRight(p: Peer) {
    && (p.timers.start ==> p.status.Idle?)
    && (p.timers.connect ==> p.status in {Connect, Active})
    && (p.timers.holdtime ==> p.status in {OpenSent, OpenConfirm, Established})
    && (p.timers.keepalive ==> p.status in {OpenConfirm, Established})
    && (p.timers.routeadv ==> p.status.Established?)
  }

  predicate Inv(p: Peer) {
    OneCompletion(p) && Counted(p) && TimersRight(p) && INIT_START <= p.startInterval <= MAX_START
  }

  lemma {:induction false} CompletionsAppend(q: seq<Event>, e: Event)
    ensures CompletionsIn(q + [e]) == CompletionsIn(q) + if e.ClearingCompleted? then 1 else 0
  {
    if q == [] {
      assert q + [e] == [e];
    } else {
      assert (q + [e])[1..] == q[1..] + [e];
      CompletionsAppend(q[1..], e);
    }
  }

  lemma AddOutstanding(p: Peer, e: Event)
    ensures Outstanding(Add(p, e)) ==
            Outstanding(p) + if e.ClearingCompleted? && !p.status.Deleted? then 1 else 0
  {
    CompletionsAppend(p.queue, e);
  }

  /** What a piece of a handler leaves alone, other than the status, the queue and the timers. */
  ghost predicate SameCounts(p: Peer, q: Peer) {
    q.established == p.established && q.dropped == p.dropped && q.startInterval == p.startInterval
  }

  /** Starting a connection queues what comes of it, but no completion. */
  lemma StartKeeps(p: Peer, env: Env)
    ensures var q := Started(p, env).0;
            q.status == p.status && SameCounts(p, q) && q.timers == p.timers && Outstanding(q) == Outstanding(p)
  {
    hide Outstanding;
    AddOutstanding(p, TcpOpen);
    AddOutstanding(p, TcpOpenFailed);
  }

  /** Stopping leaves no timer on, counts a lost session, and outside Clearing forgets all events. */
  lemma StopKeeps(p: Peer)
    ensures var q := Stopped(p);
            && q.status == p.status && q.timers == OFF
            && q.established == p.established && q.startInterval == p.startInterval
            && q.dropped == p.dropped + (if p.status.Established? then 1 else 0)
            && Outstanding(q) == if p.status.Clearing? then Outstanding(p) else if p.clearWork then 1 else 0
  {
  }

  /** Entering Clearing with nothing outstanding leaves exactly one completion to come. */
  lemma ChangeKeeps(p: Peer, s: Status, env: Env)
    ensures var q := ChangedTo(p, s, env);
            && q.status == s && SameCounts(p, q) && q.timers == p.timers
            && (s.Clearing? && !p.status.Deleted? && Outstanding(p) == 0 ==> Outstanding(q) == 1)
            && (!s.Clearing? && !s.Deleted? ==> Outstanding(q) == Outstanding(p))
  {
    CompletionsAppend(p.queue, ClearingCompleted);
  }

  lemma TimersKeep(p: Peer, env: Env)
    requires p.timers.routeadv ==> p.status.Established?
    ensures var q := TimersSet(p, env);
            q.status == p.status && SameCounts(p, q) && TimersRight(q) && Outstanding(q) == Outstanding(p)
  {
    hide CompletionsIn;
  }

  lemma RemoveKeeps(p: Peer, env: Env)
    requires Counted(p) && !p.status.Deleted?
    ensures var q := Removed(p, env);
            && q.status.Deleted? && q.established == q.dropped && q.timers == OFF
            && q.startInterval == p.startInterval
  {
    hide CompletionsIn;
    StopKeeps(p);
    ChangeKeeps(Stopped(p), Deleted, env);
    TimersKeep(ChangedTo(Stopped(p), Deleted, env), env);
  }

  /** What bgp_event finds: the event is off the queue, and a completion arrives only where one is awaited. */
  predicate Ready(p: Peer, e: Event) {
    && Counted(p) && TimersRight(p) && INIT_START <= p.startInterval <= MAX_START
    && (!p.status.Deleted? ==>
          Outstanding(p) == if p.status.Clearing? && !e.ClearingCompleted? then 1 else 0)
    && (e.ClearingCompleted? ==> p.status in {Clearing, Deleted})
  }

  /** The shape of the table. */
  lemma TableShape(s: Status, e: Event)
    ensures var (h, next) := Table(s, e);
            match h
            case Ignore | KeepaliveExpire =>
              (next == s && !(s.Clearing? && e.ClearingCompleted?))
              || (next.Idle? && s in {Connect, Active, OpenSent, OpenConfirm})
              || (s.Established? && e.ClearingCompleted?)
            case Stop | ConnectFail | StopWithError | HoldtimeExpire | EventError =>
              !s.Deleted? && (s.Clearing? ==> h.Stop? && !e.ClearingCompleted?)
              && (if s in {Established, Clearing} then next.Clearing? else next in {Idle, Active})
            case Start => s in {Idle, Active} && next.Connect?
            case ConnectSuccess => s in {Connect, Active} && next.OpenSent?
            case Reconnect => s.Connect? && next.Connect?
            case FsmOpen => s.OpenSent? && next.OpenConfirm?
            case FsmKeepalive | FsmUpdate => s.Established? && next.Established?
            case Establish => s.OpenConfirm? && next.Established?
            case ClearingDone => s.Clearing? && e.ClearingCompleted? && next.Idle?
  {
  }

  /** What a handler that lets bgp_event proceed has to leave for the change to `next`. */
  predicate Fit(q: Peer, next: Status) {
    && INIT_START <= q.startInterval <= MAX_START
    && (q.timers.routeadv ==> next.Established?)
    && q.established == q.dropped + (if next.Established? then 1 else 0)
    && (next.Deleted? ==> q.status.Deleted?)
    && (next.Clearing? ==> !q.status.Deleted? && Outstanding(q) == if q.status.Clearing? then 1 else 0)
    && (!next.Clearing? && !next.Deleted? ==> Outstanding(q) == 0)
  }

  lemma FitLeadsOn(q: Peer, next: Status, env: Env)
    requires Fit(q, next)
    ensures Inv(TimersSet(if next != q.status then ChangedTo(q, next, env) else q, env))
    ensures TimersSet(if next != q.status then ChangedTo(q, next, env) else q, env).status == next
  {
    hide Outstanding;
    hide ChangedTo;
    hide TimersSet;
    ChangeKeeps(q, next, env);
    var r := if next != q.status then ChangedTo(q, next, env) else q;
    TimersKeep(r, env);
  }

  lemma StopFits(p: Peer, e: Event, next: Status)
    requires Ready(p, e) && !p.status.Deleted? && (p.status.Clearing? ==> !e.ClearingCompleted?)
    requires if p.status in {Established, Clearing} then next.Clearing? else next in {Idle, Active}
    ensures Fit(Stopped(p), next)
  {
    hide CompletionsIn;
    StopKeeps(p);
  }

  lemma ErrorFits(p: Peer, e: Event, next: Status)
    requires Ready(p, e) && !p.status.Deleted? && !p.status.Clearing?
    requires if p.status.Established? then next.Clearing? else next in {Idle, Active}
    ensures Fit(Stopped(p.(startInterval := Doubled(p.startInterval))), next)
  {
    hide CompletionsIn;
    var q := p.(startInterval := Doubled(p.startInterval));
    StopFits(q, e, next);
  }

  lemma OutstandingFrame(p: Peer, interval: nat)
    ensures Outstanding(p.(startInterval := interval)) == Outstanding(p)
  {
  }

  /** Sending a NOTIFICATION queues a stop, but no completion, and backs off. */
  lemma NotifyKeeps(p: Peer, badSocket: bool)
    ensures var q := Notified(p, badSocket);
            && q.status == p.status && q.timers == p.timers && q.established == p.established && q.dropped == p.dropped
            && Outstanding(q) == Outstanding(p)
            && (INIT_START <= p.startInterval <= MAX_START ==> p.startInterval <= q.startInterval <= MAX_START)
  {
    hide Outstanding;
    AddOutstanding(p, TcpFatal);
    AddOutstanding(p.(startInterval := Doubled(p.startInterval)), BgpStop);
    OutstandingFrame(p, Doubled(p.startInterval));
  }

  lemma NotifyFits(p: Peer, e: Event, next: Status, env: Env)
    requires Ready(p, e) && !p.status.Deleted? && !p.status.Clearing?
    requires if p.status.Established? then next.Clearing? else next in {Idle, Active}
    ensures var (q, proceed) := StoppedWithNotify(p, env);
            if proceed then Fit(q, next) else Inv(q) && q.status.Deleted?
  {
    hide CompletionsIn;
    hide Removed;
    NotifyKeeps(p, env.badSocket);
    var q := Notified(p, env.badSocket);
    if env.temporary {
      RemoveKeeps(q, env);
    } else {
      OutstandingFrame(q, INIT_START);
      StopFits(q.(startInterval := INIT_START), e, next);
    }
  }

  lemma StartFits(p: Peer, e: Event, env: Env)
    requires Ready(p, e) && p.status in {Idle, Active}
    ensures var (q, proceed) := Started(p, env);
            if proceed then Fit(q, Connect) else Inv(q) && q.status == p.status
  {
    hide CompletionsIn;
    hide Started;
    StartKeeps(p, env);
  }

  lemma ReconnectFits(p: Peer, e: Event, env: Env)
    requires Ready(p, e) && p.status.Connect?
    ensures Fit(Started(Stopped(p), env).0, Connect)
  {
    hide CompletionsIn;
    hide Started;
    hide Stopped;
    StopKeeps(p);
    StartKeeps(Stopped(p), env);
    assert !p.clearWork;
  }

  lemma EstablishFits(p: Peer, e: Event, env: Env)
    requires Ready(p, e) && p.status.OpenConfirm?
    ensures Fit(Handled(p, Establish, env).0, Established)
  {
    hide CompletionsIn;
  }

  lemma ClearingDoneFits(p: Peer)
    requires Ready(p, ClearingCompleted) && p.status.Clearing?
    ensures Fit(Stopped(p).(queue := []), Idle)
  {
  }

  /** Every handler does its part, whatever the table pairs it with. */
  lemma HandledFits(p: Peer, e: Event, env: Env)
    requires Ready(p, e)
    ensures var (h, next) := Table(p.status, e);
            var (q, proceed) := Handled(p, h, env);
            if proceed then Fit(q, next) else Inv(q) && q.status in {p.status, Deleted}
  {
    hide CompletionsIn;
    hide Table;
    hide Started;
    hide Stopped;
    hide StoppedWithNotify;
    var (h, next) := Table(p.status, e);
    TableShape(p.status, e);
    match h {
      case Stop | ConnectFail => StopFits(p, e, next);
      case StopWithError => ErrorFits(p, e, next);
      case HoldtimeExpire | EventError => NotifyFits(p, e, next, env);
      case Start => StartFits(p, e, env);
      case Reconnect => ReconnectFits(p, e, env);
      case Establish => EstablishFits(p, e, env);
      case ClearingDone => ClearingDoneFits(p);
      case _ =>
    }
  }

  /** bgp_event keeps the invariant, and goes where the table says or, for a temporary peer, to Deleted. */
  lemma EventKeeps(p: Peer, e: Event, env: Env)
    requires Ready(p, e)
    ensures Inv(EventStep(p, e, env))
    ensures EventStep(p, e, env).status in {Table(p.status, e).1, p.status, Deleted}
  {
    HandledFits(p, e, env);
    var (h, next) := Table(p.status, e);
    var (q, proceed) := Handled(p, h, env);
    hide Handled;
    hide Fit;
    hide Table;
    if proceed {
      FitLeadsOn(q, next, env);
    }
  }

  lemma PopReady(p: Peer)
    requires Inv(p) && p.queue != []
    ensures Ready(p.(queue := p.queue[1..]), p.queue[0])
  {
  }

  /**
   The steps that leave a completion where none is awaited: a take-over in Clearing, for which bgp_stop keeps the
   events, and routes queued for clearing while nothing of this peer is being cleared.
   */
  predicate Disturbs(p: Peer, s: Step) {
    || (s.TakeOver? && s.collided && p.status.Clearing?)
    || (s.ClearRoutes? && !p.clearWork && !p.status.Deleted?)
  }

  lemma DisturbedInv(p: Peer, s: Step)
    requires Inv(p) && Disturbs(p, s)
    ensures !OneCompletion(StepOf(p, s))
  {
    hide CompletionsIn;
  }

  lemma UndisturbedInv(p: Peer, s: Step)
    requires Inv(p) && !Disturbs(p, s)
    ensures Inv(StepOf(p, s))
  {
    hide EventStep;
    hide CompletionsIn;
    hide Notified;
    match s {
      case Arrive(e) => AddOutstanding(p, e);
      case Dispatch(env) =>
        if p.queue != [] {
          PopReady(p);
          EventKeeps(p.(queue := p.queue[1..]), p.queue[0], env);
        }
      case StartTimer(env) =>
        if p.timers.start {
          EventKeeps(p.(timers := p.timers.(start := false)), BgpStart, env);
        }
      case ConnectTimer(env) =>
        if p.timers.connect {
          EventKeeps(p.(timers := p.timers.(connect := false)), ConnectRetry, env);
        }
      case HoldTimer(env) =>
        if p.timers.holdtime {
          EventKeeps(p.(timers := p.timers.(holdtime := false)), HoldExpired, env);
        }
      case KeepaliveTimer(env) =>
        if p.timers.keepalive {
          EventKeeps(p.(timers := p.timers.(keepalive := false)), KeepaliveExpired, env);
        }
      case RouteadvTimer =>
      case Refresh(env) => TimersKeep(p, env);
      case Notify(badSocket) => NotifyKeeps(p, badSocket);
      case ClearRoutes =>
      case ClearDone => AddOutstanding(p.(clearWork := false), ClearingCompleted);
      case TakeOver(_, _) => StopKeeps(p);
      case Delete(env) =>
        if !p.status.Deleted? {
          RemoveKeeps(p, env);
        }
    }
  }

  /** A step keeps the invariant exactly when it does not disturb the clearing of routes. */
  lemma StepKeeps(p: Peer, s: Step)
    requires Inv(p)
    ensures Inv(StepOf(p, s)) <==> !Disturbs(p, s)
  {
    hide EventStep;
    hide CompletionsIn;
    if Disturbs(p, s) {
      DisturbedInv(p, s);
    } else {
      UndisturbedInv(p, s);
    }
  }

  /** Deleted is absorbing: nothing is counted or queued any more. */
  lemma DeletedStays(p: Peer, s: Step)
    requires p.status.Deleted?
    ensures var q := StepOf(p, s);
            && q.status.Deleted? && q.established == p.established && q.dropped == p.dropped
            && |q.queue| <= |p.queue|
            && (TimersRight(p) ==> q.timers == OFF)
  {
  }

  // ----- Whole runs

  /** How often a run enters Established. */
  function Entries(p: Peer, steps: seq<Step>): nat
    decreases steps
  {
    if steps == [] then 0
    else
      var q := StepOf(p, steps[0]);
      (if q.status.Established? && !p.status.Established? then 1 else 0) + Entries(q, steps[1..])
  }

  /** No step of the run disturbs the clearing of routes. */
  predicate Undisturbed(p: Peer, steps: seq<Step>)
    decreases steps
  {
    steps == [] || (!Disturbs(p, steps[0]) && Undisturbed(StepOf(p, steps[0]), steps[1..]))
  }

  /** The invariant holds at the start and after every step. */
  predicate Throughout(p: Peer, steps: seq<Step>)
    decreases steps
  {
    Inv(p) && (steps == [] || Throughout(StepOf(p, steps[0]), steps[1..]))
  }

  /** The invariant holds throughout a run exactly when the run does not disturb the clearing of routes. */
  lemma {:induction false} RunKeeps(p: Peer, steps: seq<Step>)
    requires Inv(p)
    ensures Throughout(p, steps) <==> Undisturbed(p, steps)
    ensures Undisturbed(p, steps) ==> Inv(Run(p, steps))
    decreases steps
  {
    hide StepOf;
    hide Inv;
    hide Disturbs;
    if steps != [] {
      var q := StepOf(p, steps[0]);
      StepKeeps(p, steps[0]);
      if Inv(q) {
        RunKeeps(q, steps[1..]);
      }
    }
  }

  lemma RemoveCounts(p: Peer, env: Env)
    ensures Removed(p, env).established == p.established && Removed(p, env).status.Deleted?
  {
    hide Outstanding;
  }

  lemma NotifyCounts(p: Peer, env: Env)
    ensures var (q, proceed) := StoppedWithNotify(p, env);
            q.established == p.established && (!proceed ==> q.status.Deleted?)
  {
    hide Removed;
    hide Outstanding;
    NotifyKeeps(p, env.badSocket);
    RemoveCounts(Notified(p, env.badSocket), env);
  }

  /** Only bgp_establish counts a session, and a handler that does not proceed leaves the state or deletes the peer. */
  lemma HandledCounts(p: Peer, h: Handler, env: Env)
    ensures var (q, proceed) := Handled(p, h, env);
            && q.established == p.established + (if h.Establish? then 1 else 0)
            && (!proceed ==> if h in {HoldtimeExpire, EventError} then q.status.Deleted?
                             else h in {Start, ConnectSuccess} && q.status == p.status)
  {
    hide Started;
    hide Stopped;
    hide StoppedWithNotify;
    hide Outstanding;
    match h {
      case Start => StartKeeps(p, env);
      case Stop | ConnectFail | ClearingDone => StopKeeps(p);
      case Reconnect =>
        StopKeeps(p);
        StartKeeps(Stopped(p), env);
      case StopWithError => StopKeeps(p.(startInterval := Doubled(p.startInterval)));
      case HoldtimeExpire | EventError => NotifyCounts(p, env);
      case _ =>
    }
  }

  /** bgp_event goes where the table says, unless its handler does not let it proceed. */
  lemma EventStatus(p: Peer, e: Event, env: Env)
    ensures var (h, next) := Table(p.status, e);
            var q := EventStep(p, e, env);
            && q.established == p.established + (if h.Establish? then 1 else 0)
            && (Handled(p, h, env).1 ==> q.status == next)
            && (!Handled(p, h, env).1 ==> if h in {HoldtimeExpire, EventError} then q.status.Deleted?
                                          else h in {Start, ConnectSuccess} && q.status == p.status)
  {
    hide Handled;
    hide Table;
    var (h, _) := Table(p.status, e);
    HandledCounts(p, h, env);
  }

  /** bgp_event counts a session exactly when it enters Established. */
  lemma EventCounts(p: Peer, e: Event, env: Env)
    ensures var q := EventStep(p, e, env);
            q.established == p.established + if q.status.Established? && !p.status.Established? then 1 else 0
  {
    hide EventStep;
    hide Handled;
    EventStatus(p, e, env);
  }

  lemma StepCounts(p: Peer, s: Step)
    ensures var q := StepOf(p, s);
            q.established == p.established + if q.status.Established? && !p.status.Established? then 1 else 0
  {
    hide EventStep;
    hide Removed;
    hide CompletionsIn;
    match s {
      case Dispatch(env) =>
        if p.queue != [] {
          EventCounts(p.(queue := p.queue[1..]), p.queue[0], env);
        }
      case StartTimer(env) => EventCounts(p.(timers := p.timers.(start := false)), BgpStart, env);
      case ConnectTimer(env) => EventCounts(p.(timers := p.timers.(connect := false)), ConnectRetry, env);
      case HoldTimer(env) => EventCounts(p.(timers := p.timers.(holdtime := false)), HoldExpired, env);
      case KeepaliveTimer(env) => EventCounts(p.(timers := p.timers.(keepalive := false)), KeepaliveExpired, env);
      case Delete(env) => RemoveCounts(p, env);
      case _ =>
    }
  }

  /** Over every run, disturbed or not, `established` counts how often the session came up. */
  lemma {:induction false} RunCounts(p: Peer, steps: seq<Step>)
    ensures Run(p, steps).established == p.established + Entries(p, steps)
    decreases steps
  {
    hide StepOf;
    if steps != [] {
      StepCounts(p, steps[0]);
      RunCounts(StepOf(p, steps[0]), steps[1..]);
    }
  }

  // ----- A peer does leave Clearing

  /** Events queued ahead of the completion. */
  function AheadOfCompletion(q: seq<Event>): nat {
    if q == [] || q[0].ClearingCompleted? then 0 else 1 + AheadOfCompletion(q[1..])
  }

  function Dispatches(envs: seq<Env>): (steps: seq<Step>)
    ensures |steps| == |envs|
  {
    if envs == [] then [] else [Dispatch(envs[0])] + Dispatches(envs[1..])
  }

  lemma ClearingDispatch(p: Peer, env: Env)
    requires Inv(p) && p.status.Clearing? && !p.clearWork && p.queue != []
    ensures var q := StepOf(p, Dispatch(env));
            if p.queue[0].ClearingCompleted? then q.status.Idle? && q.queue == []
            else q.status.Clearing? && q.queue == p.queue[1..] && !q.clearWork
  {
  }

  /** Once the work is done, the peer is Idle as soon as the events ahead of the completion are dispatched. */
  lemma {:induction false} ClearingEnds(p: Peer, envs: seq<Env>)
    requires Inv(p) && p.status.Clearing? && !p.clearWork
    requires |envs| == AheadOfCompletion(p.queue) + 1
    ensures Run(p, Dispatches(envs)).status.Idle?
    decreases envs
  {
    hide StepOf;
    var q := StepOf(p, Dispatch(envs[0]));
    assert p.queue != [];
    ClearingDispatch(p, envs[0]);
    StepKeeps(p, Dispatch(envs[0]));
    assert Dispatches(envs)[1..] == Dispatches(envs[1..]);
    if p.queue[0].ClearingCompleted? {
      assert Dispatches(envs[1..]) == [];
    } else {
      ClearingEnds(q, envs[1..]);
    }
  }

  /**
   Whatever happens to a new peer, as long as the clearing of routes is not disturbed: one completion is awaited in
   Clearing and none elsewhere, both counters are right, and the timers are in their states.
   */
  lemma EveryRun(p: Peer, steps: seq<Step>)
    requires New(p) && Undisturbed(p, steps)
    ensures var q := Run(p, steps);
            && (q.status.Clearing? ==> Outstanding(q) == 1)
            && (q.status !in {Clearing, Deleted} ==> Outstanding(q) == 0)
            && (q.status.Established? <==> q.established == q.dropped + 1)
            && (!q.status.Established? <==> q.established == q.dropped)
            && q.established == Entries(p, steps)
            && TimersRight(q)
            && INIT_START <= q.startInterval <= MAX_START
  {
    RunKeeps(p, steps);
    RunCounts(p, steps);
    hide Run;
    hide Entries;
  }

  // ----- How far the handshake has got

  /** The event that a step executes, if any. */
  function Executed(p: Peer, s: Step): Option<Event> {
    match s
    case Dispatch(_) => if p.queue == [] then None else Some(p.queue[0])
    case StartTimer(_) => if p.timers.start then Some(BgpStart) else None
    case ConnectTimer(_) => if p.timers.connect then Some(ConnectRetry) else None
    case HoldTimer(_) => if p.timers.holdtime then Some(HoldExpired) else None
    case KeepaliveTimer(_) => if p.timers.keepalive then Some(KeepaliveExpired) else None
    case _ => None
  }

  /** What a state says about the handshake: connected, OPEN received, KEEPALIVE received. */
  function Stage(s: Status): nat {
    match s
    case OpenSent => 1
    case OpenConfirm => 2
    case Established => 3
    case _ => 0
  }

  /** What really happened: the messages executed in order since the session was last down. */
  function Progress(k: nat, p: Peer, s: Step): nat {
    var q := StepOf(p, s);
    if q.status in {Idle, Connect, Active, Clearing, Deleted} then 0
    else if s.TakeOver? && q.status.OpenSent? then 1
    else
      match Executed(p, s)
      case Some(TcpOpen) => if k == 0 then 1 else k
      case Some(ReceiveOpen) => if k == 1 then 2 else k
      case Some(ReceiveKeepalive) => if k == 2 then 3 else k
      case _ => k
  }

  function ProgressOf(k: nat, p: Peer, steps: seq<Step>): nat
    decreases steps
  {
    if steps == [] then k else ProgressOf(Progress(k, p, steps[0]), StepOf(p, steps[0]), steps[1..])
  }

  /** The table moves on by exactly one stage, and only on the message due. */
  lemma TableStages(s: Status, e: Event)
    ensures var (h, next) := Table(s, e);
            match Stage(next)
            case 1 => (next == s && e.BgpStart?) || (Stage(s) == 0 && e.TcpOpen? && h.ConnectSuccess?)
            case 2 => (next == s && (e.BgpStart? || e.KeepaliveExpired?))
                      || (Stage(s) == 1 && e.ReceiveOpen? && h.FsmOpen?)
            case 3 => (next == s && !e.ClearingCompleted?) || (Stage(s) == 2 && e.ReceiveKeepalive? && h.Establish?)
            case _ => true
    ensures s.OpenSent? && e.ReceiveOpen? ==> Table(s, e) == (FsmOpen, OpenConfirm)
    ensures s.OpenConfirm? && e.ReceiveKeepalive? ==> Table(s, e) == (Establish, Established)
  {
  }

  lemma EventStage(p: Peer, e: Event, env: Env)
    ensures var k, q := Stage(p.status), EventStep(p, e, env).status;
            Stage(q) == if q in {Idle, Connect, Active, Clearing, Deleted} then 0
                        else if e.TcpOpen? && k == 0 then 1
                        else if e.ReceiveOpen? && k == 1 then 2
                        else if e.ReceiveKeepalive? && k == 2 then 3 else k
  {
    TableStages(p.status, e);
    EventStatus(p, e, env);
    TableShape(p.status, e);
    hide Table;
    hide EventStep;
    hide Handled;
  }

  lemma StepStage(p: Peer, s: Step)
    ensures Progress(Stage(p.status), p, s) == Stage(StepOf(p, s).status)
  {
    hide EventStep;
    hide CompletionsIn;
    match s {
      case Dispatch(env) =>
        if p.queue != [] {
          EventStage(p.(queue := p.queue[1..]), p.queue[0], env);
        }
      case StartTimer(env) => EventStage(p.(timers := p.timers.(start := false)), BgpStart, env);
      case ConnectTimer(env) => EventStage(p.(timers := p.timers.(connect := false)), ConnectRetry, env);
      case HoldTimer(env) => EventStage(p.(timers := p.timers.(holdtime := false)), HoldExpired, env);
      case KeepaliveTimer(env) => EventStage(p.(timers := p.timers.(keepalive := false)), KeepaliveExpired, env);
      case _ =>
    }
  }

  /**
   Over every run, the state tells how far the handshake has got since the session was last down: in OpenSent
   a connection was opened or taken over, in OpenConfirm then an OPEN was received, in Established then a KEEPALIVE.
   */
  lemma {:induction false} HandshakeInOrder(p: Peer, steps: seq<Step>)
    ensures ProgressOf(Stage(p.status), p, steps) == Stage(Run(p, steps).status)
    decreases steps
  {
    hide StepOf;
    hide Progress;
    if steps != [] {
      StepStage(p, steps[0]);
      HandshakeInOrder(StepOf(p, steps[0]), steps[1..]);
    }
  }

  // ----- What disturbing the clearing of routes leads to

  lemma RunAt(p: Peer, steps: seq<Step>, k: nat)
    requires k < |steps|
    ensures Run(p, steps[k..]) == Run(StepOf(p, steps[k]), steps[k + 1..])
  {
    assert steps[k..][1..] == steps[k + 1..];
  }

  lemma {:induction false} RunAppend(p: Peer, a: seq<Step>, b: seq<Step>)
    ensures Run(p, a + b) == Run(Run(p, a), b)
    decreases a
  {
    hide StepOf;
    if a == [] {
      assert a + b == b;
    } else {
      assert (a + b)[1..] == a[1..] + b;
      RunAppend(StepOf(p, a[0]), a[1..], b);
    }
  }

  /** A plain configuration: connections succeed, and the session has routes to clear. */
  const PLAIN := Env(false, false, false, false, false, 180, Succeeded, false, true)

  const SHAKE := [Arrive(ReceiveOpen), Dispatch(PLAIN), Arrive(ReceiveKeepalive), Dispatch(PLAIN)]
  const COME_UP := [Refresh(PLAIN), StartTimer(PLAIN), Dispatch(PLAIN)]
  const LOSE := [Arrive(BgpStop), Dispatch(PLAIN)]
  const FINISH := [ClearDone, Dispatch(PLAIN)]

  lemma Received(p: Peer, steps: seq<Step>, k: nat, e: Event)
    requires k + 1 < |steps| && steps[k] == Arrive(e) && steps[k + 1] == Dispatch(PLAIN)
    requires p.queue == [] && !p.status.Deleted? && !e.ClearingCompleted?
    ensures Run(p, steps[k..]) == Run(EventStep(p, e, PLAIN), steps[k + 2..])
  {
    hide EventStep;
    RunAt(p, steps, k);
    var q := StepOf(p, steps[k]);
    RunAt(q, steps, k + 1);
    assert q.queue == [e] && q.queue[1..] == [];
    assert q.(queue := []) == p;
  }

  lemma RunNothing(p: Peer)
    ensures Run(p, []) == p
  {
  }

  lemma OpenReceived(p: Peer)
    requires p.status.OpenSent?
    ensures var q := EventStep(p, ReceiveOpen, PLAIN); q == p.(status := OpenConfirm, timers := q.timers)
  {
  }

  lemma KeepaliveReceived(p: Peer)
    requires p.status.OpenConfirm?
    ensures var q := EventStep(p, ReceiveKeepalive, PLAIN);
            && q.status.Established? && q.queue == p.queue && q.clearWork == p.clearWork
            && q.established == p.established + 1 && q.dropped == p.dropped
  {
  }

  lemma Shake(p: Peer)
    requires p.status.OpenSent? && p.queue == []
    ensures var q := Run(p, SHAKE);
            && q.status.Established? && q.queue == [] && q.clearWork == p.clearWork
            && q.established == p.established + 1 && q.dropped == p.dropped
  {
    hide Run;
    hide EventStep;
    Received(p, SHAKE, 0, ReceiveOpen);
    OpenReceived(p);
    var p2 := EventStep(p, ReceiveOpen, PLAIN);
    KeepaliveReceived(p2);
    Received(p2, SHAKE, 2, ReceiveKeepalive);
    assert SHAKE[0..] == SHAKE && SHAKE[4..] == [];
    RunNothing(EventStep(p2, ReceiveKeepalive, PLAIN));
  }

  lemma ComeUp(p: Peer)
    requires p.status.Idle? && p.queue == []
    ensures var q := Run(p, COME_UP);
            q == p.(status := OpenSent, timers := q.timers)
  {
    RunAt(p, COME_UP, 0);
    var p1 := StepOf(p, COME_UP[0]);
    RunAt(p1, COME_UP, 1);
    var p2 := StepOf(p1, COME_UP[1]);
    assert p2.status.Connect? && p2.queue == [TcpOpen];
    RunAt(p2, COME_UP, 2);
    assert COME_UP[0..] == COME_UP && COME_UP[3..] == [];
  }

  lemma Lose(p: Peer)
    requires p.status.Established? && p.queue == [] && !p.clearWork
    ensures Run(p, LOSE) == p.(status := Clearing, clearWork := true, dropped := p.dropped + 1, timers := OFF)
  {
    RunAt(p, LOSE, 0);
    RunAt(StepOf(p, LOSE[0]), LOSE, 1);
    assert LOSE[0..] == LOSE && LOSE[2..] == [];
  }

  /** The clearing of something else ends: an established session is dropped unseen. */
  lemma Finish(p: Peer)
    requires p.status.Established? && p.queue == [] && p.clearWork
    ensures Run(p, FINISH) == p.(status := Idle, clearWork := false, timers := OFF.(start := true))
  {
    hide Run;
    RunAt(p, FINISH, 0);
    var q := StepOf(p, FINISH[0]);
    assert q == p.(clearWork := false, queue := [ClearingCompleted]);
    RunAt(q, FINISH, 1);
    assert q.queue[1..] == [];
    assert FINISH[0..] == FINISH && FINISH[2..] == [];
    RunNothing(StepOf(q, FINISH[1]));
  }

  /** From a new peer: a session comes up, is lost, and a connection is taken over while its routes are cleared. */
  const TAKE_OVER_RUN := COME_UP + (SHAKE + (LOSE + ([TakeOver(false, true)] + (SHAKE + FINISH))))

  /** From a new peer: a session comes up, and the routes of one address family are cleared. */
  const CLEAR_RUN := COME_UP + (SHAKE + ([ClearRoutes] + FINISH))

  const FRESH := Peer(Idle, [], false, 0, 0, INIT_START, OFF)

  lemma TakenOver(p: Peer)
    requires p.status.Established? && p.queue == [] && !p.clearWork
    ensures var q := Run(p, LOSE + ([TakeOver(false, true)] + (SHAKE + FINISH)));
            && q.status.Idle? && Outstanding(q) == 0
            && q.established == p.established + 1 && q.dropped == p.dropped + 1
  {
    Lose(p);
    var p1 := Run(p, LOSE);
    var p2 := StepOf(p1, TakeOver(false, true));
    assert p2.status.OpenSent? && p2.queue == [] && p2.clearWork;
    hide StepOf;
    Shake(p2);
    Finish(Run(p2, SHAKE));
    RunAppend(p, LOSE, [TakeOver(false, true)] + (SHAKE + FINISH));
    assert ([TakeOver(false, true)] + (SHAKE + FINISH))[1..] == SHAKE + FINISH;
    RunAppend(p2, SHAKE, FINISH);
  }

  lemma Cleared(p: Peer)
    requires p.status.Established? && p.queue == []
    ensures var q := Run(p, [ClearRoutes] + FINISH);
            && q.status.Idle? && Outstanding(q) == 0
            && q.established == p.established && q.dropped == p.dropped
  {
    var p1 := StepOf(p, ClearRoutes);
    Finish(p1);
    assert ([ClearRoutes] + FINISH)[1..] == FINISH;
  }

  /**
   Both runs end in Idle with a session dropped that was not counted and whose routes nothing will clear.
   */
  lemma SessionLostUnseen()
    ensures New(FRESH)
    ensures forall run | run in {TAKE_OVER_RUN, CLEAR_RUN} ::
              var q := Run(FRESH, run);
              q.status.Idle? && q.established == q.dropped + 1 && Outstanding(q) == 0
  {
    hide StepOf;
    ComeUp(FRESH);
    var p1 := Run(FRESH, COME_UP);
    Shake(p1);
    var p2 := Run(p1, SHAKE);
    RunAppend(FRESH, COME_UP, SHAKE + (LOSE + ([TakeOver(false, true)] + (SHAKE + FINISH))));
    RunAppend(p1, SHAKE, LOSE + ([TakeOver(false, true)] + (SHAKE + FINISH)));
    RunAppend(FRESH, COME_UP, SHAKE + ([ClearRoutes] + FINISH));
    RunAppend(p1, SHAKE, [ClearRoutes] + FINISH);
    TakenOver(p2);
    Cleared(p2);
  }

  // ----- When a peer moves on by itself

  predicate Internal(s: Step, env: Env) {
    s in {Dispatch(env), StartTimer(env), ConnectTimer(env), HoldTimer(env), KeepaliveTimer(env)} ||
    s in {RouteadvTimer, ClearDone}
  }

  /** Steps that nobody outside has to bring about, in an unchanging environment. */
  predicate ByItself(steps: seq<Step>, env: Env) {
    forall i | 0 <= i < |steps| :: Internal(steps[i], env)
  }

  /** bgp_start lets bgp_event proceed. */
  predicate StartWorks(env: Env) {
    !env.suppressed && (env.passive || !env.connection.InProgress? || !env.badSocket)
  }

  /** bgp_start in Connect queues an event that leads out of it. */
  predicate RetryWorks(env: Env) {
    !env.suppressed && (env.passive || env.connection.Failed? || (env.connection.Succeeded? && !env.badSocket))
  }

  /** The timers that bgp_timer_set starts lead out of the state. */
  predicate Arms(s: Status, env: Env) {
    match s
    case Idle => StartWorks(env) && !env.inactive
    case Connect => RetryWorks(env)
    case Active => StartWorks(env) && !env.passive && !env.nsfWait
    case OpenSent | OpenConfirm | Established => env.holdtime != 0
    case _ => false
  }

  /** The timers that are running lead out of the state. */
  predicate Ticking(p: Peer, env: Env) {
    match p.status
    case Idle => p.timers.start && StartWorks(env)
    case Connect => p.timers.connect && RetryWorks(env)
    case Active => p.timers.connect && StartWorks(env)
    case OpenSent | OpenConfirm | Established => p.timers.holdtime || (p.timers.keepalive && env.holdtime != 0)
    case _ => false
  }

  /** What an event does in a state: leave it, start the timers anew, do so and flush the queue, or nothing. */
  datatype Effect = Leaves | Rearms | Flushes | Nothing

  function EffectOf(s: Status, e: Event, env: Env): Effect {
    match s
    case Idle =>
      (match e
       case BgpStart => if StartWorks(env) then Leaves else Nothing
       case BgpStop | TcpOpen | TcpClosed | TcpFatal => Flushes
       case _ => Rearms)
    case Connect =>
      (match e
       case BgpStart => Rearms
       case TcpOpen => if env.badSocket then Nothing else Leaves
       case ConnectRetry => Flushes
       case _ => Leaves)
    case Active =>
      (match e
       case BgpStart | TcpOpenFailed => Rearms
       case TcpOpen => if env.badSocket then Nothing else Leaves
       case ConnectRetry => if StartWorks(env) then Leaves else Nothing
       case _ => Leaves)
    case OpenSent => if e.BgpStart? then Rearms else Leaves
    case OpenConfirm => if e in {BgpStart, KeepaliveExpired} then Rearms else Leaves
    case Established => if e in {BgpStart, KeepaliveExpired, ReceiveKeepalive, ReceiveUpdate} then Rearms else Leaves
    case _ => Rearms
  }

  /** The queued events lead out of the state, or start timers that do. */
  predicate Stirring(s: Status, q: seq<Event>, env: Env) {
    q != [] &&
    match EffectOf(s, q[0], env)
    case Leaves => true
    case Rearms => Arms(s, env) || Stirring(s, q[1..], env)
    case Flushes => Arms(s, env)
    case Nothing => Stirring(s, q[1..], env)
  }

  /** What it takes to move on. */
  predicate Awake(p: Peer, env: Env) {
    p.status.Clearing? || (!p.status.Deleted? && (Ticking(p, env) || Stirring(p.status, p.queue, env)))
  }

  /** A peer that is neither clearing its routes nor gone. */
  predicate Open(p: Peer) {
    Inv(p) && p.status !in {Clearing, Deleted}
  }

  lemma LeavesRight(p: Peer, e: Event, env: Env)
    requires p.status !in {Clearing, Deleted} && !e.ClearingCompleted? && EffectOf(p.status, e, env).Leaves?
    ensures EventStep(p, e, env).status != p.status
  {
    hide EventStep;
    hide CompletionsIn;
    EventStatus(p, e, env);
  }

  lemma StirringNothing(s: Status, env: Env)
    ensures !Stirring(s, [], env)
  {
  }

  lemma StirringOne(s: Status, e: Event, env: Env)
    ensures Stirring(s, [e], env) ==> EffectOf(s, e, env).Leaves? || Arms(s, env)
  {
    var q := [e];
    assert q[1..] == [];
    StirringNothing(s, env);
    assert q[0] == e;
  }

  lemma StaysRight(p: Peer, e: Event, env: Env)
    requires p.status !in {Clearing, Deleted} && !e.ClearingCompleted? && !EffectOf(p.status, e, env).Leaves?
    ensures var q := EventStep(p, e, env);
            && q.status == p.status
            && match EffectOf(p.status, e, env)
               case Leaves => false
               case Rearms => q.queue == p.queue && q.timers == TimersSet(p, env).timers
               case Flushes =>
                 && q.timers == TimersSet(p, env).timers
                 && (Stirring(q.status, q.queue, env) ==> Arms(p.status, env))
               case Nothing => q == p
  {
    hide CompletionsIn;
    hide Stirring;
    StirringOne(p.status, TcpOpen, env);
    StirringOne(p.status, TcpOpenFailed, env);
    assert !Stirring(p.status, [], env) by { StirringNothing(p.status, env); }
    var none: seq<Event> := [];
    assert none + [TcpOpen] == [TcpOpen] && none + [TcpOpenFailed] == [TcpOpenFailed];
  }

  lemma ArmsTick(p: Peer, env: Env)
    requires Arms(p.status, env)
    ensures Ticking(TimersSet(p, env), env)
  {
  }

  lemma SetTicks(p: Peer, env: Env)
    requires p.status !in {Clearing, Deleted} && Ticking(TimersSet(p, env), env)
    ensures Arms(p.status, env)
  {
  }

  lemma SameTicks(p: Peer, q: Peer, env: Env)
    requires p.status == q.status && p.timers == q.timers
    ensures Ticking(p, env) == Ticking(q, env)
  {
  }

  /** An internal step does not wake a peer. */
  lemma EventWakesNot(p: Peer, e: Event, env: Env)
    requires p.status !in {Clearing, Deleted} && !e.ClearingCompleted?
    requires EventStep(p, e, env).status == p.status && Awake(EventStep(p, e, env), env)
    ensures match EffectOf(p.status, e, env)
            case Leaves => false
            case Rearms => Arms(p.status, env) || Stirring(p.status, p.queue, env)
            case Flushes => Arms(p.status, env)
            case Nothing => Awake(p, env)
  {
    if EffectOf(p.status, e, env).Leaves? {
      LeavesRight(p, e, env);
    } else {
      StaysRight(p, e, env);
      hide EventStep;
      hide EffectOf;
      hide Stirring;
      hide Arms;
      var q := EventStep(p, e, env);
      if !EffectOf(p.status, e, env).Nothing? && Ticking(q, env) {
        SameTicks(q, TimersSet(p, env), env);
        SetTicks(p, env);
      }
    }
  }

  lemma StirringHead(p: Peer, env: Env)
    requires p.queue != []
    ensures Stirring(p.status, p.queue, env) <==>
            match EffectOf(p.status, p.queue[0], env)
            case Leaves => true
            case Rearms => Arms(p.status, env) || Stirring(p.status, p.queue[1..], env)
            case Flushes => Arms(p.status, env)
            case Nothing => Stirring(p.status, p.queue[1..], env)
  {
  }

  /** The events of timers, in the states where they run. */
  lemma TimerEffects(p: Peer, env: Env)
    requires TimersRight(p)
    ensures p.timers.start ==> EffectOf(p.status, BgpStart, env) == if StartWorks(env) then Leaves else Nothing
    ensures p.timers.connect ==>
              EffectOf(p.status, ConnectRetry, env) ==
              if p.status.Connect? then Flushes else if StartWorks(env) then Leaves else Nothing
    ensures p.timers.holdtime ==> EffectOf(p.status, HoldExpired, env).Leaves?
    ensures p.timers.keepalive ==> EffectOf(p.status, KeepaliveExpired, env).Rearms?
    ensures (p.timers.start || p.timers.connect || p.timers.keepalive) && Arms(p.status, env) ==> Ticking(p, env)
  {
  }

  /** A step that a peer takes by itself, without leaving its state, does not wake it. */
  lemma SleepsOn(p: Peer, s: Step, env: Env)
    requires Inv(p) && Internal(s, env) && StepOf(p, s).status == p.status && Awake(StepOf(p, s), env)
    ensures Awake(p, env)
  {
    hide EventStep;
    hide Stirring;
    hide Arms;
    hide EffectOf;
    if !p.status.Clearing? {
      var t := p.timers;
      match s {
        case Dispatch(_) =>
          if p.queue != [] {
            var q := p.(queue := p.queue[1..]);
            PopReady(p);
            EventWakesNot(q, p.queue[0], env);
            StirringHead(p, env);
          }
        case StartTimer(_) =>
          if t.start {
            EventWakesNot(p.(timers := t.(start := false)), BgpStart, env);
            TimerEffects(p, env);
          }
        case ConnectTimer(_) =>
          if t.connect {
            EventWakesNot(p.(timers := t.(connect := false)), ConnectRetry, env);
            TimerEffects(p, env);
          }
        case HoldTimer(_) =>
          if t.holdtime {
            EventWakesNot(p.(timers := t.(holdtime := false)), HoldExpired, env);
            TimerEffects(p, env);
          }
        case KeepaliveTimer(_) =>
          if t.keepalive {
            EventWakesNot(p.(timers := t.(keepalive := false)), KeepaliveExpired, env);
            TimerEffects(p, env);
          }
        case RouteadvTimer =>
        case ClearDone =>
      }
    }
  }

  lemma StaysAsleep(p: Peer, s: Step, env: Env)
    requires Inv(p) && !Awake(p, env) && Internal(s, env)
    ensures StepOf(p, s).status == p.status
  {
    hide EventStep;
    hide Stirring;
    hide Arms;
    hide EffectOf;
    if p.status.Deleted? {
      DeletedStays(p, s);
    } else {
      var t := p.timers;
      TimerEffects(p, env);
      match s {
        case Dispatch(_) =>
          if p.queue != [] {
            PopReady(p);
            StirringHead(p, env);
            StaysRight(p.(queue := p.queue[1..]), p.queue[0], env);
          }
        case StartTimer(_) =>
          if t.start {
            StaysRight(p.(timers := t.(start := false)), BgpStart, env);
          }
        case ConnectTimer(_) =>
          if t.connect {
            StaysRight(p.(timers := t.(connect := false)), ConnectRetry, env);
          }
        case HoldTimer(_) =>
        case KeepaliveTimer(_) =>
          if t.keepalive {
            StaysRight(p.(timers := t.(keepalive := false)), KeepaliveExpired, env);
          }
        case RouteadvTimer =>
        case ClearDone =>
      }
    }
  }

  lemma SleepsThrough(p: Peer, s: Step, env: Env)
    requires Inv(p) && !Awake(p, env) && Internal(s, env)
    ensures StepOf(p, s).status == p.status && !Awake(StepOf(p, s), env)
  {
    StaysAsleep(p, s, env);
    if Awake(StepOf(p, s), env) {
      SleepsOn(p, s, env);
    }
  }

  /** Nothing that a sleeping peer does by itself leads out of its state. */
  lemma {:induction false} SleepsForever(p: Peer, steps: seq<Step>, env: Env)
    requires Inv(p) && !Awake(p, env) && ByItself(steps, env)
    ensures Run(p, steps).status == p.status
    decreases steps
  {
    hide StepOf;
    hide Awake;
    hide Inv;
    if steps != [] {
      var q := StepOf(p, steps[0]);
      assert Internal(steps[0], env);
      StepKeeps(p, steps[0]);
      SleepsThrough(p, steps[0], env);
      assert ByItself(steps[1..], env);
      SleepsForever(q, steps[1..], env);
    }
  }

  lemma RunOne(p: Peer, s: Step, rest: seq<Step>)
    ensures Run(p, [s] + rest) == Run(StepOf(p, s), rest)
  {
    assert ([s] + rest)[1..] == rest;
  }

  lemma RunTwo(p: Peer, s: Step, t: Step)
    ensures Run(p, [s, t]) == StepOf(StepOf(p, s), t)
  {
    hide StepOf;
    RunOne(p, s, [t]);
    RunOne(StepOf(p, s), t, []);
    assert [s] + [t] == [s, t] && [t] + [] == [t];
  }

  lemma RetryMoves(p: Peer, env: Env)
    requires p.status.Connect? && p.timers.connect && RetryWorks(env)
    ensures Run(p, [ConnectTimer(env), Dispatch(env)]).status != p.status
  {
    hide Run;
    hide CompletionsIn;
    RunTwo(p, ConnectTimer(env), Dispatch(env));
    var q := StepOf(p, ConnectTimer(env));
    var none: seq<Event> := [];
    var e := if env.passive || env.connection.Failed? then TcpOpenFailed else TcpOpen;
    assert none + [e] == [e];
    assert q.status.Connect? && q.queue == [e];
    hide EventStep;
    LeavesRight(q.(queue := q.queue[1..]), e, env);
  }

  lemma KeepaliveMoves(p: Peer, env: Env)
    requires p.status in {OpenConfirm, Established} && p.timers.keepalive && env.holdtime != 0
    ensures Run(p, [KeepaliveTimer(env), HoldTimer(env)]).status != p.status
  {
    hide Run;
    hide EventStep;
    hide Stirring;
    RunTwo(p, KeepaliveTimer(env), HoldTimer(env));
    var q := StepOf(p, KeepaliveTimer(env));
    StaysRight(p.(timers := p.timers.(keepalive := false)), KeepaliveExpired, env);
    LeavesRight(q.(timers := q.timers.(holdtime := false)), HoldExpired, env);
  }

  /** Timers that lead out of the state do so in one or two steps. */
  lemma TickingMoves(p: Peer, env: Env) returns (steps: seq<Step>)
    requires Open(p) && Ticking(p, env)
    ensures ByItself(steps, env) && Run(p, steps).status != p.status
  {
    hide EventStep;
    hide Stirring;
    TimerEffects(p, env);
    var t := p.timers;
    match p.status {
      case Idle =>
        steps := [StartTimer(env)];
        LeavesRight(p.(timers := t.(start := false)), BgpStart, env);
      case Connect =>
        steps := [ConnectTimer(env), Dispatch(env)];
        RetryMoves(p, env);
      case Active =>
        steps := [ConnectTimer(env)];
        LeavesRight(p.(timers := t.(connect := false)), ConnectRetry, env);
      case _ =>
        if t.holdtime {
          steps := [HoldTimer(env)];
          LeavesRight(p.(timers := t.(holdtime := false)), HoldExpired, env);
        } else {
          steps := [KeepaliveTimer(env), HoldTimer(env)];
          KeepaliveMoves(p, env);
        }
    }
    assert |steps| == 1 ==> steps[1..] == [];
  }

  lemma ByItselfMore(s: Step, rest: seq<Step>, env: Env)
    requires Internal(s, env) && ByItself(rest, env)
    ensures ByItself([s] + rest, env)
  {
  }

  lemma OpenQueue(p: Peer)
    requires Open(p) && p.queue != []
    ensures !p.queue[0].ClearingCompleted?
  {
  }

  /** Events that lead out of the state, or start timers that do, are dispatched one by one. */
  lemma {:induction false} StirringMoves(p: Peer, env: Env) returns (steps: seq<Step>)
    requires Open(p) && Stirring(p.status, p.queue, env)
    ensures ByItself(steps, env) && Run(p, steps).status != p.status
    decreases |p.queue|
  {
    hide EventStep;
    hide Inv;
    hide EffectOf;
    hide Ticking;
    hide Arms;
    StirringHead(p, env);
    hide Stirring;
    PopReady(p);
    assert !p.queue[0].ClearingCompleted? by { OpenQueue(p); }
    var popped, e := p.(queue := p.queue[1..]), p.queue[0];
    var q := StepOf(p, Dispatch(env));
    var rest: seq<Step> := [];
    if EffectOf(p.status, e, env).Leaves? {
      LeavesRight(popped, e, env);
    } else {
      StaysRight(popped, e, env);
      StepKeeps(p, Dispatch(env));
      if !EffectOf(p.status, e, env).Nothing? && Arms(p.status, env) {
        ArmsTick(popped, env);
        SameTicks(q, TimersSet(popped, env), env);
        rest := TickingMoves(q, env);
      } else {
        rest := StirringMoves(q, env);
      }
    }
    steps := [Dispatch(env)] + rest;
    ByItselfMore(Dispatch(env), rest, env);
    RunOne(p, Dispatch(env), rest);
  }

  lemma {:induction false} DispatchesByItself(envs: seq<Env>, env: Env)
    requires forall i | 0 <= i < |envs| :: envs[i] == env
    ensures ByItself(Dispatches(envs), env)
  {
    if envs != [] {
      DispatchesByItself(envs[1..], env);
      ByItselfMore(Dispatch(envs[0]), Dispatches(envs[1..]), env);
    }
  }

  /** A peer in Clearing finishes the work and dispatches what is queued. */
  lemma ClearingMoves(p: Peer, env: Env) returns (steps: seq<Step>)
    requires Inv(p) && p.status.Clearing?
    ensures ByItself(steps, env) && Run(p, steps).status != p.status
  {
    var q := StepOf(p, ClearDone);
    StepKeeps(p, ClearDone);
    assert q.status.Clearing? && !q.clearWork;
    hide StepOf;
    hide Inv;
    var envs := seq(AheadOfCompletion(q.queue) + 1, _ => env);
    ClearingEnds(q, envs);
    DispatchesByItself(envs, env);
    steps := [ClearDone] + Dispatches(envs);
    ByItselfMore(ClearDone, Dispatches(envs), env);
    RunOne(p, ClearDone, Dispatches(envs));
  }

  lemma AwakeMoves(p: Peer, env: Env) returns (steps: seq<Step>)
    requires Inv(p) && Awake(p, env)
    ensures ByItself(steps, env) && Run(p, steps).status != p.status
  {
    hide Inv;
    hide Ticking;
    hide Stirring;
    hide ByItself;
    hide Run;
    if p.status.Clearing? {
      steps := ClearingMoves(p, env);
    } else if Ticking(p, env) {
      steps := TickingMoves(p, env);
    } else {
      steps := StirringMoves(p, env);
    }
  }

  /**
   A peer after any undisturbed run leaves its state by itself, with no help from outside and in an environment
   that stays as it is, exactly when it is awake. So it is stranded just where nothing is running or queued, or what
   is cannot work in this environment.
   */
  lemma NeverStranded(p: Peer, before: seq<Step>, env: Env)
    requires New(p) && Undisturbed(p, before)
    ensures var q := Run(p, before);
            (exists steps :: ByItself(steps, env) && Run(q, steps).status != q.status) <==> Awake(q, env)
  {
    RunKeeps(p, before);
    var q := Run(p, before);
    hide Run;
    hide Inv;
    hide Awake;
    hide ByItself;
    if Awake(q, env) {
      var steps := AwakeMoves(q, env);
    } else {
      forall steps | ByItself(steps, env) ensures Run(q, steps).status == q.status {
        SleepsForever(q, steps, env);
      }
    }
  }

  /** A start that is refused leaves the peer asleep for good, whatever the environment, until its timers are set. */
  lemma RefusedStart(p: Peer, env: Env, later: Env)
    requires Open(p) && p.queue == [] && !StartWorks(env)
    requires p.timers.start || (p.timers.connect && p.status.Active?)
    ensures var q := StepOf(p, if p.status.Idle? then StartTimer(env) else ConnectTimer(env));
            && q.status == p.status && !Awake(q, later)
            && (Awake(StepOf(q, Refresh(later)), later) <==> Arms(p.status, later))
  {
  }

  // ----- The handlers in place

  class Session {
    var status: Status
    var queue: seq<Event>
    var clearWork: bool
    var established: nat
    var dropped: nat
    var startInterval: nat
    var timers: Timers

    ghost function View(): Peer
      reads this
    {
      Peer(status, queue, clearWork, established, dropped, startInterval, timers)
    }

    constructor (accepted: bool)
      ensures New(View()) && status == if accepted then Active else Idle
    {
      status := if accepted then Active else Idle;
      queue, clearWork, established, dropped, startInterval, timers := [], false, 0, 0, INIT_START, OFF;
    }

    method AddEvent(e: Event)
      modifies this
      ensures View() == Add(old(View()), e)
    {
      if status != Deleted {
        queue := queue + [e];
      }
    }

    /** bgp_timer_set */
    method SetTimers(env: Env)
      modifies this
      ensures View() == TimersSet(old(View()), env)
    {
      var held := env.holdtime != 0;
      match status {
        case Idle => timers := Timers(!env.suppressed && !env.inactive, false, false, false, false);
        case Connect => timers := Timers(false, true, false, false, false);
        case Active => timers := Timers(false, !env.passive && !env.nsfWait, false, false, false);
        case OpenSent => timers := Timers(false, false, held, false, false);
        case OpenConfirm => timers := Timers(false, false, held, held, false);
        case Established => timers := Timers(false, false, held, held, timers.routeadv);
        case Clearing | Deleted => timers := OFF;
      }
    }

    /** bgp_fsm_change_status */
    method ChangeStatus(s: Status, env: Env)
      modifies this
      ensures View() == ChangedTo(old(View()), s, env)
    {
      if s == Clearing || s == Deleted {
        clearWork := clearWork || env.routes;
        if !clearWork {
          AddEvent(ClearingCompleted);
        }
      }
      status := s;
    }

    /** bgp_stop */
    method StopSession()
      modifies this
      ensures View() == Stopped(old(View()))
    {
      if status != Clearing {
        queue := [];
      }
      if status == Established {
        dropped := dropped + 1;
      }
      timers := OFF;
    }

    /** peer_delete */
    method Remove(env: Env)
      modifies this
      ensures View() == Removed(old(View()), env)
    {
      StopSession();
      ChangeStatus(Deleted, env);
      SetTimers(env);
    }

    /** bgp_start */
    method StartSession(env: Env) returns (proceed: bool)
      modifies this
      ensures (View(), proceed) == Started(old(View()), env)
    {
      if env.suppressed {
        return false;
      }
      if env.passive {
        AddEvent(TcpOpenFailed);
        return true;
      }
      match env.connection {
        case Failed => AddEvent(TcpOpenFailed);
        case Succeeded => AddEvent(TcpOpen);
        case InProgress => return !env.badSocket;
      }
      return true;
    }

    /** bgp_write_notify */
    method WriteNotify(badSocket: bool)
      modifies this
      ensures View() == Notified(old(View()), badSocket)
    {
      if badSocket {
        AddEvent(TcpFatal);
      } else {
        startInterval := Doubled(startInterval);
        AddEvent(BgpStop);
      }
    }

    method StopWithNotify(env: Env) returns (proceed: bool)
      modifies this
      ensures (View(), proceed) == StoppedWithNotify(old(View()), env)
    {
      WriteNotify(env.badSocket);
      if env.temporary {
        Remove(env);
        return false;
      }
      startInterval := INIT_START;
      StopSession();
      return true;
    }

    /** The transfer in bgp_open_receive. */
    method TakeOverConnection(nsfMode: bool, collided: bool) returns (taken: bool)
      modifies this
      ensures taken <==> old(TakesOver(status, nsfMode, collided))
      ensures View() == StepOf(old(View()), TakeOver(nsfMode, collided))
    {
      taken := TakesOver(status, nsfMode, collided);
      if taken {
        StopSession();
        status := OpenSent;
      }
    }

    method Handle(h: Handler, env: Env) returns (proceed: bool)
      modifies this
      ensures (View(), proceed) == Handled(old(View()), h, env)
    {
      hide Started;
      hide Stopped;
      hide StoppedWithNotify;
      hide ChangedTo;
      proceed := true;
      match h {
        case Start => proceed := StartSession(env);
        case Stop | ConnectFail => StopSession();
        case Ignore | KeepaliveExpire =>
        case ConnectSuccess => proceed := !env.badSocket;
        case Reconnect =>
          StopSession();
          var _ := StartSession(env);
        case StopWithError =>
          startInterval := Doubled(startInterval);
          StopSession();
        case HoldtimeExpire | EventError => proceed := StopWithNotify(env);
        case FsmOpen | FsmKeepalive | FsmUpdate => timers := timers.(holdtime := false);
        case Establish =>
          startInterval := INIT_START;
          established := established + 1;
          ChangeStatus(Established, env);
          timers := timers.(routeadv := true);
        case ClearingDone =>
          StopSession();
          queue := [];
      }
    }

    /** bgp_event: from a state that satisfies the invariant, to one that does. */
    method HandleEvent(e: Event, env: Env)
      modifies this
      ensures View() == EventStep(old(View()), e, env)
      ensures old(Ready(View(), e)) ==> Inv(View())
    {
      ghost var before := View();
      var (h, next) := Table(status, e);
      var proceed := Handle(h, env);
      if proceed {
        if next != status {
          ChangeStatus(next, env);
        }
        SetTimers(env);
      }
      if Ready(before, e) {
        EventKeeps(before, e, env);
      }
    }
  }
}
