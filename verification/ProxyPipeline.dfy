/**
 The whole proxy as interleaved atomic steps: any number of callers, one worker per signal,
 the counters, the lossy event and tail channels, and the throttled auth warning
 (internal/otlp/proxy_consumer.go, internal/otlp/proxy_workers.go).

 Every step may happen at any time; one that cannot happen in a state changes nothing. So
 a run is any sequence of steps. Time is in seconds.
 */
module ProxyPipeline {
  import opened ProxyStats
  import opened ProxyLane
  import opened Wrappers

  const TAIL_DEPTH := 16
  const EVENT_DEPTH := 128
  const LIFECYCLE_DEPTH := 8
  const AUTH_ERROR_THROTTLE := 30.0

  type Signal = s: nat | s < SIGNAL_COUNT

  type Lanes = s: seq<Lane> | |s| == SIGNAL_COUNT witness [EMPTY, EMPTY, EMPTY]

  datatype Event = Forwarded(sig: Signal, count: nat) | ErrorEvent(kind: ErrorKind, code: int)

  datatype Message = AuthFailed | Announcement(text: string)

  // A warning that reached the lifecycle channel, and the status that caused it.
  datatype Warned = Warned(at: real, status: int)

  /** Which optional channels exist. */
  datatype Config = Config(emits: bool, tails: bool, warns: bool)

  datatype State = State(
    lanes: Lanes, cancelled: bool,
    events: seq<Event>, tail: seq<string>, lifecycle: seq<Message>,
    lastAuthWarn: Option<real>, warned: seq<Warned>)

  const INITIAL := State([EMPTY, EMPTY, EMPTY], false, [], [], [], None, [])

  datatype Action =
    | Observe(sig: Signal, batch: Batch)
    | Offer(sig: Signal, call: nat)
    | Take(sig: Signal)
    | Finish(sig: Signal, outcome: Outcome)
    | Surface(sig: Signal, now: real)
    | Stop(sig: Signal)
    | Cancel
    | ReadEvent
    | ReadTail
    | ReadLifecycle
    | Announce(text: string)

  /** A send that is dropped when the channel is full. */
  function Push<T>(channel: seq<T>, x: T, depth: nat): seq<T> {
    if |channel| < depth then channel + [x] else channel
  }

  function Read<T>(channel: seq<T>): seq<T> {
    if channel == [] then channel else channel[1..]
  }

  // ----- One step -----

  predicate Concerns(a: Action, sig: Signal) {
    (a.Observe? || a.Offer? || a.Take? || a.Finish? || a.Surface? || a.Stop?) && a.sig == sig
  }

  /** What a step does to the lane it concerns. */
  function LaneStep(l: Lane, cancelled: bool, a: Action): Lane {
    match a
    case Observe(_, b) => Observed(l, b)
    case Offer(_, call) => if call < |l.trail.pending| then Offered(l, call) else l
    case Take(_) => if l.worker.Idle? && l.queue != [] then Taken(l) else l
    case Finish(_, outcome) => if l.worker.Sending? then Finished(l, outcome) else l
    case Surface(_, _) => if l.worker.Warning? then l.(worker := Idle) else l
    case Stop(_) => if l.worker.Idle? && cancelled then l.(worker := Stopped) else l
    case _ => l
  }

  /** A warning goes out unless one went out less than the throttle ago or the channel is full. */
  predicate WarningDue(cfg: Config, s: State, now: real) {
    && cfg.warns
    && (s.lastAuthWarn.None? || now - s.lastAuthWarn.value >= AUTH_ERROR_THROTTLE)
    && |s.lifecycle| < LIFECYCLE_DEPTH
  }

  /** What a step does beside the lanes. */
  function SideStep(cfg: Config, s: State, a: Action): State {
    match a
    case Observe(sig, b) =>
      if b.count == 0 then s
      else s.(events := if cfg.emits then Push(s.events, Forwarded(sig, b.count), EVENT_DEPTH) else s.events,
              tail := if cfg.tails && b.rendered != "" then Push(s.tail, b.rendered, TAIL_DEPTH) else s.tail)
    case Finish(sig, outcome) =>
      if s.lanes[sig].worker.Sending? && cfg.emits then
        match outcome
        case Sent => s
        case Failure(e) =>
          var (kind, code) := ClassifyError(e);
          s.(events := Push(s.events, ErrorEvent(kind, code), EVENT_DEPTH))
        case Panicked => s.(events := Push(s.events, ErrorEvent(InternalPanic, 0), EVENT_DEPTH))
      else s
    case Surface(sig, now) =>
      if s.lanes[sig].worker.Warning? && WarningDue(cfg, s, now) then
        s.(lifecycle := s.lifecycle + [AuthFailed], lastAuthWarn := Some(now),
           warned := s.warned + [Warned(now, s.lanes[sig].worker.status)])
      else s
    case Cancel => s.(cancelled := true)
    case ReadEvent => s.(events := Read(s.events))
    case ReadTail => s.(tail := Read(s.tail))
    case ReadLifecycle => s.(lifecycle := Read(s.lifecycle))
    case Announce(text) => s.(lifecycle := Push(s.lifecycle, Announcement(text), LIFECYCLE_DEPTH))
    case _ => s
  }

  function Step(cfg: Config, s: State, a: Action): State {
    var side := SideStep(cfg, s, a);
    if a.Observe? || a.Offer? || a.Take? || a.Finish? || a.Surface? || a.Stop? then
      side.(lanes := s.lanes[a.sig := LaneStep(s.lanes[a.sig], s.cancelled, a)])
    else side
  }

  function Run(cfg: Config, s: State, actions: seq<Action>): State {
    if actions == [] then s else Step(cfg, Run(cfg, s, actions[..|actions| - 1]), actions[|actions| - 1])
  }

  // ----- Conservation and order, in every interleaving -----

  lemma LaneStepOk(l: Lane, cancelled: bool, a: Action)
    requires LaneOk(l)
    ensures LaneOk(LaneStep(l, cancelled, a))
  {
    hide LaneOk, Observed, Offered, Taken, Finished;
    match a
    case Observe(_, b) => ObservedOk(l, b);
    case Offer(_, call) =>
      if call < |l.trail.pending| {
        OfferedOk(l, call);
      }
    case Take(_) =>
      if l.worker.Idle? && l.queue != [] {
        TakenOk(l);
      }
    case Finish(_, outcome) =>
      if l.worker.Sending? {
        FinishedOk(l, outcome);
      }
    case Surface(_, _) => RestingOkIf(l, Idle);
    case Stop(_) => RestingOkIf(l, Stopped);
    case _ =>
  }

  lemma RestingOkIf(l: Lane, w: Worker)
    requires LaneOk(l) && (w.Idle? || w.Stopped?)
    ensures InFlight(l.worker) == [] ==> LaneOk(l.(worker := w))
  {
    hide LaneOk;
    if InFlight(l.worker) == [] {
      RestingOk(l, w);
    }
  }

  lemma {:induction false} AlwaysOk(cfg: Config, actions: seq<Action>, sig: Signal)
    ensures LaneOk(Run(cfg, INITIAL, actions).lanes[sig])
  {
    hide LaneOk, LaneStep, SideStep;
    if actions == [] {
      EmptyOk();
    } else {
      var init, last := actions[..|actions| - 1], actions[|actions| - 1];
      AlwaysOk(cfg, init, sig);
      var before := Run(cfg, INITIAL, init);
      LaneStepOk(before.lanes[sig], before.cancelled, last);
      SideKeepsLanes(cfg, before, last);
    }
  }

  lemma EmptyOk()
    ensures LaneOk(EMPTY)
  {
  }

  lemma SideKeepsLanes(cfg: Config, s: State, a: Action)
    ensures SideStep(cfg, s, a).lanes == s.lanes
    ensures SideStep(cfg, s, a).cancelled == (s.cancelled || a.Cancel?)
  {
  }

  /** The counters, in every interleaving. */
  lemma CountersInEveryRun(cfg: Config, actions: seq<Action>, sig: Signal)
    ensures var l := Run(cfg, INITIAL, actions).lanes[sig];
            && Conserved(l)
            && 0 <= l.failures <= l.forwarded
  {
    hide Run;
    AlwaysOk(cfg, actions, sig);
    CountersMeanIff(Run(cfg, INITIAL, actions).lanes[sig]);
  }

  // ----- A full queue -----

  const ONE := Batch(0, 1, "")

  function Ones(n: nat): seq<Batch> {
    if n == 0 then [] else Ones(n - 1) + [ONE]
  }

  /** n calls with one record each, no worker getting a turn. */
  function Flood(n: nat): seq<Action> {
    if n == 0 then [] else Flood(n - 1) + [Observe(0, ONE)] + [Offer(0, 0)]
  }

  lemma {:induction false} OnesFacts(n: nat)
    ensures |Ones(n)| == n && Records(Ones(n)) == n
  {
    if n > 0 {
      OnesFacts(n - 1);
      RecordsSnoc(Ones(n - 1), ONE);
    }
  }

  lemma RunSnoc(cfg: Config, s: State, actions: seq<Action>, a: Action)
    ensures Run(cfg, s, actions + [a]) == Step(cfg, Run(cfg, s, actions), a)
  {
    assert (actions + [a])[..|actions|] == actions;
  }

  lemma OneCall(cfg: Config, actions: seq<Action>)
    requires Run(cfg, INITIAL, actions).lanes[0].trail.pending == []
    ensures Run(cfg, INITIAL, actions + [Observe(0, ONE)] + [Offer(0, 0)]).lanes[0]
         == Offered(Observed(Run(cfg, INITIAL, actions).lanes[0], ONE), 0)
  {
    hide Run, Observed, Offered, SideStep;
    var before := Run(cfg, INITIAL, actions);
    RunSnoc(cfg, INITIAL, actions, Observe(0, ONE));
    RunSnoc(cfg, INITIAL, actions + [Observe(0, ONE)], Offer(0, 0));
    SideKeepsLanes(cfg, before, Observe(0, ONE));
    SideKeepsLanes(cfg, Step(cfg, before, Observe(0, ONE)), Offer(0, 0));
    ObservedLast(before.lanes[0]);
  }

  lemma ObservedLast(l: Lane)
    requires l.trail.pending == []
    ensures Observed(l, ONE).trail.pending == [ONE]
  {
  }

  lemma {:induction false} FloodFills(cfg: Config, n: nat)
    requires n <= SIGNAL_QUEUE_DEPTH
    ensures Run(cfg, INITIAL, Flood(n)).lanes[0] == Lane(n, 0, Ones(n), Idle, Trail([], Ones(n), [], [], [], [], []))
  {
    hide Run, Observed, Offered;
    if n == 0 {
      assert Run(cfg, INITIAL, []) == INITIAL by { RunNothing(cfg); }
    } else {
      FloodFills(cfg, n - 1);
      OneCall(cfg, Flood(n - 1));
      OnesFacts(n - 1);
      Filling(n - 1);
    }
  }

  lemma Filling(n: nat)
    requires n < SIGNAL_QUEUE_DEPTH
    ensures Offered(Observed(Lane(n, 0, Ones(n), Idle, Trail([], Ones(n), [], [], [], [], [])), ONE), 0)
         == Lane(n + 1, 0, Ones(n + 1), Idle, Trail([], Ones(n + 1), [], [], [], [], []))
  {
    OnesFacts(n);
  }

  lemma RunNothing(cfg: Config)
    ensures Run(cfg, INITIAL, []) == INITIAL
  {
  }

  /** After 129 calls the counter says 129, although 128 records were accepted. */
  lemma RejectedIsCounted(cfg: Config)
    ensures var l := Run(cfg, INITIAL, Flood(129)).lanes[0];
            l.forwarded == 129 && Records(l.trail.accepted) == 128 && l.trail.rejected == [ONE]
  {
    hide Run;
    FloodFills(cfg, 128);
    OneCall(cfg, Flood(128));
    OnesFacts(128);
  }

  // ----- What a step does to the world outside the lane -----

  /** An inbound batch with records is told to the event and tail channels that exist and have room
      (128 and 16), and to nothing else. */
  lemma InboundIsTold(cfg: Config, s: State, sig: Signal, b: Batch)
    ensures var after := Step(cfg, s, Observe(sig, b));
            && after.events == s.events + (if cfg.emits && b.count > 0 && |s.events| < 128 then [Forwarded(sig, b.count)] else [])
            && after.tail == s.tail + (if cfg.tails && b.count > 0 && b.rendered != "" && |s.tail| < 16 then [b.rendered] else [])
            && after.lifecycle == s.lifecycle && after.cancelled == s.cancelled
  {
    hide LaneStep;
    assert s.events + [] == s.events && s.tail + [] == s.tail;
  }

  /** A send tells of its failure or panic, and not of a success. */
  lemma FailureIsTold(cfg: Config, s: State, sig: Signal, outcome: Outcome)
    requires s.lanes[sig].worker.Sending?
    ensures var after := Step(cfg, s, Finish(sig, outcome));
            && after.tail == s.tail && after.lifecycle == s.lifecycle && after.cancelled == s.cancelled
            && (!cfg.emits || |s.events| >= 128 || outcome.Sent? ==> after.events == s.events)
            && (cfg.emits && |s.events| < 128 && outcome.Panicked? ==> after.events == s.events + [ErrorEvent(InternalPanic, 0)])
            && (cfg.emits && |s.events| < 128 && outcome.Failure? ==>
                  after.events == s.events + [ErrorEvent(ClassifyError(outcome.error).0, ClassifyError(outcome.error).1)])
  {
    hide LaneStep, ClassifyError;
  }

  // ----- Progress -----

  /** n times the worker takes a batch and sends it with success. */
  function Draining(sig: Signal, n: nat): seq<Action> {
    if n == 0 then [] else Draining(sig, n - 1) + [Take(sig)] + [Finish(sig, Sent)]
  }

  /** From any state in which the worker is free, also after cancellation, its queue can be
      delivered, batch by batch in order. */
  lemma {:induction false} QueueDrains(cfg: Config, s: State, sig: Signal, n: nat)
    requires s.lanes[sig].worker.Idle? && n <= |s.lanes[sig].queue|
    ensures var l, after := s.lanes[sig], Run(cfg, s, Draining(sig, n)).lanes[sig];
            && after.worker.Idle? && after.queue == l.queue[n..]
            && after.trail.delivered == l.trail.delivered + l.queue[..n]
            && after.forwarded == l.forwarded && after.failures == l.failures
            && after.trail.failed == l.trail.failed && after.trail.lost == l.trail.lost
  {
    if n > 0 {
      hide Run;
      var l := s.lanes[sig];
      QueueDrains(cfg, s, sig, n - 1);
      OneDelivery(cfg, s, Draining(sig, n - 1), sig);
      NextInQueue(l.queue, l.trail.delivered, n);
    }
  }

  lemma NextInQueue(queue: seq<Batch>, delivered: seq<Batch>, n: nat)
    requires 0 < n <= |queue|
    ensures queue[n - 1..][1..] == queue[n..] && queue[n - 1..][0] == queue[n - 1]
    ensures delivered + queue[..n - 1] + [queue[n - 1]] == delivered + queue[..n]
  {
  }

  lemma OneDelivery(cfg: Config, s: State, actions: seq<Action>, sig: Signal)
    requires Run(cfg, s, actions).lanes[sig].worker.Idle? && Run(cfg, s, actions).lanes[sig].queue != []
    ensures var l, after := Run(cfg, s, actions).lanes[sig], Run(cfg, s, actions + [Take(sig)] + [Finish(sig, Sent)]).lanes[sig];
            && after.worker.Idle? && after.queue == l.queue[1..]
            && after.trail.delivered == l.trail.delivered + [l.queue[0]]
            && after.forwarded == l.forwarded && after.failures == l.failures
            && after.trail.failed == l.trail.failed && after.trail.lost == l.trail.lost
  {
    hide Run, Step;
    var before := Run(cfg, s, actions);
    RunSnoc(cfg, s, actions, Take(sig));
    RunSnoc(cfg, s, actions + [Take(sig)], Finish(sig, Sent));
    OneStepOfLane(cfg, before, Take(sig), sig);
    OneStepOfLane(cfg, Step(cfg, before, Take(sig)), Finish(sig, Sent), sig);
  }

  /** A worker can stop once it is free and cancelled, and has stopped only then. */
  lemma {:induction false} StopsOnlyCancelled(cfg: Config, actions: seq<Action>, sig: Signal)
    ensures var s := Run(cfg, INITIAL, actions);
            && (s.lanes[sig].worker.Stopped? ==> s.cancelled)
            && (s.cancelled && s.lanes[sig].worker.Idle? ==> Step(cfg, s, Stop(sig)).lanes[sig].worker.Stopped?)
            && (s.cancelled <==> Cancel in actions)
  {
    hide SideStep, Observed, Offered, Taken, Finished;
    if actions != [] {
      var init, last := actions[..|actions| - 1], actions[|actions| - 1];
      StopsOnlyCancelled(cfg, init, sig);
      var before := Run(cfg, INITIAL, init);
      SideKeepsLanes(cfg, before, last);
      WorkerStays(before.lanes[sig], before.cancelled, last);
      assert actions == init + [last];
    }
    SideKeepsLanes(cfg, Run(cfg, INITIAL, actions), Stop(sig));
  }

  lemma WorkerStays(l: Lane, cancelled: bool, a: Action)
    ensures LaneStep(l, cancelled, a).worker.Stopped? ==> l.worker.Stopped? || cancelled
  {
  }

  // ----- Nothing else interferes with a lane -----

  /** The steps of a run that concern one signal, and the cancellation. */
  function Projection(actions: seq<Action>, sig: Signal): seq<Action> {
    if actions == [] then []
    else
      var init, last := actions[..|actions| - 1], actions[|actions| - 1];
      if Concerns(last, sig) || last.Cancel? then Projection(init, sig) + [last] else Projection(init, sig)
  }

  /** A lane on its own: no other signal, no event, tail or lifecycle channel. */
  function LaneRun(l: Lane, actions: seq<Action>): (Lane, bool) {
    if actions == [] then (l, false)
    else
      var init, last := actions[..|actions| - 1], actions[|actions| - 1];
      var (lane, cancelled) := LaneRun(l, init);
      (LaneStep(lane, cancelled, last), cancelled || last.Cancel?)
  }

  /** Queue, counters, order and return values of a signal are those of its own steps alone,
      whatever the other signals do and whether the side channels exist, are full or are read. */
  lemma {:induction false} LaneStandsAlone(cfg: Config, actions: seq<Action>, sig: Signal)
    ensures var s := Run(cfg, INITIAL, actions);
            (s.lanes[sig], s.cancelled) == LaneRun(EMPTY, Projection(actions, sig))
  {
    hide Step, LaneStep;
    if actions != [] {
      var init, last := actions[..|actions| - 1], actions[|actions| - 1];
      LaneStandsAlone(cfg, init, sig);
      OneStepOfLane(cfg, Run(cfg, INITIAL, init), last, sig);
      LaneRunSnoc(EMPTY, Projection(init, sig), last);
    }
  }

  /** A step does to the lane and the cancellation what it does on its own, or nothing. */
  lemma OneStepOfLane(cfg: Config, s: State, a: Action, sig: Signal)
    ensures var after := Step(cfg, s, a);
            && after.cancelled == (s.cancelled || a.Cancel?)
            && after.lanes[sig]
               == if Concerns(a, sig) || a.Cancel? then LaneStep(s.lanes[sig], s.cancelled, a) else s.lanes[sig]
  {
    hide LaneStep, SideStep;
    SideKeepsLanes(cfg, s, a);
    CancelKeepsLane(s.lanes[sig], s.cancelled);
  }

  lemma LaneRunSnoc(l: Lane, actions: seq<Action>, a: Action)
    ensures var (lane, cancelled) := LaneRun(l, actions);
            LaneRun(l, actions + [a]) == (LaneStep(lane, cancelled, a), cancelled || a.Cancel?)
  {
    hide LaneStep;
    assert (actions + [a])[..|actions|] == actions;
  }

  lemma CancelKeepsLane(l: Lane, cancelled: bool)
    ensures LaneStep(l, cancelled, Cancel) == l
  {
  }

  // ----- Auth warnings -----

  ghost predicate Spaced(warned: seq<Warned>) {
    forall i, j :: 0 <= i < j < |warned| ==> warned[j].at - warned[i].at >= AUTH_ERROR_THROTTLE
  }

  ghost predicate Caused(warned: seq<Warned>) {
    forall i :: 0 <= i < |warned| ==> IsAuthStatus(warned[i].status)
  }

  /** The throttle runs from the last warning that was really sent. */
  predicate LastIsSent(s: State) {
    s.lastAuthWarn == if s.warned == [] then None else Some(s.warned[|s.warned| - 1].at)
  }

  lemma WarningStep(cfg: Config, s: State, a: Action)
    requires Spaced(s.warned) && Caused(s.warned) && LastIsSent(s)
    requires forall sig: Signal :: s.lanes[sig].worker.Warning? ==> IsAuthStatus(s.lanes[sig].worker.status)
    ensures var after := Step(cfg, s, a);
            Spaced(after.warned) && Caused(after.warned) && LastIsSent(after)
  {
    hide LaneStep, Observed, Offered, Taken, Finished;
    if a.Surface? && s.lanes[a.sig].worker.Warning? && WarningDue(cfg, s, a.now) && s.warned != [] {
      var last := s.warned[|s.warned| - 1];
      forall i | 0 <= i < |s.warned| ensures a.now - s.warned[i].at >= AUTH_ERROR_THROTTLE {
        assert i < |s.warned| - 1 ==> last.at - s.warned[i].at >= AUTH_ERROR_THROTTLE;
      }
    }
  }

  /** In every run, warnings that reach the channel are at least the throttle apart and each
      was caused by a 401 or 403, even if the clock is set back; a warning dropped on a full channel leaves the throttle alone. */
  lemma {:induction false} WarningsSpaced(cfg: Config, actions: seq<Action>)
    ensures var s := Run(cfg, INITIAL, actions);
            Spaced(s.warned) && Caused(s.warned) && LastIsSent(s)
  {
    hide Step, Spaced, Caused, LaneOk;
    if actions == [] {
      NoWarning();
    } else {
      var init := actions[..|actions| - 1];
      WarningsSpaced(cfg, init);
      var s := Run(cfg, INITIAL, init);
      forall sig: Signal ensures s.lanes[sig].worker.Warning? ==> IsAuthStatus(s.lanes[sig].worker.status) {
        AlwaysOk(cfg, init, sig);
        StatusOk(s.lanes[sig]);
      }
      WarningStep(cfg, s, actions[|actions| - 1]);
    }
  }

  /** A worker about to surface an auth error does send the warning exactly when the channel
      exists, none went out in the last 30 seconds and fewer than 8 messages are queued; a first
      one always may. Otherwise nothing is sent. */
  lemma WarnsIff(cfg: Config, actions: seq<Action>, sig: Signal, now: real)
    requires Run(cfg, INITIAL, actions).lanes[sig].worker.Warning?
    ensures var s := Run(cfg, INITIAL, actions);
            var after := Step(cfg, s, Surface(sig, now));
            var due := && cfg.warns
                       && (s.warned == [] || now - s.warned[|s.warned| - 1].at >= 30.0)
                       && |s.lifecycle| < 8;
            && (due <==> after.lifecycle == s.lifecycle + [AuthFailed])
            && (due <==> after.warned == s.warned + [Warned(now, s.lanes[sig].worker.status)])
            && (!due <==> after.lifecycle == s.lifecycle && after.warned == s.warned)
            && after.lanes[sig].worker == Idle
  {
    hide Run, Spaced, Caused;
    WarningsSpaced(cfg, actions);
  }

  /** Nothing but a surfaced auth error sends a warning: the other steps leave the lifecycle
      channel alone, read from it or announce something. */
  lemma OnlySurfacingWarns(cfg: Config, s: State, a: Action)
    requires !a.Surface?
    ensures var after := Step(cfg, s, a);
            && after.warned == s.warned && after.lastAuthWarn == s.lastAuthWarn
            && (|| after.lifecycle == s.lifecycle
                || (s.lifecycle != [] && after.lifecycle == s.lifecycle[1..])
                || (a.Announce? && after.lifecycle == s.lifecycle + [Announcement(a.text)]))
  {
    hide LaneStep, ClassifyError;
  }

  lemma NoWarning()
    ensures Spaced([]) && Caused([])
  {
  }

  lemma StatusOk(l: Lane)
    requires LaneOk(l)
    ensures l.worker.Warning? ==> IsAuthStatus(l.worker.status)
  {
  }
}
