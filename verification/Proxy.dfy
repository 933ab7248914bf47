/**
 The proxy's own state: counters, three bounded queues, three workers and the optional
 channels (internal/otlp/proxy_consumer.go, internal/otlp/proxy_workers.go). Each method
 is one atomic step of ProxyPipeline; where batches went is kept in ghost state only.
 */
module Proxy {
  import opened ProxyStats
  import opened ProxyLane
  import opened ProxyPipeline
  import opened Wrappers

  lemma OneLaneChanged(before: Lanes, after: Lanes, sig: Signal, lane: Lane)
    requires after[sig] == lane && forall i: Signal :: i != sig ==> after[i] == before[i]
    ensures after == before[sig := lane]
  {
  }

  lemma ObserveStep(cfg: Config, s: State, sig: Signal, b: Batch)
    ensures Step(cfg, s, Observe(sig, b))
         == s.(lanes := s.lanes[sig := Observed(s.lanes[sig], b)],
               events := if b.count > 0 && cfg.emits then Push(s.events, Forwarded(sig, b.count), EVENT_DEPTH) else s.events,
               tail := if b.count > 0 && cfg.tails && b.rendered != "" then Push(s.tail, b.rendered, TAIL_DEPTH) else s.tail)
  {
  }

  lemma FailureStep(cfg: Config, s: State, sig: Signal, e: SendError)
    requires s.lanes[sig].worker.Sending?
    ensures Step(cfg, s, Finish(sig, Failure(e)))
         == s.(lanes := s.lanes[sig := Finished(s.lanes[sig], Failure(e))],
               events := if cfg.emits
                         then Push(s.events, ErrorEvent(ClassifyError(e).0, ClassifyError(e).1), EVENT_DEPTH)
                         else s.events)
  {
  }

  class Proxy {
    const cfg: Config
    const stats: Stats
    const queues: array<seq<Batch>>
    const workers: array<Worker>
    var cancelled: bool
    var events: seq<Event>
    var tail: seq<string>
    var lifecycle: seq<Message>
    var lastAuthWarn: Option<real>
    ghost var trails: seq<Trail>
    ghost var warned: seq<Warned>

    ghost predicate Valid()
      reads `trails, stats
    {
      stats.Valid() && queues.Length == workers.Length == |trails| == SIGNAL_COUNT
    }

    ghost function LaneAt(sig: Signal): Lane
      reads `trails, stats, stats.forwarded, stats.failed, queues, workers
      requires Valid()
    {
      Lane(stats.forwarded[sig], stats.failed[sig], queues[sig], workers[sig], trails[sig])
    }

    ghost function State(): (s: ProxyPipeline.State)
      reads this, stats, stats.forwarded, stats.failed, queues, workers
      requires Valid()
      ensures forall sig: Signal :: s.lanes[sig] == LaneAt(sig)
    {
      ProxyPipeline.State([LaneAt(0), LaneAt(1), LaneAt(2)], cancelled, events, tail, lifecycle, lastAuthWarn, warned)
    }

    constructor (cfg: Config)
      ensures Valid() && this.cfg == cfg && State() == ProxyPipeline.INITIAL
      ensures fresh(stats) && fresh(stats.forwarded) && fresh(stats.failed) && fresh(queues) && fresh(workers)
    {
      this.cfg := cfg;
      stats := new Stats();
      queues := new seq<Batch>[SIGNAL_COUNT](_ => []);
      workers := new Worker[SIGNAL_COUNT](_ => Idle);
      cancelled, events, tail, lifecycle, lastAuthWarn := false, [], [], [], None;
      trails, warned := [EMPTY.trail, EMPTY.trail, EMPTY.trail], [];
      new;
      assert stats.forwarded[..] == [0, 0, 0] && stats.failed[..] == [0, 0, 0];
      assert stats.forwarded[..][0] == stats.forwarded[..][1] == stats.forwarded[..][2] == 0;
      assert stats.failed[..][0] == stats.failed[..][1] == stats.failed[..][2] == 0;
    }

    /** The lanes other than sig are as they were. */
    twostate predicate OnlyLane(sig: Signal)
      requires old(Valid()) && Valid()
      reads this, stats, stats.forwarded, stats.failed, queues, workers
    {
      forall i: Signal :: i != sig ==> LaneAt(i) == old(LaneAt(i))
    }

    /** The counter's part of observing a batch. */
    method CountForwarded(sig: Signal, b: Batch)
      requires Valid()
      modifies this`trails, stats.forwarded
      ensures Valid() && OnlyLane(sig) && LaneAt(sig) == Observed(old(LaneAt(sig)), b)
    {
      if b.count > 0 {
        stats.RecordForwarded(sig, b.count);
        assert forall i: Signal :: stats.forwarded[i] == stats.forwarded[..][i];
      }
      trails := trails[sig := trails[sig].(pending := trails[sig].pending + [b])];
    }

    /** The counter's and the worker's part of a failed send. */
    method CountFailed(sig: Signal, e: SendError)
      requires Valid() && workers[sig].Sending?
      modifies this`trails, stats.failed, workers
      ensures Valid() && OnlyLane(sig) && LaneAt(sig) == Finished(old(LaneAt(sig)), Failure(e))
    {
      hide ClassifyError;
      var b := workers[sig].batch;
      stats.RecordFailed(sig, b.count);
      assert forall i: Signal :: stats.failed[i] == stats.failed[..][i];
      var (kind, code) := ClassifyError(e);
      workers[sig] := if kind == Upstream4xxAuth then Warning(code) else Idle;
      trails := trails[sig := trails[sig].(failed := trails[sig].failed + [b])];
    }

    /** A send on the event channel, if there is one; dropped when it is full. */
    method Emit(e: Event)
      modifies this`events
      ensures events == if cfg.emits then Push(old(events), e, EVENT_DEPTH) else old(events)
    {
      if cfg.emits {
        events := Push(events, e, EVENT_DEPTH);
      }
    }

    method PushTail(rendered: string)
      modifies this`tail
      ensures tail == if cfg.tails && rendered != "" then Push(old(tail), rendered, TAIL_DEPTH) else old(tail)
    {
      if cfg.tails {
        if rendered == "" {
          return;
        }
        tail := Push(tail, rendered, TAIL_DEPTH);
      }
    }

    /** Side effects of an inbound batch: the counter, the event and the tail. */
    method ObserveBatch(sig: Signal, b: Batch)
      requires Valid()
      modifies this, stats.forwarded
      ensures Valid() && State() == Step(cfg, old(State()), Observe(sig, b))
    {
      hide Push, Step, Observed, LaneAt;
      ObserveStep(cfg, State(), sig, b);
      CountForwarded(sig, b);
      if b.count > 0 {
        Emit(Forwarded(sig, b.count));
        PushTail(b.rendered);
      }
      OneLaneChanged(old(State()).lanes, State().lanes, sig, Observed(old(LaneAt(sig)), b));
    }

    /** Non-blocking enqueue: true stands for the nil error, false for the retryable one. */
    method OfferBatch(sig: Signal, b: Batch, ghost call: nat) returns (ok: bool)
      requires Valid() && call < |trails[sig].pending| && trails[sig].pending[call] == b
      modifies this, queues
      ensures Valid() && State() == Step(cfg, old(State()), Offer(sig, call))
      ensures ok <==> |old(queues[sig])| < SIGNAL_QUEUE_DEPTH
      ensures trails[sig].accepted == old(trails[sig].accepted) + if ok then [b] else []
      ensures trails[sig].rejected == old(trails[sig].rejected) + if ok then [] else [b]
    {
      ghost var t := trails[sig].(pending := Without(trails[sig].pending, call));
      if |queues[sig]| < SIGNAL_QUEUE_DEPTH {
        queues[sig] := queues[sig] + [b];
        trails := trails[sig := t.(accepted := t.accepted + [b])];
        ok := true;
      } else {
        trails := trails[sig := t.(rejected := t.rejected + [b])];
        ok := false;
      }
    }

    /** One call of ConsumeLogs, ConsumeTraces or ConsumeMetrics, with nothing in between. */
    method Consume(sig: Signal, b: Batch) returns (ok: bool)
      requires Valid()
      modifies this, stats.forwarded, queues
      ensures Valid()
      ensures State() == Step(cfg, Step(cfg, old(State()), Observe(sig, b)), Offer(sig, old(|trails[sig].pending|)))
      ensures ok <==> trails[sig].accepted == old(trails[sig].accepted) + [b]
    {
      ghost var call := |trails[sig].pending|;
      ObserveBatch(sig, b);
      assert LaneAt(sig) == Observed(old(LaneAt(sig)), b);
      ok := OfferBatch(sig, b, call);
    }

    method TakeBatch(sig: Signal)
      requires Valid()
      modifies this, queues, workers
      ensures Valid() && State() == Step(cfg, old(State()), Take(sig))
      ensures old(workers[sig]).Idle? && old(queues[sig]) != [] ==>
        workers[sig] == Sending(old(queues[sig])[0]) && queues[sig] == old(queues[sig])[1..]
    {
      if workers[sig].Idle? && queues[sig] != [] {
        var b := queues[sig][0];
        queues[sig] := queues[sig][1..];
        workers[sig] := Sending(b);
        trails := trails[sig := trails[sig].(handed := trails[sig].handed + [b])];
      }
    }

    /** The send returns or panics. */
    method FinishSend(sig: Signal, outcome: Outcome)
      requires Valid() && workers[sig].Sending?
      modifies this, stats.failed, workers
      ensures Valid() && State() == Step(cfg, old(State()), Finish(sig, outcome))
      ensures !workers[sig].Sending?
      ensures trails[sig].delivered == old(trails[sig].delivered) + if outcome.Sent? then [old(workers[sig].batch)] else []
      ensures stats.failed[sig] == old(stats.failed[sig]) + if outcome.Failure? then old(workers[sig].batch.count) else 0
    {
      match outcome
      case Sent =>
        var b := workers[sig].batch;
        workers[sig] := Idle;
        trails := trails[sig := trails[sig].(delivered := trails[sig].delivered + [b])];
      case Failure(e) =>
        ClassifyOutcome(sig, e);
      case Panicked =>
        RecoverPanic(sig);
    }

    /** Count, event, and whether an auth error is to be surfaced. */
    method ClassifyOutcome(sig: Signal, e: SendError)
      requires Valid() && workers[sig].Sending?
      modifies this, stats.failed, workers
      ensures Valid() && State() == Step(cfg, old(State()), Finish(sig, Failure(e)))
    {
      hide Push, Step, Finished, ClassifyError;
      assert LaneAt(sig).worker == workers[sig];
      hide LaneAt;
      FailureStep(cfg, State(), sig, e);
      CountFailed(sig, e);
      Emit(ErrorEvent(ClassifyError(e).0, ClassifyError(e).1));
      OneLaneChanged(old(State()).lanes, State().lanes, sig, Finished(old(LaneAt(sig)), Failure(e)));
    }

    /** The failure counter stays as it is. */
    method RecoverPanic(sig: Signal)
      requires Valid() && workers[sig].Sending?
      modifies this, workers
      ensures Valid() && State() == Step(cfg, old(State()), Finish(sig, Panicked))
    {
      Emit(ErrorEvent(InternalPanic, 0));
      trails := trails[sig := trails[sig].(lost := trails[sig].lost + [workers[sig].batch])];
      workers[sig] := Idle;
    }

    /** Under the throttle's lock. */
    method MaybeSurfaceAuthError(sig: Signal, now: real)
      requires Valid()
      modifies this, workers
      ensures Valid() && State() == Step(cfg, old(State()), Surface(sig, now))
      ensures lifecycle == old(lifecycle) + [AuthFailed]
         <==> old(workers[sig]).Warning? && cfg.warns && |old(lifecycle)| < 8
              && (old(lastAuthWarn).None? || now - old(lastAuthWarn).value >= 30.0)
      ensures lifecycle != old(lifecycle) ==> lastAuthWarn == Some(now)
      ensures lifecycle == old(lifecycle) ==> lastAuthWarn == old(lastAuthWarn)
    {
      if !workers[sig].Warning? {
        return;
      }
      var status := workers[sig].status;
      workers[sig] := Idle;
      if !cfg.warns {
        return;
      }
      if lastAuthWarn.Some? && now - lastAuthWarn.value < AUTH_ERROR_THROTTLE {
        return;
      }
      if |lifecycle| < LIFECYCLE_DEPTH {
        lifecycle := lifecycle + [AuthFailed];
        lastAuthWarn := Some(now);
        warned := warned + [Warned(now, status)];
      }
    }

    method StopWorker(sig: Signal)
      requires Valid()
      modifies workers
      ensures Valid() && State() == Step(cfg, old(State()), Stop(sig))
    {
      if cancelled && workers[sig].Idle? {
        workers[sig] := Stopped;
      }
    }
  }
}
