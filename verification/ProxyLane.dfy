/**
 One signal's lane through the proxy: callers that enqueue, a bounded queue, one worker
 (internal/otlp/proxy_consumer.go and internal/otlp/proxy_workers.go).

 Each function below is one atomic step. The trail records where every batch went; the
 program itself keeps only the queue, the worker and the two counters.
 */
module ProxyLane {

  const SIGNAL_QUEUE_DEPTH := 128

  datatype Batch = Batch(id: nat, count: nat, rendered: string)

  // ----- Outcomes of a send -----

  datatype SendError = ApiError(status: int) | TransportError

  datatype Outcome = Sent | Failure(error: SendError) | Panicked

  datatype ErrorKind = UpstreamUnreachable | Upstream5xx | Upstream4xxAuth | Upstream4xxOther | InternalPanic

  function ClassifyError(e: SendError): (ErrorKind, int) {
    match e
    case ApiError(status) =>
      if status == 401 || status == 403 then (Upstream4xxAuth, status)
      else if 400 <= status < 500 then (Upstream4xxOther, status)
      else if 500 <= status < 600 then (Upstream5xx, status)
      else (UpstreamUnreachable, 0)
    case TransportError => (UpstreamUnreachable, 0)
  }

  /** What kind and code tell about the error: the kind is the class of the status, and a
      status outside 400-599 is told apart from a transport failure by nothing. */
  lemma ClassificationReadsBack(e: SendError)
    ensures var (kind, code) := ClassifyError(e);
            && kind != InternalPanic
            && (code == 0 <==> kind == UpstreamUnreachable)
            && (code != 0 ==> e == ApiError(code))
            && (code == 0 <==> e == TransportError || !(400 <= e.status < 600))
            && (kind == Upstream4xxAuth <==> e == ApiError(401) || e == ApiError(403))
            && (kind == Upstream5xx <==> e.ApiError? && 500 <= e.status < 600)
  {
  }

  // ----- The lane -----

  /** Warning: the failure is recorded, the worker is about to surface an auth error. */
  datatype Worker = Idle | Sending(batch: Batch) | Warning(status: int) | Stopped

  datatype Trail = Trail(
    pending: seq<Batch>, // observed by a caller that has not offered it yet
    accepted: seq<Batch>, rejected: seq<Batch>,
    handed: seq<Batch>, // handed to the forwarder
    delivered: seq<Batch>, failed: seq<Batch>, lost: seq<Batch>)

  datatype Lane = Lane(forwarded: int, failures: int, queue: seq<Batch>, worker: Worker, trail: Trail)

  const EMPTY := Lane(0, 0, [], Idle, Trail([], [], [], [], [], [], []))

  function Without<T>(s: seq<T>, i: nat): seq<T>
    requires i < |s|
  {
    s[..i] + s[i + 1..]
  }

  /** A caller counts a batch, before it knows whether the queue takes it. */
  function Observed(l: Lane, b: Batch): Lane {
    l.(forwarded := l.forwarded + b.count, trail := l.trail.(pending := l.trail.pending + [b]))
  }

  /** Caller i offers its batch without blocking. */
  function Offered(l: Lane, i: nat): Lane
    requires i < |l.trail.pending|
  {
    var b, pending := l.trail.pending[i], Without(l.trail.pending, i);
    if |l.queue| < SIGNAL_QUEUE_DEPTH then
      l.(queue := l.queue + [b], trail := l.trail.(pending := pending, accepted := l.trail.accepted + [b]))
    else
      l.(trail := l.trail.(pending := pending, rejected := l.trail.rejected + [b]))
  }

  /** The worker takes the oldest batch and hands it to the forwarder. */
  function Taken(l: Lane): Lane
    requires l.worker.Idle? && l.queue != []
  {
    l.(queue := l.queue[1..], worker := Sending(l.queue[0]),
       trail := l.trail.(handed := l.trail.handed + [l.queue[0]]))
  }

  /** The send ends. A panic is not counted as a failure. */
  function Finished(l: Lane, outcome: Outcome): Lane
    requires l.worker.Sending?
  {
    var b := l.worker.batch;
    match outcome
    case Sent => l.(worker := Idle, trail := l.trail.(delivered := l.trail.delivered + [b]))
    case Failure(e) =>
      var (kind, code) := ClassifyError(e);
      l.(failures := l.failures + b.count,
         worker := if kind == Upstream4xxAuth then Warning(code) else Idle,
         trail := l.trail.(failed := l.trail.failed + [b]))
    case Panicked => l.(worker := Idle, trail := l.trail.(lost := l.trail.lost + [b]))
  }

  /** Where the batch goes at the end of its send, what is counted, and when an auth error is to be surfaced. */
  lemma OutcomeDecides(l: Lane, outcome: Outcome)
    requires l.worker.Sending?
    ensures var b, after := l.worker.batch, Finished(l, outcome);
            && after.trail.delivered == l.trail.delivered + (if outcome == Sent then [b] else [])
            && after.trail.lost == l.trail.lost + (if outcome == Panicked then [b] else [])
            && after.trail.failed == l.trail.failed + (if outcome.Failure? then [b] else [])
            && after.failures == l.failures + (if outcome.Failure? then b.count else 0)
            && after.forwarded == l.forwarded && after.queue == l.queue
            && after.worker == if outcome == Failure(ApiError(401)) then Warning(401)
                               else if outcome == Failure(ApiError(403)) then Warning(403)
                               else Idle
  {
    assert forall s: seq<Batch> :: s + [] == s;
  }

  /** An offer is accepted exactly when fewer than 128 batches are queued; it goes to the end of the queue. */
  lemma OfferDecides(l: Lane, i: nat)
    requires i < |l.trail.pending|
    ensures var b, after := l.trail.pending[i], Offered(l, i);
            if |l.queue| < 128 then
              after.queue == l.queue + [b] && after.trail.accepted == l.trail.accepted + [b]
              && after.trail.rejected == l.trail.rejected
            else
              after.queue == l.queue && after.trail.accepted == l.trail.accepted
              && after.trail.rejected == l.trail.rejected + [b]
  {
  }

  // ----- What every step keeps -----

  function Records(s: seq<Batch>): nat {
    if s == [] then 0 else Records(s[..|s| - 1]) + s[|s| - 1].count
  }

  function InFlight(w: Worker): seq<Batch> {
    match w
    case Sending(b) => [b]
    case _ => []
  }

  predicate IsAuthStatus(status: int) {
    status == 401 || status == 403
  }

  /** Batches leave in the order they were accepted, through a bounded queue. */
  predicate InOrder(l: Lane) {
    l.trail.accepted == l.trail.handed + l.queue && |l.queue| <= SIGNAL_QUEUE_DEPTH
  }

  /** Every batch handed over ends exactly once, or is still in flight. */
  predicate EndsOnce(l: Lane) {
    multiset(l.trail.handed)
      == multiset(l.trail.delivered) + multiset(l.trail.failed) + multiset(l.trail.lost) + multiset(InFlight(l.worker))
  }

  /** Forwarded counts every batch observed, wherever it is now. */
  predicate Conserved(l: Lane) {
    && l.forwarded == Records(l.trail.pending) + Records(l.trail.rejected) + Records(l.queue) + Records(InFlight(l.worker))
                      + Records(l.trail.delivered) + Records(l.trail.failed) + Records(l.trail.lost)
    && l.failures == Records(l.trail.failed)
  }

  predicate LaneOk(l: Lane) {
    InOrder(l) && EndsOnce(l) && Conserved(l) && (l.worker.Warning? ==> IsAuthStatus(l.worker.status))
  }

  lemma {:induction false} RecordsConcat(a: seq<Batch>, b: seq<Batch>)
    ensures Records(a + b) == Records(a) + Records(b)
  {
    if b == [] {
      assert a + b == a;
    } else {
      RecordsConcat(a, b[..|b| - 1]);
      assert (a + b)[..|a + b| - 1] == a + b[..|b| - 1];
    }
  }

  lemma RecordsOne(b: Batch)
    ensures Records([b]) == b.count
  {
    assert [b][..0] == [];
  }

  lemma RecordsSnoc(s: seq<Batch>, b: Batch)
    ensures Records(s + [b]) == Records(s) + b.count
  {
    RecordsConcat(s, [b]);
    RecordsOne(b);
  }

  lemma RecordsWithout(s: seq<Batch>, i: nat)
    requires i < |s|
    ensures Records(s) == Records(Without(s, i)) + s[i].count
  {
    hide Records;
    assert s == s[..i] + ([s[i]] + s[i + 1..]);
    RecordsConcat(s[..i], [s[i]] + s[i + 1..]);
    RecordsConcat([s[i]], s[i + 1..]);
    RecordsOne(s[i]);
    RecordsConcat(s[..i], s[i + 1..]);
  }

  lemma ObservedOk(l: Lane, b: Batch)
    requires LaneOk(l)
    ensures LaneOk(Observed(l, b))
  {
    hide Records;
    RecordsSnoc(l.trail.pending, b);
  }

  lemma OfferedOk(l: Lane, i: nat)
    requires LaneOk(l) && i < |l.trail.pending|
    ensures LaneOk(Offered(l, i))
  {
    hide Records;
    var b := l.trail.pending[i];
    RecordsWithout(l.trail.pending, i);
    RecordsSnoc(l.queue, b);
    RecordsSnoc(l.trail.rejected, b);
  }

  lemma TakenOk(l: Lane)
    requires LaneOk(l) && l.worker.Idle? && l.queue != []
    ensures LaneOk(Taken(l))
  {
    hide Records;
    assert l.queue == [l.queue[0]] + l.queue[1..];
    RecordsConcat([l.queue[0]], l.queue[1..]);
    RecordsEmpty();
  }

  lemma RecordsEmpty()
    ensures Records([]) == 0
  {
  }

  lemma FinishedOk(l: Lane, outcome: Outcome)
    requires LaneOk(l) && l.worker.Sending?
    ensures LaneOk(Finished(l, outcome))
  {
    hide EndsOnce, Conserved;
    EndsOnceAfter(l, outcome);
    ConservedAfter(l, outcome);
  }

  lemma ConservedAfter(l: Lane, outcome: Outcome)
    requires Conserved(l) && l.worker.Sending?
    ensures Conserved(Finished(l, outcome))
  {
    hide Records;
    var b := l.worker.batch;
    RecordsEmpty();
    RecordsOne(b);
    match outcome
    case Sent => RecordsSnoc(l.trail.delivered, b);
    case Failure(_) => RecordsSnoc(l.trail.failed, b);
    case Panicked => RecordsSnoc(l.trail.lost, b);
  }

  lemma EndsOnceAfter(l: Lane, outcome: Outcome)
    requires EndsOnce(l) && l.worker.Sending?
    ensures EndsOnce(Finished(l, outcome))
  {
  }

  lemma RestingOk(l: Lane, w: Worker)
    requires LaneOk(l) && InFlight(l.worker) == [] && (w.Idle? || w.Stopped?)
    ensures LaneOk(l.(worker := w))
  {
  }

  // ----- What the counters do and do not say -----

  lemma {:induction false} RecordsOfPermutation(a: seq<Batch>, b: seq<Batch>)
    requires multiset(a) == multiset(b)
    ensures Records(a) == Records(b)
  {
    hide Records;
    assert |a| == |multiset(a)| && |b| == |multiset(b)|;
    if a != [] {
      var init, x := a[..|a| - 1], a[|a| - 1];
      assert a == init + [x];
      assert x in multiset(b);
      var i :| 0 <= i < |b| && b[i] == x;
      MultisetWithout(b, i);
      RecordsOfPermutation(init, Without(b, i));
      RecordsWithout(b, i);
      RecordsSnoc(init, x);
    }
  }

  lemma MultisetWithout<T>(s: seq<T>, i: nat)
    requires i < |s|
    ensures multiset(Without(s, i)) == multiset(s) - multiset{s[i]}
  {
    assert s == s[..i] + [s[i]] + s[i + 1..];
  }

  /** Accepted batches are queued, in flight, delivered, failed or lost. */
  lemma RecordsAccepted(l: Lane)
    requires LaneOk(l)
    ensures Records(l.trail.accepted)
         == Records(l.queue) + Records(InFlight(l.worker))
          + Records(l.trail.delivered) + Records(l.trail.failed) + Records(l.trail.lost)
  {
    hide Records, InFlight;
    var t, flying := l.trail, InFlight(l.worker);
    RecordsConcat(t.handed, l.queue);
    RecordsOfPermutation(t.handed, t.delivered + t.failed + t.lost + flying);
    RecordsConcat(t.delivered + t.failed + t.lost, flying);
    RecordsConcat(t.delivered + t.failed, t.lost);
    RecordsConcat(t.delivered, t.failed);
  }

  /** The counter is meant to say what the proxy accepted. It does so exactly when no
      record was rejected or is yet to be offered. And what it says beyond the failures was
      delivered exactly when no record is anywhere else. */
  lemma CountersMeanIff(l: Lane)
    requires LaneOk(l)
    ensures 0 <= l.failures <= l.forwarded
    ensures l.forwarded == Records(l.trail.accepted)
       <==> Records(l.trail.rejected) == 0 && Records(l.trail.pending) == 0
    ensures l.forwarded - l.failures == Records(l.trail.delivered)
       <==> Records(l.trail.rejected) == 0 && Records(l.trail.pending) == 0 && Records(l.queue) == 0
            && Records(InFlight(l.worker)) == 0 && Records(l.trail.lost) == 0
  {
    hide Records, InFlight, InOrder, EndsOnce;
    RecordsAccepted(l);
  }
}
