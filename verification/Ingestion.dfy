/**
  The feed-ingestion dispatcher (ingestion.go): concurrent submitters, a bounded job channel,
  a pool of workers, cancellation, and one token bucket per user with idle eviction.

  Every step another goroutine can observe is one `Event`: the locked part of `Submit`, each
  arm of its `select`, the locked `finish`, and the worker's receive, return and finish. An
  event that is not enabled changes nothing, so "every interleaving" is "every event sequence".
 */
module Ingestion {
  import opened Common

  type Url = string
  type UserId = int

  /** Bucket size, seconds per token (an hour over twenty), idle seconds before eviction. */
  const BURST: real := 20.0
  const SECONDS_PER_TOKEN: real := 180.0
  const IDLE_SECONDS: real := 7200.0
  const EVICTION_THRESHOLD: nat := 10_000

  // ---------------------------------------------------------------- token buckets

  datatype Bucket = Bucket(tokens: real, last: real)
  datatype Limiter = Limiter(bucket: Bucket, lastSeen: real)

  /** Tokens available at `now`: refilled since `last`, capped at the burst. */
  function Level(b: Bucket, now: real): real {
    var refilled := if now < b.last then b.tokens else b.tokens + (now - b.last) / SECONDS_PER_TOKEN;
    if refilled > BURST then BURST else refilled
  }

  predicate Allows(b: Bucket, now: real) {
    Level(b, now) >= 1.0
  }

  function Take(b: Bucket, now: real): Bucket {
    if Allows(b, now) then Bucket(Level(b, now) - 1.0, now) else b
  }

  function LimiterFor(users: map<UserId, Limiter>, user: UserId, now: real): Limiter {
    if user in users then users[user] else Limiter(Bucket(BURST, now), now)
  }

  function Touched(users: map<UserId, Limiter>, user: UserId, now: real): map<UserId, Limiter> {
    users[user := Limiter(Take(LimiterFor(users, user, now).bucket, now), now)]
  }

  /** What the eviction sweep leaves behind. */
  function Evicted(users: map<UserId, Limiter>, now: real): map<UserId, Limiter> {
    map u | u in users && !(now - users[u].lastSeen > IDLE_SECONDS) :: users[u]
  }

  function Swept(users: map<UserId, Limiter>, now: real): map<UserId, Limiter> {
    if |users| > EVICTION_THRESHOLD then Evicted(users, now) else users
  }

  // ---------------------------------------------------------------- the protocol

  datatype Worker = Idle | Ingesting(url: Url) | Returned(url: Url) | Stopped
  datatype Submitter = Admitted(url: Url) | Abandoning(url: Url)

  datatype State = State(
    users: map<UserId, Limiter>,
    inFlight: set<Url>,
    queue: seq<Url>,
    submitters: map<nat, Submitter>,
    workers: map<nat, Worker>,
    cancelled: bool,
    clock: real)

  datatype Event =
    | Submit(thread: nat, user: UserId, url: Url, now: real)
    | Enqueue(thread: nat)
    | SeeCancelled(thread: nat)
    | SeeQueueFull(thread: nat)
    | Release(thread: nat)
    | Receive(worker: nat)
    | IngestReturns(worker: nat)
    | Finish(worker: nat)
    | Stop(worker: nat)
    | Cancel

  datatype Verdict = Ignored | AlreadyInFlight | RateLimited | Accepted

  /** The decision the locked section of `Submit` takes. */
  function Decide(s: State, e: Event): Verdict {
    if !e.Submit? || e.thread in s.submitters || e.now < s.clock then Ignored
    else if e.url in s.inFlight then AlreadyInFlight
    else if Allows(LimiterFor(s.users, e.user, e.now).bucket, e.now) then Accepted
    else RateLimited
  }

  predicate Enabled(s: State, e: Event, capacity: nat) {
    match e
    case Submit(thread, _, _, now) => thread !in s.submitters && s.clock <= now
    case Enqueue(thread) => thread in s.submitters && s.submitters[thread].Admitted? && |s.queue| < capacity
    case SeeCancelled(thread) => thread in s.submitters && s.submitters[thread].Admitted? && s.cancelled
    case SeeQueueFull(thread) =>
      thread in s.submitters && s.submitters[thread].Admitted? && |s.queue| >= capacity && !s.cancelled
    case Release(thread) => thread in s.submitters && s.submitters[thread].Abandoning?
    case Receive(w) => w in s.workers && s.workers[w].Idle? && s.queue != []
    case IngestReturns(w) => w in s.workers && s.workers[w].Ingesting?
    case Finish(w) => w in s.workers && s.workers[w].Returned?
    case Stop(w) => w in s.workers && s.workers[w].Idle? && s.cancelled
    case Cancel => true
  }

  /** The locked section of `Submit`; `evict` says whether the idle sweep is part of it. */
  function AfterSubmit(s: State, e: Event, evict: bool): State
    requires e.Submit?
  {
    match Decide(s, e)
    case Ignored => s
    case AlreadyInFlight => s.(clock := e.now)
    case RateLimited => s.(users := Touched(s.users, e.user, e.now), clock := e.now)
    case Accepted =>
      var users := Touched(s.users, e.user, e.now);
      s.(users := if evict then Swept(users, e.now) else users,
         inFlight := s.inFlight + {e.url},
         submitters := s.submitters[e.thread := Admitted(e.url)],
         clock := e.now)
  }

  function Step(s: State, e: Event, capacity: nat, evict: bool): State {
    if !Enabled(s, e, capacity) then s else
    match e
    case Submit(_, _, _, _) => AfterSubmit(s, e, evict)
    case Enqueue(t) =>
      s.(queue := s.queue + [s.submitters[t].url], submitters := s.submitters - {t})
    case SeeCancelled(t) => s.(submitters := s.submitters[t := Abandoning(s.submitters[t].url)])
    case SeeQueueFull(t) => s.(submitters := s.submitters[t := Abandoning(s.submitters[t].url)])
    case Release(t) =>
      s.(inFlight := s.inFlight - {s.submitters[t].url}, submitters := s.submitters - {t})
    case Receive(w) => s.(queue := s.queue[1..], workers := s.workers[w := Ingesting(s.queue[0])])
    case IngestReturns(w) => s.(workers := s.workers[w := Returned(s.workers[w].url)])
    case Finish(w) =>
      s.(inFlight := s.inFlight - {s.workers[w].url}, workers := s.workers[w := Idle])
    case Stop(w) => s.(workers := s.workers[w := Stopped])
    case Cancel => s.(cancelled := true)
  }

  function Run(s: State, events: seq<Event>, capacity: nat, evict: bool): State
    decreases |events|
  {
    if events == [] then s else Run(Step(s, events[0], capacity, evict), events[1..], capacity, evict)
  }

  function Initial(workers: set<nat>, start: real): State {
    State(map[], {}, [], map[], map w | w in workers :: Idle, false, start)
  }

  function WorkerIds(n: nat): set<nat> {
    if n == 0 then {} else WorkerIds(n - 1) + {n - 1}
  }

  // ---------------------------------------------------------------- who holds which URL

  /** A place a URL can be: with an admitted submitter, at a queue position, at a worker. */
  datatype Place = AtSubmitter(thread: nat) | InQueue(index: nat) | AtWorker(worker: nat)

  predicate Holds(s: State, p: Place, u: Url) {
    match p
    case AtSubmitter(t) => t in s.submitters && s.submitters[t].url == u
    case InQueue(i) => i < |s.queue| && s.queue[i] == u
    case AtWorker(w) => w in s.workers && (s.workers[w].Ingesting? || s.workers[w].Returned?) && s.workers[w].url == u
  }

  /** The in-flight set is in bijection with the occupied places; the queue respects its capacity. */
  ghost predicate Accounted(s: State, capacity: nat) {
    && (forall p, u :: Holds(s, p, u) ==> u in s.inFlight)
    && (forall u :: u in s.inFlight ==> exists p :: Holds(s, p, u))
    && (forall p, q, u :: Holds(s, p, u) && Holds(s, q, u) ==> p == q)
    && |s.queue| <= capacity
    && (forall w :: w in s.workers && s.workers[w].Stopped? ==> s.cancelled)
  }

  /** Where the holder of a URL is after one step, for a URL the step neither admits nor frees. */
  function Moved(s: State, e: Event, p: Place, capacity: nat): Place {
    if !Enabled(s, e, capacity) then p
    else if e.Enqueue? && p == AtSubmitter(e.thread) then InQueue(|s.queue|)
    else if e.Receive? && p == InQueue(0) then AtWorker(e.worker)
    else if e.Receive? && p.InQueue? then InQueue(p.index - 1)
    else p
  }

  /** The place a step's new or old holder comes from. */
  function CameFrom(s: State, e: Event, p: Place, capacity: nat): Place {
    if !Enabled(s, e, capacity) then p
    else if e.Enqueue? && p == InQueue(|s.queue|) then AtSubmitter(e.thread)
    else if e.Receive? && p == AtWorker(e.worker) then InQueue(0)
    else if e.Receive? && p.InQueue? then InQueue(p.index + 1)
    else p
  }

  /** Whoever holds a URL after a step held it before, or has just been admitted with it. */
  lemma HolderBefore(s: State, e: Event, capacity: nat, evict: bool, p: Place, u: Url)
    requires Holds(Step(s, e, capacity, evict), p, u)
    ensures Holds(s, CameFrom(s, e, p, capacity), u)
         || (Decide(s, e) == Accepted && p == AtSubmitter(e.thread) && u == e.url)
  {
    match p {
      case AtSubmitter(_) => SubmitterBefore(s, e, capacity, evict, p, u);
      case InQueue(_) => QueuedBefore(s, e, capacity, evict, p, u);
      case AtWorker(_) => WorkerBefore(s, e, capacity, evict, p, u);
    }
  }

  lemma SubmitterBefore(s: State, e: Event, capacity: nat, evict: bool, p: Place, u: Url)
    requires p.AtSubmitter? && Holds(Step(s, e, capacity, evict), p, u)
    ensures Holds(s, CameFrom(s, e, p, capacity), u)
         || (Decide(s, e) == Accepted && p == AtSubmitter(e.thread) && u == e.url)
  {
  }

  lemma QueuedBefore(s: State, e: Event, capacity: nat, evict: bool, p: Place, u: Url)
    requires p.InQueue? && Holds(Step(s, e, capacity, evict), p, u)
    ensures Holds(s, CameFrom(s, e, p, capacity), u)
  {
  }

  lemma WorkerBefore(s: State, e: Event, capacity: nat, evict: bool, p: Place, u: Url)
    requires p.AtWorker? && Holds(Step(s, e, capacity, evict), p, u)
    ensures Holds(s, CameFrom(s, e, p, capacity), u)
  {
  }

  /** Releasing one URL does not drop the entry of another. */
  lemma ReleaseSparesOthers(s: State, e: Event, capacity: nat, evict: bool, p: Place, u: Url)
    requires Accounted(s, capacity) && (e.Release? || e.Finish?) && Enabled(s, e, capacity)
    requires Holds(Step(s, e, capacity, evict), p, u)
    ensures u in Step(s, e, capacity, evict).inFlight
  {
    var freed := if e.Release? then AtSubmitter(e.thread) else AtWorker(e.worker);
    var v := if e.Release? then s.submitters[e.thread].url else s.workers[e.worker].url;
    assert Holds(s, freed, v) && Holds(s, p, u);
  }

  /** A URL the step does not free is still held, at the place it moved to. */
  lemma HolderAfter(s: State, e: Event, capacity: nat, evict: bool, p: Place, u: Url)
    requires Holds(s, p, u)
    requires Enabled(s, e, capacity) && e.Release? ==> p != AtSubmitter(e.thread)
    requires Enabled(s, e, capacity) && e.Finish? ==> p != AtWorker(e.worker)
    ensures Holds(Step(s, e, capacity, evict), Moved(s, e, p, capacity), u)
  {
    match p {
      case AtSubmitter(_) => SubmitterAfter(s, e, capacity, evict, p, u);
      case InQueue(_) => QueuedAfter(s, e, capacity, evict, p, u);
      case AtWorker(_) => WorkerAfter(s, e, capacity, evict, p, u);
    }
  }

  lemma SubmitterAfter(s: State, e: Event, capacity: nat, evict: bool, p: Place, u: Url)
    requires p.AtSubmitter? && Holds(s, p, u)
    requires Enabled(s, e, capacity) && e.Release? ==> p != AtSubmitter(e.thread)
    ensures Holds(Step(s, e, capacity, evict), Moved(s, e, p, capacity), u)
  {
  }

  lemma QueuedAfter(s: State, e: Event, capacity: nat, evict: bool, p: Place, u: Url)
    requires p.InQueue? && Holds(s, p, u)
    ensures Holds(Step(s, e, capacity, evict), Moved(s, e, p, capacity), u)
  {
  }

  lemma WorkerAfter(s: State, e: Event, capacity: nat, evict: bool, p: Place, u: Url)
    requires p.AtWorker? && Holds(s, p, u)
    requires Enabled(s, e, capacity) && e.Finish? ==> p != AtWorker(e.worker)
    ensures Holds(Step(s, e, capacity, evict), Moved(s, e, p, capacity), u)
  {
  }

  lemma InFlightIsHeld(s: State, e: Event, capacity: nat, evict: bool, u: Url)
    requires Accounted(s, capacity)
    requires u in Step(s, e, capacity, evict).inFlight
    ensures exists p :: Holds(Step(s, e, capacity, evict), p, u)
  {
    if u in s.inFlight {
      var p :| Holds(s, p, u);
      HolderAfter(s, e, capacity, evict, p, u);
    } else {
      assert Holds(Step(s, e, capacity, evict), AtSubmitter(e.thread), u);
    }
  }

  lemma HeldIsInFlight(s: State, e: Event, capacity: nat, evict: bool, p: Place, u: Url)
    requires Accounted(s, capacity)
    requires Holds(Step(s, e, capacity, evict), p, u)
    ensures u in Step(s, e, capacity, evict).inFlight
  {
    if (e.Release? || e.Finish?) && Enabled(s, e, capacity) {
      ReleaseSparesOthers(s, e, capacity, evict, p, u);
    } else {
      HolderBefore(s, e, capacity, evict, p, u);
    }
  }

  lemma HeldOnce(s: State, e: Event, capacity: nat, evict: bool, p: Place, q: Place, u: Url)
    requires Accounted(s, capacity)
    requires Holds(Step(s, e, capacity, evict), p, u) && Holds(Step(s, e, capacity, evict), q, u)
    ensures p == q
  {
    HolderBefore(s, e, capacity, evict, p, u);
    HolderBefore(s, e, capacity, evict, q, u);
    var p0, q0 := CameFrom(s, e, p, capacity), CameFrom(s, e, q, capacity);
    if Holds(s, p0, u) && Holds(s, q0, u) {
      assert p0 == q0;
    }
  }

  lemma StepKeepsAccounted(s: State, e: Event, capacity: nat, evict: bool)
    requires Accounted(s, capacity)
    ensures Accounted(Step(s, e, capacity, evict), capacity)
  {
    var s' := Step(s, e, capacity, evict);
    forall p, u | Holds(s', p, u) ensures u in s'.inFlight {
      HeldIsInFlight(s, e, capacity, evict, p, u);
    }
    forall u | u in s'.inFlight ensures exists p :: Holds(s', p, u) {
      InFlightIsHeld(s, e, capacity, evict, u);
    }
    forall p, q, u | Holds(s', p, u) && Holds(s', q, u) ensures p == q {
      HeldOnce(s, e, capacity, evict, p, q, u);
    }
  }

  /** Main result: the accounting holds after every interleaving. */
  lemma {:induction false} RunKeepsAccounted(s: State, events: seq<Event>, capacity: nat, evict: bool)
    requires Accounted(s, capacity)
    ensures Accounted(Run(s, events, capacity, evict), capacity)
    decreases |events|
  {
    if events != [] {
      StepKeepsAccounted(s, events[0], capacity, evict);
      RunKeepsAccounted(Step(s, events[0], capacity, evict), events[1..], capacity, evict);
    }
  }

  /**
    What the accounting means from the initial state on: no URL is at two workers, in the queue
    twice, or both queued and at a worker; the queue is bounded; and when nobody holds anything
    the in-flight set is empty.
   */
  lemma {:induction false} DispatcherSafety(workers: set<nat>, start: real, events: seq<Event>, capacity: nat,
                                            evict: bool)
    ensures var s := Run(Initial(workers, start), events, capacity, evict);
            && |s.queue| <= capacity
            && (forall v, w, u :: Holds(s, AtWorker(v), u) && Holds(s, AtWorker(w), u) ==> v == w)
            && (forall i, j :: 0 <= i < j < |s.queue| ==> s.queue[i] != s.queue[j])
            && (forall w, u :: Holds(s, AtWorker(w), u) ==> u !in s.queue)
            && (s.submitters == map[] && s.queue == [] && (forall w, u :: !Holds(s, AtWorker(w), u)) ==>
                s.inFlight == {})
  {
    var s0 := Initial(workers, start);
    assert Accounted(s0, capacity);
    RunKeepsAccounted(s0, events, capacity, evict);
    var s := Run(s0, events, capacity, evict);
    forall i, j | 0 <= i < j < |s.queue| ensures s.queue[i] != s.queue[j] {
      assert Holds(s, InQueue(i), s.queue[i]) && Holds(s, InQueue(j), s.queue[j]);
    }
    forall w, u | Holds(s, AtWorker(w), u) ensures u !in s.queue {
      if u in s.queue {
        var i :| 0 <= i < |s.queue| && s.queue[i] == u;
        assert Holds(s, InQueue(i), u);
      }
    }
  }

  /** Nobody sees a cancellation before there was one, nor overlooks it after. */
  lemma {:induction false} CancelledIff(s: State, events: seq<Event>, capacity: nat, evict: bool)
    ensures Run(s, events, capacity, evict).cancelled <==> s.cancelled || Cancel in events
    ensures !Initial({}, 0.0).cancelled
    decreases |events|
  {
    if events != [] {
      CancelledIff(Step(s, events[0], capacity, evict), events[1..], capacity, evict);
    }
  }

  // ---------------------------------------------------------------- releasing entries

  predicate AllStopped(s: State) {
    forall w :: w in s.workers ==> s.workers[w].Stopped?
  }

  /** Some continuation takes the URL out of the in-flight set. */
  ghost predicate Releasable(s: State, u: Url, capacity: nat) {
    exists events: seq<Event> :: u !in Run(s, events, capacity, true).inFlight
  }

  lemma {:induction false} RunConcat(s: State, a: seq<Event>, b: seq<Event>, capacity: nat, evict: bool)
    ensures Run(s, a + b, capacity, evict) == Run(Run(s, a, capacity, evict), b, capacity, evict)
    decreases |a|
  {
    if a == [] {
      assert a + b == b;
    } else {
      assert (a + b)[1..] == a[1..] + b;
      RunConcat(Step(s, a[0], capacity, evict), a[1..], b, capacity, evict);
    }
  }

  lemma RunOne(s: State, e: Event, capacity: nat, evict: bool)
    ensures Run(s, [e], capacity, evict) == Step(s, e, capacity, evict)
  {
    assert [e][1..] == [];
  }

  lemma RunTwo(s: State, d: Event, e: Event, capacity: nat, evict: bool)
    ensures Run(s, [d, e], capacity, evict) == Step(Step(s, d, capacity, evict), e, capacity, evict)
  {
    assert [d, e][1..] == [e];
    RunOne(Step(s, d, capacity, evict), e, capacity, evict);
  }

  /** A submitter, or a worker holding a URL, can always give it back. */
  lemma HolderCanRelease(s: State, p: Place, u: Url, capacity: nat)
    requires Accounted(s, capacity) && Holds(s, p, u) && !p.InQueue?
    requires p.AtSubmitter? ==> s.cancelled || |s.queue| >= capacity
    ensures Releasable(s, u, capacity)
  {
    if p.AtSubmitter? {
      var give := if s.cancelled then SeeCancelled(p.thread) else SeeQueueFull(p.thread);
      var release := Release(p.thread);
      RunTwo(s, give, release, capacity, true);
      assert u !in Run(s, [give, release], capacity, true).inFlight;
    } else {
      RunTwo(s, IngestReturns(p.worker), Finish(p.worker), capacity, true);
      assert u !in Run(s, [IngestReturns(p.worker), Finish(p.worker)], capacity, true).inFlight;
    }
  }

  lemma ReleasableLater(s: State, e: Event, u: Url, capacity: nat)
    requires Releasable(Step(s, e, capacity, true), u, capacity)
    ensures Releasable(s, u, capacity)
  {
    var events: seq<Event> :| u !in Run(Step(s, e, capacity, true), events, capacity, true).inFlight;
    assert ([e] + events)[1..] == events;
    assert u !in Run(s, [e] + events, capacity, true).inFlight;
  }

  /** The head of the queue can be freed as soon as one worker is not stopped; then the next one. */
  lemma {:induction false} QueuedCanRelease(s: State, i: nat, w: nat, capacity: nat)
    requires Accounted(s, capacity) && i < |s.queue| && w in s.workers && !s.workers[w].Stopped?
    ensures Releasable(s, s.queue[i], capacity)
    decreases i, match s.workers[w] case Ingesting(_) => 2 case Returned(_) => 1 case _ => 0
  {
    var u := s.queue[i];
    var e := match s.workers[w] case Idle => Receive(w) case Ingesting(_) => IngestReturns(w) case _ => Finish(w);
    var s' := Step(s, e, capacity, true);
    StepKeepsAccounted(s, e, capacity, true);
    if s.workers[w].Idle? {
      if i == 0 {
        assert Holds(s', AtWorker(w), u);
        HolderCanRelease(s', AtWorker(w), u, capacity);
      } else {
        assert s'.queue[i - 1] == u;
        QueuedCanRelease(s', i - 1, w, capacity);
      }
    } else {
      QueuedCanRelease(s', i, w, capacity);
    }
    ReleasableLater(s, e, u, capacity);
  }

  /** Nothing dequeues any more once every worker has returned on cancellation. */
  lemma {:induction false} StrandedForever(s: State, u: Url, events: seq<Event>, capacity: nat)
    requires Accounted(s, capacity) && u in s.queue && AllStopped(s)
    ensures u in Run(s, events, capacity, true).inFlight
    decreases |events|
  {
    var i :| 0 <= i < |s.queue| && s.queue[i] == u;
    assert Holds(s, InQueue(i), u);
    if events != [] {
      var s' := Step(s, events[0], capacity, true);
      StepKeepsAccounted(s, events[0], capacity, true);
      assert s'.queue[i] == u;
      StrandedForever(s', u, events[1..], capacity);
    }
  }

  /**
    "No entry leaks", exactly: an in-flight URL can still be released unless it sits in the queue
    after cancellation has stopped every worker.
   */
  lemma EntryReleasableUnlessStranded(s: State, u: Url, capacity: nat)
    requires Accounted(s, capacity) && u in s.inFlight
    ensures Releasable(s, u, capacity) <==> !(u in s.queue && AllStopped(s))
  {
    if u in s.queue && AllStopped(s) {
      forall events: seq<Event> ensures u in Run(s, events, capacity, true).inFlight {
        StrandedForever(s, u, events, capacity);
      }
    } else {
      var p :| Holds(s, p, u);
      match p {
        case AtWorker(_) => HolderCanRelease(s, p, u, capacity);
        case InQueue(i) =>
          var w :| w in s.workers && !s.workers[w].Stopped?;
          QueuedCanRelease(s, i, w, capacity);
        case AtSubmitter(t) => SubmitterCanRelease(s, t, capacity);
      }
    }
  }

  lemma QueueOne(u: Url)
    ensures var s := Step(Step(Initial({0}, 0.0), Submit(0, 1, u, 0.0), 1, true), Enqueue(0), 1, true);
            s.queue == [u] && s.workers == map[0 := Idle]
  {
    var s0 := Initial({0}, 0.0);
    assert Decide(s0, Submit(0, 1, u, 0.0)) == Accepted;
    var s1 := Step(s0, Submit(0, 1, u, 0.0), 1, true);
    assert s1.queue == [] && s1.submitters == map[0 := Admitted(u)] && s1.workers == map[0 := Idle];
  }

  lemma StopOnly(s: State, w: nat, capacity: nat)
    requires s.workers == map[w := Idle]
    ensures var s' := Step(Step(s, Cancel, capacity, true), Stop(w), capacity, true);
            s'.queue == s.queue && AllStopped(s')
  {
  }

  /** The stranded case is real: admitted, queued, cancelled, and the only worker returns before receiving. */
  lemma StrandingReachable(u: Url)
    ensures var s := Run(Initial({0}, 0.0), [Submit(0, 1, u, 0.0), Enqueue(0)] + [Cancel, Stop(0)], 1, true);
            u in s.queue && AllStopped(s) && u in s.inFlight && !Releasable(s, u, 1)
  {
    var s0 := Initial({0}, 0.0);
    var filling, stopping := [Submit(0, 1, u, 0.0), Enqueue(0)], [Cancel, Stop(0)];
    RunTwo(s0, Submit(0, 1, u, 0.0), Enqueue(0), 1, true);
    QueueOne(u);
    var s2 := Run(s0, filling, 1, true);
    RunTwo(s2, Cancel, Stop(0), 1, true);
    StopOnly(s2, 0, 1);
    RunConcat(s0, filling, stopping, 1, true);
    RunKeepsAccounted(s0, filling + stopping, 1, true);
    QueuedIsStranded(Run(s0, filling + stopping, 1, true), u, 1);
  }

  lemma QueuedIsStranded(s: State, u: Url, capacity: nat)
    requires Accounted(s, capacity) && s.queue == [u] && AllStopped(s)
    ensures u in s.inFlight && !Releasable(s, u, capacity)
  {
    assert Holds(s, InQueue(0), u);
    EntryReleasableUnlessStranded(s, u, capacity);
  }

  /** An admitted submitter abandons on a full queue or a cancellation; otherwise cancel first. */
  lemma SubmitterCanRelease(s: State, t: nat, capacity: nat)
    requires Accounted(s, capacity) && t in s.submitters
    ensures Releasable(s, s.submitters[t].url, capacity)
  {
    var u := s.submitters[t].url;
    if s.submitters[t].Abandoning? {
      RunOne(s, Release(t), capacity, true);
      assert u !in Run(s, [Release(t)], capacity, true).inFlight;
    } else {
      var s' := Step(s, Cancel, capacity, true);
      StepKeepsAccounted(s, Cancel, capacity, true);
      assert Holds(s', AtSubmitter(t), u);
      HolderCanRelease(s', AtSubmitter(t), u, capacity);
      ReleasableLater(s, Cancel, u, capacity);
    }
  }

  // ---------------------------------------------------------------- eviction is invisible

  /** `users` is `full` but for limiters the sweep has dropped, and those are full again by now. */
  ghost predicate Forgets(users: map<UserId, Limiter>, full: map<UserId, Limiter>, now: real) {
    && (forall u :: u in users ==> u in full && users[u] == full[u])
    && (forall u :: u in full ==>
        full[u].lastSeen <= now && full[u].bucket.last <= full[u].lastSeen && full[u].bucket.tokens >= 0.0)
    && (forall u :: u in full && u !in users ==> Level(full[u].bucket, now) == BURST)
  }

  ghost predicate SameButForgotten(s: State, full: State) {
    s == full.(users := s.users) && Forgets(s.users, full.users, full.clock)
  }

  lemma LevelGrows(b: Bucket, t: real, now: real)
    requires b.last <= t <= now
    ensures Level(b, t) <= Level(b, now) <= Level(b, t) + (now - t) / SECONDS_PER_TOKEN
  {
  }

  lemma WaitingForgets(users: map<UserId, Limiter>, full: map<UserId, Limiter>, t: real, now: real)
    requires Forgets(users, full, t) && t <= now
    ensures Forgets(users, full, now)
  {
    forall u | u in full && u !in users ensures Level(full[u].bucket, now) == BURST {
      LevelGrows(full[u].bucket, t, now);
    }
  }

  /** A forgotten limiter is made anew with as many tokens as it would have had. */
  lemma SameLevel(users: map<UserId, Limiter>, full: map<UserId, Limiter>, user: UserId, now: real)
    requires Forgets(users, full, now)
    ensures Level(LimiterFor(users, user, now).bucket, now) == Level(LimiterFor(full, user, now).bucket, now)
    ensures Take(LimiterFor(users, user, now).bucket, now) == Take(LimiterFor(full, user, now).bucket, now)
  {
  }

  lemma TouchingForgets(users: map<UserId, Limiter>, full: map<UserId, Limiter>, user: UserId, now: real)
    requires Forgets(users, full, now)
    ensures Forgets(Touched(users, user, now), Touched(full, user, now), now)
  {
    SameLevel(users, full, user, now);
  }

  /** Two idle hours fill a bucket that needs one. */
  lemma SweepingForgets(users: map<UserId, Limiter>, full: map<UserId, Limiter>, now: real)
    requires Forgets(users, full, now)
    ensures Forgets(Swept(users, now), full, now)
  {
    forall u | u in full && u !in Swept(users, now) ensures Level(full[u].bucket, now) == BURST {
      if u in users {
        assert now - full[u].bucket.last > IDLE_SECONDS;
      }
    }
  }

  lemma SubmitKeepsRelation(s: State, full: State, e: Event)
    requires e.Submit? && SameButForgotten(s, full)
    ensures Decide(s, e) == Decide(full, e)
    ensures SameButForgotten(AfterSubmit(s, e, true), AfterSubmit(full, e, false))
  {
    if Decide(full, e) != Ignored {
      WaitingForgets(s.users, full.users, full.clock, e.now);
      SameLevel(s.users, full.users, e.user, e.now);
      TouchingForgets(s.users, full.users, e.user, e.now);
      SweepingForgets(Touched(s.users, e.user, e.now), Touched(full.users, e.user, e.now), e.now);
    }
  }

  lemma StepKeepsRelation(s: State, full: State, e: Event, capacity: nat)
    requires SameButForgotten(s, full)
    ensures Decide(s, e) == Decide(full, e)
    ensures SameButForgotten(Step(s, e, capacity, true), Step(full, e, capacity, false))
  {
    if e.Submit? {
      SubmitKeepsRelation(s, full, e);
    }
  }

  function Verdicts(s: State, events: seq<Event>, capacity: nat, evict: bool): (verdicts: seq<Verdict>)
    ensures |verdicts| == |events|
    decreases |events|
  {
    if events == [] then [] else
      [Decide(s, events[0])] + Verdicts(Step(s, events[0], capacity, evict), events[1..], capacity, evict)
  }

  lemma {:induction false} EvictionInvisibleFrom(s: State, full: State, events: seq<Event>, capacity: nat)
    requires SameButForgotten(s, full)
    ensures Verdicts(s, events, capacity, true) == Verdicts(full, events, capacity, false)
    decreases |events|
  {
    if events != [] {
      StepKeepsRelation(s, full, events[0], capacity);
      EvictionInvisibleFrom(Step(s, events[0], capacity, true), Step(full, events[0], capacity, false), events[1..],
                            capacity);
    }
  }

  /** Main result: a dispatcher that evicts idle limiters decides as one that never evicts. */
  lemma EvictionInvisible(workers: set<nat>, start: real, events: seq<Event>, capacity: nat)
    ensures Verdicts(Initial(workers, start), events, capacity, true)
         == Verdicts(Initial(workers, start), events, capacity, false)
  {
    EvictionInvisibleFrom(Initial(workers, start), Initial(workers, start), events, capacity);
  }

  // ---------------------------------------------------------------- the rate bound

  /** Acceptances of one user whose submission time lies in [from, to]. */
  function Acceptances(events: seq<Event>, verdicts: seq<Verdict>, user: UserId, from: real, to: real): nat
    requires |events| == |verdicts|
    decreases |events|
  {
    if events == [] then 0 else
      (if verdicts[0] == Accepted && events[0].Submit? && events[0].user == user && from <= events[0].now <= to
       then 1 else 0)
      + Acceptances(events[1..], verdicts[1..], user, from, to)
  }

  /** Tokens a bucket can still hand out from `clock` on, within [from, to]. */
  function Spendable(b: Bucket, clock: real, from: real, to: real): real {
    var t := if clock < from then from else clock;
    if to < t then 0.0 else Level(b, t) + (to - t) / SECONDS_PER_TOKEN
  }

  function Potential(s: State, user: UserId, from: real, to: real): real {
    Spendable(LimiterFor(s.users, user, s.clock).bucket, s.clock, from, to)
  }

  ghost predicate BucketsBehindClock(s: State) {
    forall u :: u in s.users ==> s.users[u].bucket.last <= s.clock && s.users[u].bucket.tokens >= 0.0
  }

  lemma WaitingEarnsNothingNew(b: Bucket, clock: real, now: real, from: real, to: real)
    requires b.last <= clock <= now && b.tokens >= 0.0
    ensures 0.0 <= Spendable(b, now, from, to) <= Spendable(b, clock, from, to)
  {
  }

  lemma TakingSpends(b: Bucket, now: real, from: real, to: real)
    requires b.last <= now && b.tokens >= 0.0 && Allows(b, now)
    ensures 0.0 <= Spendable(Take(b, now), now, from, to)
    ensures (if from <= now <= to then 1.0 else 0.0)
            + Spendable(Take(b, now), now, from, to) <= Spendable(b, now, from, to)
  {
  }

  lemma FreshIsFull(now: real, clock: real, from: real, to: real)
    requires clock <= now
    ensures Spendable(Bucket(BURST, now), now, from, to) == Spendable(Bucket(BURST, clock), now, from, to)
  {
  }

  lemma BucketAfter(s: State, e: Event, capacity: nat, user: UserId)
    requires Decide(s, e) != Ignored
    ensures var s' := Step(s, e, capacity, false);
            var b := LimiterFor(s.users, user, e.now).bucket;
            && s'.clock == e.now
            && LimiterFor(s'.users, user, e.now).bucket
               == if Decide(s, e) == Accepted && e.user == user then Take(b, e.now) else b
  {
  }

  lemma StepKeepsBuckets(s: State, e: Event, capacity: nat)
    requires BucketsBehindClock(s)
    ensures BucketsBehindClock(Step(s, e, capacity, false))
  {
  }

  lemma StepSpends(s: State, e: Event, capacity: nat, user: UserId, from: real, to: real)
    requires BucketsBehindClock(s)
    ensures BucketsBehindClock(Step(s, e, capacity, false))
    ensures (if Decide(s, e) == Accepted && e.user == user && from <= e.now <= to then 1.0 else 0.0)
            + Potential(Step(s, e, capacity, false), user, from, to) <= Potential(s, user, from, to)
  {
    StepKeepsBuckets(s, e, capacity);
    if Decide(s, e) != Ignored {
      BucketAfter(s, e, capacity, user);
      var b := LimiterFor(s.users, user, s.clock).bucket;
      WaitingEarnsNothingNew(b, s.clock, e.now, from, to);
      FreshIsFull(e.now, s.clock, from, to);
      if Decide(s, e) == Accepted && e.user == user {
        var now := LimiterFor(s.users, user, e.now).bucket;
        assert Spendable(now, e.now, from, to) == Spendable(b, e.now, from, to);
        TakingSpends(now, e.now, from, to);
      }
    }
  }

  lemma {:induction false} SpendingBound(s: State, events: seq<Event>, capacity: nat, user: UserId, from: real,
                                         to: real)
    requires BucketsBehindClock(s)
    ensures Acceptances(events, Verdicts(s, events, capacity, false), user, from, to) as real
            <= Potential(s, user, from, to)
    decreases |events|
  {
    if events == [] {
      assert Potential(s, user, from, to) >= 0.0;
    } else {
      var s' := Step(s, events[0], capacity, false);
      StepSpends(s, events[0], capacity, user, from, to);
      SpendingBound(s', events[1..], capacity, user, from, to);
      assert Verdicts(s, events, capacity, false)[1..] == Verdicts(s', events[1..], capacity, false);
    }
  }

  /** Main result: at most 20 acceptances, plus one per three minutes, in every interval of every run. */
  lemma RateBound(workers: set<nat>, start: real, events: seq<Event>, capacity: nat, user: UserId, from: real, to: real)
    requires from <= to
    ensures Acceptances(events, Verdicts(Initial(workers, start), events, capacity, true), user, from, to) as real
         <= 20.0 + (to - from) / 180.0
  {
    EvictionInvisible(workers, start, events, capacity);
    SpendingBound(Initial(workers, start), events, capacity, user, from, to);
  }

  // ---------------------------------------------------------------- exactly who is refused

  lemma {:induction false} VerdictsConcat(s: State, a: seq<Event>, b: seq<Event>, capacity: nat, evict: bool)
    ensures Verdicts(s, a + b, capacity, evict)
            == Verdicts(s, a, capacity, evict) + Verdicts(Run(s, a, capacity, evict), b, capacity, evict)
    decreases |a|
  {
    if a == [] {
      assert a + b == b;
    } else {
      assert (a + b)[1..] == a[1..] + b;
      VerdictsConcat(Step(s, a[0], capacity, evict), a[1..], b, capacity, evict);
    }
  }

  lemma {:induction false} AcceptancesConcat(a: seq<Event>, b: seq<Event>, x: seq<Verdict>, y: seq<Verdict>,
                                             user: UserId, from: real, to: real)
    requires |a| == |x| && |b| == |y|
    ensures Acceptances(a + b, x + y, user, from, to)
            == Acceptances(a, x, user, from, to) + Acceptances(b, y, user, from, to)
    decreases |a|
  {
    if a == [] {
      assert a + b == b && x + y == y;
    } else {
      assert (a + b)[1..] == a[1..] + b && (x + y)[1..] == x[1..] + y;
      AcceptancesConcat(a[1..], b, x[1..], y, user, from, to);
    }
  }

  /** The bucket has lost no more than `n` tokens since it was full at `from`. */
  predicate Covers(b: Bucket, from: real, n: nat) {
    b.tokens + (from - b.last) / 180.0 >= 20.0 - n as real
  }

  ghost predicate Covered(s: State, user: UserId, from: real, n: nat) {
    && from <= s.clock && BucketsBehindClock(s)
    && (user in s.users ==> Covers(s.users[user].bucket, from, n))
  }

  /** One acceptance costs one token, or starts a new account when the bucket was full. */
  lemma StepCovers(s: State, e: Event, capacity: nat, user: UserId, from: real, n: nat) returns (from': real, n': nat)
    requires Covered(s, user, from, n)
    ensures Covered(Step(s, e, capacity, false), user, from', n')
    ensures from <= from' && (if from' == from then n' <= n + 1 else n' <= 1)
    ensures n' > (if from' == from then n else 0) ==> Decide(s, e) == Accepted && e.user == user && from' <= e.now
  {
    from', n' := from, n;
    StepKeepsBuckets(s, e, capacity);
    if Decide(s, e) != Ignored {
      BucketAfter(s, e, capacity, user);
      if user !in s.users {
        from', n' := e.now, 0;
      }
      if Decide(s, e) == Accepted && e.user == user {
        var b := LimiterFor(s.users, user, e.now).bucket;
        if b.tokens + (e.now - b.last) / 180.0 > 20.0 {
          from', n' := e.now, 1;
        } else {
          n' := n' + 1;
        }
      }
    }
  }

  lemma {:induction false} RunCovers(s: State, events: seq<Event>, capacity: nat, user: UserId, from: real, n: nat,
                                     to: real)
    returns (from': real, n': nat)
    requires Covered(s, user, from, n) && Run(s, events, capacity, false).clock <= to
    ensures Covered(Run(s, events, capacity, false), user, from', n') && from <= from'
    ensures n' <= (if from' == from then n else 0)
                  + Acceptances(events, Verdicts(s, events, capacity, false), user, from', to)
    decreases |events|
  {
    from', n' := from, n;
    if events != [] {
      var s' := Step(s, events[0], capacity, false);
      var f, m := StepCovers(s, events[0], capacity, user, from, n);
      ClockGrows(s', events[1..], capacity);
      from', n' := RunCovers(s', events[1..], capacity, user, f, m, to);
      assert Verdicts(s, events, capacity, false)[1..] == Verdicts(s', events[1..], capacity, false);
    }
  }

  lemma {:induction false} ClockGrows(s: State, events: seq<Event>, capacity: nat)
    ensures s.clock <= Run(s, events, capacity, false).clock
    decreases |events|
  {
    if events != [] {
      ClockGrows(Step(s, events[0], capacity, false), events[1..], capacity);
    }
  }

  /** Some interval up to `now` in which one acceptance more would exceed 20 plus one per three minutes. */
  ghost predicate Exhausted(events: seq<Event>, verdicts: seq<Verdict>, user: UserId, now: real)
    requires |events| == |verdicts|
  {
    exists from: real :: from <= now && OverBudget(events, verdicts, user, from, now)
  }

  predicate OverBudget(events: seq<Event>, verdicts: seq<Verdict>, user: UserId, from: real, now: real)
    requires |events| == |verdicts|
  {
    Acceptances(events, verdicts, user, from, now) as real + 1.0 > 20.0 + (now - from) / 180.0
  }

  lemma RefusedIsExhausted(workers: set<nat>, start: real, events: seq<Event>, capacity: nat, e: Event)
    requires Decide(Run(Initial(workers, start), events, capacity, false), e) == RateLimited
    ensures Exhausted(events, Verdicts(Initial(workers, start), events, capacity, false), e.user, e.now)
  {
    var s0 := Initial(workers, start);
    var s := Run(s0, events, capacity, false);
    var from, n := RunCovers(s0, events, capacity, e.user, start, 0, e.now);
    var acceptances := Acceptances(events, Verdicts(s0, events, capacity, false), e.user, from, e.now);
    var b := LimiterFor(s.users, e.user, e.now).bucket;
    assert Level(b, e.now) < 1.0;
    assert e.user in s.users && Covers(b, from, n);
    assert OverBudget(events, Verdicts(s0, events, capacity, false), e.user, from, e.now);
  }

  lemma AcceptedIsNotExhausted(workers: set<nat>, start: real, events: seq<Event>, capacity: nat, e: Event, from: real)
    requires Decide(Run(Initial(workers, start), events, capacity, true), e) == Accepted && from <= e.now
    ensures !OverBudget(events, Verdicts(Initial(workers, start), events, capacity, true), e.user, from, e.now)
  {
    var s0 := Initial(workers, start);
    var s, verdicts := Run(s0, events, capacity, true), Verdicts(s0, events, capacity, true);
    RateBound(workers, start, events + [e], capacity, e.user, from, e.now);
    VerdictsConcat(s0, events, [e], capacity, true);
    assert Verdicts(s, [e], capacity, true) == [Accepted] by {
      assert [e][1..] == [];
    }
    AcceptancesConcat(events, [e], verdicts, [Accepted], e.user, from, e.now);
    assert Acceptances([e], [Accepted], e.user, from, e.now) == 1 by {
      assert [e][1..] == [] && [Accepted][1..] == [];
    }
  }

  /**
    Main result: after every run a submission of a URL that is not in flight is refused if and only
    if in some interval one acceptance more would exceed 20 plus one per three minutes.
   */
  lemma RateLimitedIff(workers: set<nat>, start: real, events: seq<Event>, capacity: nat, e: Event)
    requires var s := Run(Initial(workers, start), events, capacity, true);
             e.Submit? && e.thread !in s.submitters && s.clock <= e.now && e.url !in s.inFlight
    ensures var s := Run(Initial(workers, start), events, capacity, true);
            && (Decide(s, e) == RateLimited <==>
                Exhausted(events, Verdicts(Initial(workers, start), events, capacity, true), e.user, e.now))
            && (Decide(s, e) == Accepted <==> Decide(s, e) != RateLimited)
  {
    var s0 := Initial(workers, start);
    var s := Run(s0, events, capacity, true);
    EvictionInvisible(workers, start, events, capacity);
    EvictionInvisible(workers, start, events + [e], capacity);
    VerdictsConcat(s0, events, [e], capacity, true);
    VerdictsConcat(s0, events, [e], capacity, false);
    var never := Run(s0, events, capacity, false);
    assert Verdicts(s, [e], capacity, true)[0] == Decide(s, e)
      && Verdicts(never, [e], capacity, false)[0] == Decide(never, e);
    assert Decide(s, e) == Decide(never, e) by {
      assert Verdicts(s0, events + [e], capacity, true)[|events|] == Decide(s, e);
      assert Verdicts(s0, events + [e], capacity, false)[|events|] == Decide(never, e);
    }
    if Decide(s, e) == RateLimited {
      RefusedIsExhausted(workers, start, events, capacity, e);
    } else {
      forall from: real | from <= e.now
        ensures !OverBudget(events, Verdicts(s0, events, capacity, true), e.user, from, e.now)
      {
        AcceptedIsNotExhausted(workers, start, events, capacity, e, from);
      }
    }
  }

  /** A URL already being worked on is no new work: nothing changes but the time. */
  lemma DuplicateIsFree(s: State, e: Event, capacity: nat)
    requires e.Submit? && e.thread !in s.submitters && s.clock <= e.now && e.url in s.inFlight
    ensures Decide(s, e) == AlreadyInFlight && Step(s, e, capacity, true) == s.(clock := e.now)
  {
  }

  // ---------------------------------------------------------------- the dispatcher object

  /** What becomes of an offer: `preferDone` chooses when both sending and cancellation are ready. */
  function OfferArm(s: State, thread: nat, preferDone: bool, capacity: nat): Event {
    if |s.queue| < capacity && !(s.cancelled && preferDone) then Enqueue(thread)
    else if s.cancelled then SeeCancelled(thread)
    else SeeQueueFull(thread)
  }

  /** A whole call of `Submit`; steps its outcome leaves nothing to do for are not enabled. */
  function SubmitEvents(s: State, submit: Event, preferDone: bool, capacity: nat): seq<Event>
    requires submit.Submit?
  {
    [submit, OfferArm(s, submit.thread, preferDone, capacity), Release(submit.thread)]
  }

  lemma RunThree(s: State, c: Event, d: Event, e: Event, capacity: nat, evict: bool)
    ensures Run(s, [c, d, e], capacity, evict)
            == Step(Step(Step(s, c, capacity, evict), d, capacity, evict), e, capacity, evict)
  {
    assert [c, d, e][1..] == [d, e];
    RunTwo(Step(s, c, capacity, evict), d, e, capacity, evict);
  }

  /** What admission does to the fields the offer looks at. */
  lemma AdmittedState(s: State, submit: Event, preferDone: bool, capacity: nat)
    requires submit.Submit? && submit.thread !in s.submitters
    ensures var s1 := Step(s, submit, capacity, true);
            && s1.queue == s.queue && s1.cancelled == s.cancelled
            && OfferArm(s1, submit.thread, preferDone, capacity) == OfferArm(s, submit.thread, preferDone, capacity)
            && (Decide(s, submit) != Accepted ==> s1.submitters == s.submitters && s1.inFlight == s.inFlight)
            && (Decide(s, submit) == Accepted ==>
                  && s1.submitters == s.submitters[submit.thread := Admitted(submit.url)]
                  && submit.url !in s.inFlight && s1.inFlight == s.inFlight + {submit.url})
  {
    var s1 := Step(s, submit, capacity, true);
    assert s1 == if Enabled(s, submit, capacity) then AfterSubmit(s, submit, true) else s;
    assert Decide(s, submit) == Ignored <==> !Enabled(s, submit, capacity);
  }

  /** The URL is queued and in flight, or neither. */
  lemma QueuedOrNothing(s: State, submit: Event, preferDone: bool, capacity: nat)
    requires submit.Submit? && submit.thread !in s.submitters
    ensures var queued := Decide(s, submit) == Accepted && OfferArm(s, submit.thread, preferDone, capacity).Enqueue?;
            var s' := Run(s, SubmitEvents(s, submit, preferDone, capacity), capacity, true);
            && s'.queue == (if queued then s.queue + [submit.url] else s.queue)
            && s'.inFlight == (if queued then s.inFlight + {submit.url} else s.inFlight)
  {
    SubmitOutcomes(s, submit, preferDone, capacity);
    AdmittedState(s, submit, preferDone, capacity);
  }

  /** What such a run amounts to, case by case. */
  lemma SubmitOutcomes(s: State, submit: Event, preferDone: bool, capacity: nat)
    requires submit.Submit? && submit.thread !in s.submitters
    ensures var arm, release := OfferArm(s, submit.thread, preferDone, capacity), Release(submit.thread);
            var s1 := Step(s, submit, capacity, true);
            var s2 := Step(s1, arm, capacity, true);
            Run(s, SubmitEvents(s, submit, preferDone, capacity), capacity, true)
            == if Decide(s, submit) != Accepted then s1
               else if arm.Enqueue? then s2
               else Step(s2, release, capacity, true)
  {
    var arm := OfferArm(s, submit.thread, preferDone, capacity);
    RunThree(s, submit, arm, Release(submit.thread), capacity, true);
    var s1 := Step(s, submit, capacity, true);
    AdmittedState(s, submit, preferDone, capacity);
    if Decide(s, submit) != Accepted {
      assert submit.thread !in s1.submitters;
    } else if arm.Enqueue? {
      assert submit.thread !in Step(s1, arm, capacity, true).submitters;
    }
  }

  /**
    The mutable object behind the events: each method is the code of one event, or of several in a
    row. The program counters of the goroutines and the last clock reading are ghost.
   */
  class Dispatcher {
    const capacity: nat
    const workers: nat
    var users: map<UserId, Limiter>
    var inFlight: set<Url>
    var jobs: seq<Url>
    var cancelled: bool
    ghost var submitters: map<nat, Submitter>
    ghost var pool: map<nat, Worker>
    ghost var clock: real

    ghost predicate Valid()
      reads this
    {
      1 <= workers <= capacity && |jobs| <= capacity
    }

    ghost function View(): State
      reads this
    {
      State(users, inFlight, jobs, submitters, pool, cancelled, clock)
    }

    constructor (workers: int, queueSize: int, ghost start: real)
      ensures Valid() && View() == Initial(WorkerIds(this.workers), start)
      ensures this.workers == if workers < 1 then 1 else workers
      ensures this.capacity == if queueSize < this.workers then this.workers else queueSize
    {
      var w: nat := if workers < 1 then 1 else workers;
      this.workers := w;
      this.capacity := if queueSize < w then w else queueSize;
      users, inFlight, jobs, cancelled := map[], {}, [], false;
      submitters, clock := map[], start;
      pool := Initial(WorkerIds(w), start).workers;
    }

    /** The locked section of `Submit`. */
    method Admit(ghost thread: nat, user: UserId, url: Url, now: real) returns (verdict: Verdict)
      requires Valid() && thread !in submitters && clock <= now
      modifies this`users, this`inFlight, this`submitters, this`clock
      ensures Valid()
      ensures verdict == Decide(old(View()), Submit(thread, user, url, now))
      ensures View() == Step(old(View()), Submit(thread, user, url, now), capacity, true)
    {
      clock := now;
      if url in inFlight {
        return AlreadyInFlight;
      }
      var allowed := Charge(user, now);
      if !allowed {
        return RateLimited;
      }
      inFlight := inFlight + {url};
      if |users| > EVICTION_THRESHOLD {
        Sweep(now);
      }
      submitters := submitters[thread := Admitted(url)];
      return Accepted;
    }

    /** The user's limiter, made on first use, and a token from it if there is one. */
    method Charge(user: UserId, now: real) returns (allowed: bool)
      modifies this`users
      ensures users == Touched(old(users), user, now)
      ensures allowed <==> Allows(LimiterFor(old(users), user, now).bucket, now)
    {
      if user !in users {
        users := users[user := Limiter(Bucket(BURST, now), now)];
      }
      var entry := users[user];
      users := users[user := entry.(lastSeen := now)];
      allowed := Allows(entry.bucket, now);
      if allowed {
        users := users[user := Limiter(Take(entry.bucket, now), now)];
      }
    }

    /** The eviction loop: visits the entries in an arbitrary order. */
    method Sweep(now: real)
      modifies this`users
      ensures users == Evicted(old(users), now)
    {
      ghost var before := users;
      var pending := users.Keys;
      while exists id :: id in pending
        invariant pending <= before.Keys
        invariant users
                  == map u | u in before && (u in pending || !(now - before[u].lastSeen > IDLE_SECONDS)) :: before[u]
        decreases pending
      {
        var id :| id in pending;
        if now - users[id].lastSeen > IDLE_SECONDS {
          users := users - {id};
        }
        pending := pending - {id};
      }
    }

    /** The `select` of an admitted submitter, and the arm it took. */
    method Offer(ghost thread: nat, url: Url, preferDone: bool) returns (sent: bool)
      requires Valid() && thread in submitters && submitters[thread] == Admitted(url)
      modifies this`jobs, this`submitters
      ensures Valid()
              && View() == Step(old(View()), OfferArm(old(View()), thread, preferDone, capacity), capacity, true)
      ensures sent <==> thread !in submitters
      ensures !sent ==> thread in submitters && submitters[thread] == Abandoning(url)
    {
      sent := |jobs| < capacity && !(cancelled && preferDone);
      if sent {
        jobs := jobs + [url];
        submitters := submitters - {thread};
      } else {
        submitters := submitters[thread := Abandoning(url)];
      }
    }

    /** `finish`, called by a submitter that gave up or by a worker whose ingestion returned. */
    method FinishUrl(ghost caller: Place, url: Url)
      requires Holds(View(), caller, url) && !caller.InQueue?
      requires caller.AtSubmitter? ==> submitters[caller.thread].Abandoning?
      requires caller.AtWorker? ==> pool[caller.worker].Returned?
      modifies this`inFlight, this`submitters, this`pool
      ensures var finish := if caller.AtSubmitter? then Release(caller.thread) else Finish(caller.worker);
              View() == Step(old(View()), finish, capacity, true)
    {
      inFlight := inFlight - {url};
      if caller.AtSubmitter? {
        submitters := submitters - {caller.thread};
      } else {
        pool := pool[caller.worker := Idle];
      }
    }

    /** The whole of `Submit`: admission, the select, and giving up. */
    method SubmitUrl(ghost thread: nat, user: UserId, url: Url, now: real, preferDone: bool)
      returns (verdict: Verdict, queued: bool)
      requires Valid() && thread !in submitters && clock <= now
      modifies this
      ensures Valid() && cancelled == old(cancelled)
      ensures verdict == Decide(old(View()), Submit(thread, user, url, now))
      ensures var events := SubmitEvents(old(View()), Submit(thread, user, url, now), preferDone, capacity);
              View() == Run(old(View()), events, capacity, true)
      ensures queued <==> verdict == Accepted && |old(jobs)| < capacity && !(old(cancelled) && preferDone)
      ensures jobs == if queued then old(jobs) + [url] else old(jobs)
      ensures inFlight == if queued then old(inFlight) + {url} else old(inFlight)
    {
      SubmitOutcomes(View(), Submit(thread, user, url, now), preferDone, capacity);
      QueuedOrNothing(View(), Submit(thread, user, url, now), preferDone, capacity);
      AdmittedState(View(), Submit(thread, user, url, now), preferDone, capacity);
      queued := false;
      verdict := Admit(thread, user, url, now);
      if verdict == Accepted {
        queued := Offer(thread, url, preferDone);
        if !queued {
          FinishUrl(AtSubmitter(thread), url);
        }
      }
    }

    /** The worker's select: it returns on cancellation, or receives the oldest job. */
    method TakeJob(ghost worker: nat, preferDone: bool) returns (job: Option<Url>)
      requires Valid() && worker in pool && pool[worker].Idle?
      modifies this`jobs, this`pool
      ensures Valid()
      ensures job.Some? <==> old(jobs) != [] && !(cancelled && preferDone)
      ensures job.Some? ==> View() == Step(old(View()), Receive(worker), capacity, true)
                            && pool[worker] == Ingesting(job.value)
      ensures job.None? ==> View() == Step(old(View()), Stop(worker), capacity, true)
    {
      if cancelled && (preferDone || jobs == []) {
        pool := pool[worker := Stopped];
        return None;
      }
      if jobs == [] {
        return None;
      }
      job := Some(jobs[0]);
      pool := pool[worker := Ingesting(jobs[0])];
      jobs := jobs[1..];
    }

    /** One turn of the worker's loop; whatever the ingestion answers, the URL is finished. */
    method WorkOnce(ghost worker: nat, preferDone: bool) returns (job: Option<Url>)
      requires Valid() && worker in pool && pool[worker].Idle?
      modifies this
      ensures Valid()
      ensures job.Some? <==> old(jobs) != [] && !(old(cancelled) && preferDone)
      ensures job.Some? ==>
                View() == Run(old(View()), [Receive(worker), IngestReturns(worker), Finish(worker)], capacity, true)
      ensures job.None? ==> View() == Step(old(View()), Stop(worker), capacity, true)
    {
      RunThree(View(), Receive(worker), IngestReturns(worker), Finish(worker), capacity, true);
      job := TakeJob(worker, preferDone);
      if job.Some? {
        pool := pool[worker := Returned(job.value)];
        FinishUrl(AtWorker(worker), job.value);
      }
    }
  }
}
