/** The send loop of one Alertmanager: a bounded queue of alerts, a channel with room for one wake-up,
    and any number of adders beside one consumer and one draining stopper.

    The class has the operations as they run alone.  The state machine below it interleaves them, one
    event for each region under the mutex and each channel operation. */
module SendLoop {

  /** The last capacity-many elements. */
  function Newest<A>(s: seq<A>, capacity: nat): (r: seq<A>)
    ensures |r| <= capacity && |r| <= |s| && r == s[|s| - |r|..]
    ensures |r| == |s| || |r| == capacity
  {
    if |s| > capacity then s[|s| - capacity..] else s
  }

  /** Length of the next batch. */
  function BatchLength(queued: nat, maxBatchSize: nat): (n: nat)
    ensures n <= queued && n <= maxBatchSize && (n == queued || n == maxBatchSize)
  {
    if queued > maxBatchSize then maxBatchSize else queued
  }

  /** How many of the queued alerts are delivered, batch by batch. */
  ghost function DeliveredOf<A>(queue: seq<A>, maxBatchSize: nat, delivered: seq<A> -> bool): (n: nat)
    requires maxBatchSize > 0
    ensures n <= |queue|
  {
    if |queue| == 0 then 0
    else if |queue| <= maxBatchSize then if delivered(queue) then |queue| else 0
    else
      (if delivered(queue[..maxBatchSize]) then maxBatchSize else 0)
      + DeliveredOf(queue[maxBatchSize..], maxBatchSize, delivered)
  }

  class SendLoop<A> {
    const capacity: nat
    const maxBatchSize: nat
    var queue: seq<A>
    var hasWork: bool
    var stopped: bool
    /** Metrics. */
    var sent: nat
    var dropped: nat

    constructor (capacity: nat, maxBatchSize: nat)
      ensures this.capacity == capacity && this.maxBatchSize == maxBatchSize
      ensures queue == [] && !hasWork && !stopped && sent == 0 && dropped == 0
    {
      this.capacity, this.maxBatchSize := capacity, maxBatchSize;
      queue, hasWork, stopped, sent, dropped := [], false, false, 0, 0;
    }

    /** Leaves the newest alerts, in order, and counts all others as dropped. */
    method Add(alerts: seq<A>)
      requires |queue| <= capacity
      modifies this`queue, this`hasWork, this`dropped
      ensures stopped ==> queue == old(queue) && hasWork == old(hasWork) && dropped == old(dropped)
      ensures !stopped ==> queue == Newest(old(queue) + alerts, capacity) && hasWork
      ensures |queue| + dropped == old(|queue| + dropped) + (if stopped then 0 else |alerts|)
    {
      if stopped {
        return;
      }
      var rest, lost := alerts, 0;
      var d := |rest| - capacity;
      if d > 0 {
        lost := lost + d;
        rest := rest[d..];
      }
      d := |queue| + |rest| - capacity;
      if d > 0 {
        lost := lost + d;
        queue := queue[d..];
      }
      queue := queue + rest;
      NotifyWork();
      dropped := dropped + lost;
    }

    /** A wake-up that is already pending is enough. */
    method NotifyWork()
      modifies this`hasWork
      ensures hasWork == (old(hasWork) || !stopped)
    {
      if !stopped {
        hasWork := true;
      }
    }

    method NextBatch() returns (batch: seq<A>)
      modifies this`queue
      ensures batch + queue == old(queue) && |batch| == BatchLength(old(|queue|), maxBatchSize)
    {
      if |queue| > maxBatchSize {
        batch := queue[..maxBatchSize];
        queue := queue[maxBatchSize..];
      } else {
        batch := queue;
        queue := [];
      }
    }

    /** Sends the oldest alerts, as many as fit in a batch.  They count as sent if they are delivered, and
        as dropped if they are not; an empty batch counts as neither. */
    method SendOneBatch(delivered: seq<A> -> bool)
      modifies this`queue, this`sent, this`dropped
      ensures
        var n := if old(|queue|) < maxBatchSize then old(|queue|) else maxBatchSize;
        && queue == old(queue)[n..]
        && sent == old(sent) + (if delivered(old(queue)[..n]) then n else 0)
        && dropped == old(dropped) + (if delivered(old(queue)[..n]) then 0 else n)
    {
      ghost var before := queue;
      var batch := NextBatch();
      assert batch == before[..|batch|] && queue == before[|batch|..];
      if |batch| == 0 || delivered(batch) {
        sent := sent + |batch|;
      } else {
        dropped := dropped + |batch|;
      }
    }

    method DrainQueue(delivered: seq<A> -> bool)
      requires maxBatchSize > 0
      modifies this`queue, this`sent, this`dropped
      ensures queue == [] && sent + dropped == old(|queue| + sent + dropped)
      ensures sent == old(sent) + DeliveredOf(old(queue), maxBatchSize, delivered)
    {
      while |queue| > 0
        invariant |queue| + sent + dropped == old(|queue| + sent + dropped)
        invariant sent + DeliveredOf(queue, maxBatchSize, delivered) ==
          old(sent) + DeliveredOf(old(queue), maxBatchSize, delivered)
        decreases |queue|
      {
        assert queue[..|queue|] == queue;
        SendOneBatch(delivered);
      }
    }
  }

  // ---------------------------------------------------------------- interleavings

  datatype Adder<A> =
    | Entering(alerts: seq<A>)  // found the loop not stopped, and waits for the mutex
    | Holding                   // has changed the queue, and still holds the mutex

  /** A batch being sent; from is the place of its first alert in the order of acceptance. */
  datatype Batch<A> = Batch(alerts: seq<A>, from: nat)

  datatype Consumer<A> = Top | Waiting | Woken | Sending(batch: Batch<A>) | Counting | Notifying | Exited

  datatype Stopper<A> = Idle | Measuring | Taking | Flushing(flushed: Batch<A>) | Finished

  datatype Config = Config(capacity: nat, maxBatchSize: nat)

  /** The last four fields are history: the accepted alerts in order, how many of them have left the
      queue, and the places of those that were sent and dropped. */
  datatype State<A> = State(
    queue: seq<A>, hasWork: bool, stopped: bool,
    adders: map<nat, Adder<A>>, consumer: Consumer<A>, stopper: Stopper<A>,
    accepted: seq<A>, head: nat, sent: set<nat>, dropped: set<nat>)

  function Init<A>(): State<A> {
    State([], false, false, map[], Top, Idle, [], 0, {}, {})
  }

  datatype Event<A> =
    | AddCheck(id: nat, alerts: seq<A>)
    | AddEnqueue(id: nat)
    | AddNotify(id: nat, giveUp: bool)
    | LoopTop
    | LoopStop
    | LoopReceive
    | LoopTake
    | LoopSend(delivered: bool)
    | LoopCount
    | LoopNotify(giveUp: bool)
    | StopClose
    | DrainCount
    | DrainTake
    | DrainSend(delivered: bool)

  ghost predicate MutexFree<A>(s: State<A>) {
    forall id :: id in s.adders ==> !s.adders[id].Holding?
  }

  /** When the loop is stopped a notifier may give up; otherwise it must not. */
  ghost predicate Enabled<A>(s: State<A>, e: Event<A>) {
    match e
    case AddCheck(id, _) => id !in s.adders
    case AddEnqueue(id) => id in s.adders && s.adders[id].Entering? && MutexFree(s)
    case AddNotify(id, giveUp) => id in s.adders && s.adders[id].Holding? && (giveUp ==> s.stopped)
    case LoopTop => s.consumer.Top?
    case LoopStop => s.consumer.Waiting? && s.stopped
    case LoopReceive => s.consumer.Waiting? && s.hasWork
    case LoopTake => s.consumer.Woken? && MutexFree(s)
    case LoopSend(delivered) => s.consumer.Sending? && (|s.consumer.batch.alerts| == 0 ==> delivered)
    case LoopCount => s.consumer.Counting? && MutexFree(s)
    case LoopNotify(giveUp) => s.consumer.Notifying? && (giveUp ==> s.stopped)
    case StopClose => s.stopper.Idle?
    case DrainCount => s.stopper.Measuring? && MutexFree(s)
    case DrainTake => s.stopper.Taking? && MutexFree(s)
    case DrainSend(delivered) => s.stopper.Flushing? && (|s.stopper.flushed.alerts| == 0 ==> delivered)
  }

  predicate Within(a: nat, b: nat, i: nat) {
    a <= i < b
  }

  ghost function Range(a: nat, b: nat): (r: set<nat>) {
    set i: nat | i < b && Within(a, b, i)
  }

  ghost function Places<A>(b: Batch<A>): set<nat> {
    Range(b.from, b.from + |b.alerts|)
  }

  /** The batch is settled, one way or the other. */
  ghost function Settle<A>(s: State<A>, b: Batch<A>, delivered: bool): State<A> {
    if delivered then s.(sent := s.sent + Places(b)) else s.(dropped := s.dropped + Places(b))
  }

  function NextBatchOf<A>(c: Config, s: State<A>): Batch<A> {
    Batch(s.queue[..BatchLength(|s.queue|, c.maxBatchSize)], s.head)
  }

  function AfterTake<A>(c: Config, s: State<A>): State<A> {
    var n := BatchLength(|s.queue|, c.maxBatchSize);
    s.(queue := s.queue[n..], head := s.head + n)
  }

  ghost function Enqueue<A>(c: Config, s: State<A>, alerts: seq<A>): State<A> {
    var queue := Newest(s.queue + alerts, c.capacity);
    var lost := |s.queue| + |alerts| - |queue|;
    s.(queue := queue, accepted := s.accepted + alerts, head := s.head + lost,
       dropped := s.dropped + Range(s.head, s.head + lost))
  }

  ghost function Apply<A>(c: Config, s: State<A>, e: Event<A>): State<A>
    requires Enabled(s, e)
  {
    match e
    case AddCheck(id, alerts) => if s.stopped then s else s.(adders := s.adders[id := Entering(alerts)])
    case AddEnqueue(id) => Enqueue(c, s, s.adders[id].alerts).(adders := s.adders[id := Holding])
    case AddNotify(id, giveUp) => s.(hasWork := s.hasWork || !giveUp, adders := s.adders - {id})
    case LoopTop => s.(consumer := if s.stopped then Exited else Waiting)
    case LoopStop => s.(consumer := Exited)
    case LoopReceive => s.(hasWork := false, consumer := Woken)
    case LoopTake => AfterTake(c, s).(consumer := Sending(NextBatchOf(c, s)))
    case LoopSend(delivered) => Settle(s, s.consumer.batch, delivered).(consumer := Counting)
    case LoopCount => s.(consumer := if |s.queue| > 0 then Notifying else Top)
    case LoopNotify(giveUp) => s.(hasWork := s.hasWork || !giveUp, consumer := Top)
    case StopClose => s.(stopped := true, stopper := Measuring)
    case DrainCount => s.(stopper := if |s.queue| > 0 then Taking else Finished)
    case DrainTake => AfterTake(c, s).(stopper := Flushing(NextBatchOf(c, s)))
    case DrainSend(delivered) => Settle(s, s.stopper.flushed, delivered).(stopper := Measuring)
  }

  /** Every interleaving: a sequence of events, each enabled in its turn. */
  ghost predicate Run<A>(c: Config, s: State<A>, events: seq<Event<A>>)
    decreases |events|
  {
    events == [] || (Enabled(s, events[0]) && Run(c, Apply(c, s, events[0]), events[1..]))
  }

  ghost function Final<A>(c: Config, s: State<A>, events: seq<Event<A>>): State<A>
    requires Run(c, s, events)
    decreases |events|
  {
    if events == [] then s else Final(c, Apply(c, s, events[0]), events[1..])
  }

  // ---------------------------------------------------------------- invariants

  ghost function LoopPlaces<A>(s: State<A>): set<nat> {
    if s.consumer.Sending? then Places(s.consumer.batch) else {}
  }

  ghost function DrainPlaces<A>(s: State<A>): set<nat> {
    if s.stopper.Flushing? then Places(s.stopper.flushed) else {}
  }

  /** In how many places the i-th accepted alert is. */
  ghost function Copies<A>(s: State<A>, i: nat): nat {
    (if i >= s.head then 1 else 0) + (if i in LoopPlaces(s) then 1 else 0) + (if i in DrainPlaces(s) then 1 else 0)
    + (if i in s.sent then 1 else 0) + (if i in s.dropped then 1 else 0)
  }

  ghost predicate Genuine<A>(s: State<A>, b: Batch<A>) {
    b.from + |b.alerts| <= s.head <= |s.accepted| && b.alerts == s.accepted[b.from..][..|b.alerts|]
  }

  /** The queue is bounded and holds the accepted alerts that were not taken off it, in order; every
      accepted alert is in exactly one place. */
  ghost predicate Conserved<A>(c: Config, s: State<A>) {
    && |s.queue| <= c.capacity
    && s.head + |s.queue| == |s.accepted| && s.queue == s.accepted[s.head..]
    && (s.consumer.Sending? ==> Genuine(s, s.consumer.batch))
    && (s.stopper.Flushing? ==> Genuine(s, s.stopper.flushed))
    && (forall i: nat :: Copies(s, i) == 1)
  }

  ghost predicate HolderExists<A>(s: State<A>) {
    exists id :: id in s.adders && s.adders[id].Holding?
  }

  /** While the loop runs and alerts are queued, a wake-up is pending or some thread is committed to
      looking at the queue again. */
  ghost predicate Awake<A>(s: State<A>) {
    !s.stopped && s.queue != [] ==>
      || s.hasWork
      || s.consumer.Woken? || s.consumer.Sending? || s.consumer.Counting? || s.consumer.Notifying?
      || HolderExists(s)
  }

  /** Only one adder is inside the mutex, and the drainer runs only after the stop. */
  ghost predicate Orderly<A>(s: State<A>) {
    && (forall a, b :: a in s.adders && b in s.adders && s.adders[a].Holding? && s.adders[b].Holding? ==> a == b)
    && (s.stopped <==> !s.stopper.Idle?)
    && (s.consumer.Exited? ==> s.stopped)
  }

  ghost predicate Inv<A>(c: Config, s: State<A>) {
    Conserved(c, s) && Awake(s) && Orderly(s)
  }

  lemma GenuineStays<A>(s: State<A>, r: State<A>, alerts: seq<A>, b: Batch<A>)
    requires Genuine(s, b) && r.accepted == s.accepted + alerts && s.head <= r.head <= |r.accepted|
    ensures Genuine(r, b)
  {
    assert r.accepted[b.from..][..|b.alerts|] == s.accepted[b.from..][..|b.alerts|];
  }

  lemma EnqueueQueue<A>(c: Config, s: State<A>, alerts: seq<A>)
    requires Conserved(c, s)
    ensures
      var r := Enqueue(c, s, alerts);
      && |r.queue| <= c.capacity && r.head + |r.queue| == |r.accepted| && r.queue == r.accepted[r.head..]
      && s.head <= r.head
  {
    var r := Enqueue(c, s, alerts);
    assert s.queue + alerts == r.accepted[s.head..];
  }

  lemma EnqueueConserves<A>(c: Config, s: State<A>, alerts: seq<A>)
    requires Conserved(c, s)
    ensures Conserved(c, Enqueue(c, s, alerts))
  {
    var r := Enqueue(c, s, alerts);
    EnqueueQueue(c, s, alerts);
    if s.consumer.Sending? {
      GenuineStays(s, r, alerts, s.consumer.batch);
    }
    if s.stopper.Flushing? {
      GenuineStays(s, r, alerts, s.stopper.flushed);
    }
    forall i: nat ensures Copies(r, i) == 1 {
      assert Copies(s, i) == 1;
    }
  }

  lemma TakeConserves<A>(c: Config, s: State<A>)
    requires Conserved(c, s)
    ensures
      var r := AfterTake(c, s);
      && |r.queue| <= c.capacity && r.head + |r.queue| == |r.accepted| && r.queue == r.accepted[r.head..]
      && Genuine(r, NextBatchOf(c, s))
      && (forall b :: Genuine(s, b) ==> Genuine(r, b))
      && (forall i: nat :: i in Places(NextBatchOf(c, s)) <==> s.head <= i < r.head)
  {
  }

  lemma LoopTakeConserves<A>(c: Config, s: State<A>)
    requires Conserved(c, s) && Enabled(s, LoopTake)
    ensures Conserved(c, Apply(c, s, LoopTake))
  {
    TakeConserves(c, s);
    forall i: nat ensures Copies(Apply(c, s, LoopTake), i) == 1 {
      assert Copies(s, i) == 1;
    }
  }

  lemma DrainTakeConserves<A>(c: Config, s: State<A>)
    requires Conserved(c, s) && Enabled(s, DrainTake)
    ensures Conserved(c, Apply(c, s, DrainTake))
  {
    TakeConserves(c, s);
    forall i: nat ensures Copies(Apply(c, s, DrainTake), i) == 1 {
      assert Copies(s, i) == 1;
    }
  }

  lemma SendConserves<A>(c: Config, s: State<A>, e: Event<A>)
    requires Conserved(c, s) && Enabled(s, e) && (e.LoopSend? || e.DrainSend?)
    ensures Conserved(c, Apply(c, s, e))
  {
    forall i: nat ensures Copies(Apply(c, s, e), i) == 1 {
      assert Copies(s, i) == 1;
    }
  }

  /** Nothing that conservation speaks of has changed. */
  lemma SameConserves<A>(c: Config, s: State<A>, r: State<A>)
    requires Conserved(c, s)
    requires r.queue == s.queue && r.accepted == s.accepted && r.head == s.head && r.sent == s.sent && r.dropped == s.dropped
    requires if s.consumer.Sending? then r.consumer == s.consumer else !r.consumer.Sending?
    requires if s.stopper.Flushing? then r.stopper == s.stopper else !r.stopper.Flushing?
    ensures Conserved(c, r)
  {
    forall i: nat ensures Copies(r, i) == 1 {
      assert Copies(s, i) == 1;
    }
  }

  lemma StepConserves<A>(c: Config, s: State<A>, e: Event<A>)
    requires Conserved(c, s) && Enabled(s, e)
    ensures Conserved(c, Apply(c, s, e))
  {
    match e
    case AddEnqueue(id) =>
      EnqueueConserves(c, s, s.adders[id].alerts);
      SameConserves(c, Enqueue(c, s, s.adders[id].alerts), Apply(c, s, e));
    case LoopTake => LoopTakeConserves(c, s);
    case DrainTake => DrainTakeConserves(c, s);
    case LoopSend(_) => SendConserves(c, s, e);
    case DrainSend(_) => SendConserves(c, s, e);
    case _ => SameConserves(c, s, Apply(c, s, e));
  }

  lemma StepOrderly<A>(c: Config, s: State<A>, e: Event<A>)
    requires Orderly(s) && Enabled(s, e)
    ensures Orderly(Apply(c, s, e))
  {
  }

  lemma StepAwake<A>(c: Config, s: State<A>, e: Event<A>)
    requires Awake(s) && Orderly(s) && Enabled(s, e)
    ensures Awake(Apply(c, s, e))
  {
    var r := Apply(c, s, e);
    match e
    case AddEnqueue(id) =>
      assert r.adders[id].Holding?;
    case AddCheck(id, _) =>
      if HolderExists(s) {
        var h :| h in s.adders && s.adders[h].Holding?;
        assert h in r.adders && r.adders[h].Holding?;
      }
    case _ =>
  }

  /** Safety over every interleaving. */
  lemma {:induction false} Safety<A>(c: Config, s: State<A>, events: seq<Event<A>>)
    requires Inv(c, s) && Run(c, s, events)
    ensures Inv(c, Final(c, s, events))
    decreases |events|
  {
    if events != [] {
      StepConserves(c, s, events[0]);
      StepOrderly(c, s, events[0]);
      StepAwake(c, s, events[0]);
      Safety(c, Apply(c, s, events[0]), events[1..]);
    }
  }

  lemma SafetyFromStart<A>(c: Config, events: seq<Event<A>>)
    requires Run(c, Init(), events)
    ensures Inv(c, Final(c, Init(), events))
  {
    Safety(c, Init(), events);
  }

  // ---------------------------------------------------------------- how alerts are settled

  /** Place i is in the batch that event e sends, with that outcome. */
  ghost predicate SentBy<A>(s: State<A>, e: Event<A>, delivered: bool, i: nat)
    requires Enabled(s, e)
  {
    match e
    case LoopSend(d) => d == delivered && s.consumer.batch.from <= i < s.consumer.batch.from + |s.consumer.batch.alerts|
    case DrainSend(d) => d == delivered && s.stopper.flushed.from <= i < s.stopper.flushed.from + |s.stopper.flushed.alerts|
    case _ => false
  }

  lemma EnqueueDrops<A>(c: Config, s: State<A>, alerts: seq<A>, i: nat)
    requires Conserved(c, s)
    ensures
      var r := Enqueue(c, s, alerts);
      && r.sent == s.sent
      && (i in r.dropped <==> i in s.dropped || (s.head <= i && i + c.capacity < |s.accepted| + |alerts|))
  {
    EnqueueQueue(c, s, alerts);
  }

  lemma SendSettles<A>(s: State<A>, b: Batch<A>, delivered: bool, i: nat)
    ensures
      var r := Settle(s, b, delivered);
      && (i in r.sent <==> i in s.sent || (delivered && b.from <= i < b.from + |b.alerts|))
      && (i in r.dropped <==> i in s.dropped || (!delivered && b.from <= i < b.from + |b.alerts|))
  {
  }

  /** An alert comes to count as sent exactly when a batch with it is delivered, and as dropped exactly when
      a batch with it fails, or when it is queued and as many newer alerts as the queue can hold are. */
  lemma StepSettles<A>(c: Config, s: State<A>, e: Event<A>, i: nat)
    requires Conserved(c, s) && Enabled(s, e)
    ensures i in Apply(c, s, e).sent <==> i in s.sent || SentBy(s, e, true, i)
    ensures i in Apply(c, s, e).dropped <==>
      || i in s.dropped || SentBy(s, e, false, i)
      || (e.AddEnqueue? && s.head <= i && i + c.capacity < |s.accepted| + |s.adders[e.id].alerts|)
  {
    match e
    case AddEnqueue(id) => EnqueueDrops(c, s, s.adders[id].alerts, i);
    case LoopSend(delivered) => SendSettles(s, s.consumer.batch, delivered, i);
    case DrainSend(delivered) => SendSettles(s, s.stopper.flushed, delivered, i);
    case _ =>
  }

  /** A batch consists of the oldest queued alerts, and is not larger than allowed. */
  lemma TakesOldest<A>(c: Config, s: State<A>, e: Event<A>)
    requires Conserved(c, s) && Enabled(s, e) && (e.LoopTake? || e.DrainTake?)
    ensures
      var r := Apply(c, s, e);
      var b := if e.LoopTake? then r.consumer.batch else r.stopper.flushed;
      && b.from == s.head && b.alerts + r.queue == s.queue
      && |b.alerts| <= c.maxBatchSize && (|b.alerts| == c.maxBatchSize || r.queue == [])
  {
  }

  // ---------------------------------------------------------------- no lost wake-up

  /** Distance of the consumer from the queue's becoming empty. */
  ghost function Distance<A>(s: State<A>): nat {
    var phase := match s.consumer
      case Sending(_) => 6
      case Counting => 5
      case Notifying => 4
      case Top => 3
      case Waiting => 2
      case Woken => 1
      case Exited => 0;
    20 * |s.queue| + 2 * phase + (if HolderExists(s) then 1 else 0)
  }

  /** An event of the consumer, or of an adder that leaves the mutex. */
  ghost predicate Forced<A>(e: Event<A>) {
    e.LoopTop? || e.LoopReceive? || e.LoopTake? || e.LoopSend? || e.LoopCount? || e.LoopNotify? || e.AddNotify?
  }

  /** While alerts are queued the consumer gets closer to them, unless an adder has to leave the
      mutex first. */
  lemma ForcedStep<A>(c: Config, s: State<A>) returns (e: Event<A>)
    requires Inv(c, s) && !s.stopped && s.queue != [] && c.maxBatchSize > 0
    ensures Enabled(s, e) && Forced(e) && !Apply(c, s, e).stopped
    ensures Distance(Apply(c, s, e)) < Distance(s)
  {
    if HolderExists(s) {
      var id :| id in s.adders && s.adders[id].Holding?;
      e := AddNotify(id, false);
      assert forall a :: a in Apply(c, s, e).adders ==> a in s.adders && a != id;
    } else {
      match s.consumer
      case Sending(_) => e := LoopSend(true);
      case Counting => e := LoopCount;
      case Notifying => e := LoopNotify(false);
      case Top => e := LoopTop;
      case Waiting => e := LoopReceive;
      case Woken => e := LoopTake;
      assert !HolderExists(Apply(c, s, e));
    }
  }

  /** From every state of a running loop the consumer can empty the queue, without new adds, in a
      bounded number of events. */
  lemma {:induction false} ConsumerEmpties<A>(c: Config, s: State<A>) returns (events: seq<Event<A>>)
    requires Inv(c, s) && !s.stopped && c.maxBatchSize > 0
    ensures Run(c, s, events) && Final(c, s, events).queue == []
    ensures |events| <= Distance(s) && forall k :: 0 <= k < |events| ==> Forced(events[k])
    decreases Distance(s)
  {
    events := [];
    if s.queue != [] {
      var e := ForcedStep(c, s);
      var r := Apply(c, s, e);
      StepConserves(c, s, e);
      StepOrderly(c, s, e);
      StepAwake(c, s, e);
      var rest := ConsumerEmpties(c, r);
      events := [e] + rest;
      assert events[1..] == rest;
    }
  }

  // ---------------------------------------------------------------- stopping

  /** No add is under way that could still bring alerts. */
  ghost predicate NoLateAlerts<A>(s: State<A>) {
    forall id :: id in s.adders && s.adders[id].Entering? ==> s.adders[id].alerts == []
  }

  ghost predicate NothingLeft<A>(s: State<A>) {
    s.stopped && NoLateAlerts(s) && (s.stopper.Finished? ==> s.queue == [])
  }

  lemma {:induction false} NothingLeftBehind<A>(c: Config, s: State<A>, events: seq<Event<A>>)
    requires NothingLeft(s) && Run(c, s, events)
    ensures NothingLeft(Final(c, s, events))
    decreases |events|
  {
    if events != [] {
      NothingLeftStep(c, s, events[0]);
      NothingLeftBehind(c, Apply(c, s, events[0]), events[1..]);
    }
  }

  lemma NothingLeftStep<A>(c: Config, s: State<A>, e: Event<A>)
    requires NothingLeft(s) && Enabled(s, e)
    ensures NothingLeft(Apply(c, s, e))
  {
    if e.AddEnqueue? {
      assert s.queue + s.adders[e.id].alerts == s.queue;
    }
  }

  ghost function DrainDistance<A>(s: State<A>): nat {
    var phase := match s.stopper
      case Flushing(_) => 3
      case Measuring => 2
      case Taking => 1
      case _ => 0;
    10 * |s.queue| + phase
  }

  /** Left alone, the drainer comes to its end, and no adder moves. */
  lemma {:induction false} DrainerFinishes<A>(c: Config, s: State<A>) returns (events: seq<Event<A>>)
    requires c.maxBatchSize > 0 && MutexFree(s) && !s.stopper.Idle? && (s.stopper.Taking? ==> s.queue != [])
    ensures Run(c, s, events)
    ensures
      var f := Final(c, s, events);
      f.stopper.Finished? && f.adders == s.adders
    decreases DrainDistance(s)
  {
    events := [];
    if !s.stopper.Finished? {
      var e := match s.stopper
        case Flushing(_) => DrainSend(true)
        case Measuring => DrainCount
        case _ => DrainTake;
      var rest := DrainerFinishes(c, Apply(c, s, e));
      events := [e] + rest;
      assert events[1..] == rest;
    }
  }

  lemma {:induction false} RunThen<A>(c: Config, s: State<A>, first: seq<Event<A>>, e: Event<A>)
    requires Run(c, s, first) && Enabled(Final(c, s, first), e)
    ensures Run(c, s, first + [e]) && Final(c, s, first + [e]) == Apply(c, Final(c, s, first), e)
    decreases |first|
  {
    if first == [] {
      assert first + [e] == [e];
    } else {
      RunThen(c, Apply(c, s, first[0]), first[1..], e);
      assert (first + [e])[1..] == first[1..] + [e];
    }
  }

  /** An adder that was past its check when the loop was stopped can leave alerts in a queue that
      nobody drains any more. */
  lemma LateAlertsStay<A>(c: Config, s: State<A>, id: nat) returns (events: seq<Event<A>>)
    requires c.maxBatchSize > 0 && c.capacity > 0 && Orderly(s) && s.stopper.Measuring?
    requires id in s.adders && s.adders[id].Entering? && s.adders[id].alerts != []
    ensures Run(c, s, events)
    ensures Final(c, s, events).stopper.Finished? && Final(c, s, events).queue != []
  {
    if HolderExists(s) {
      var h :| h in s.adders && s.adders[h].Holding?;
      var e := AddNotify(h, false);
      var r := Apply(c, s, e);
      assert MutexFree(r);
      var rest := LateAlertsStayFree(c, r, id);
      events := [e] + rest;
      assert events[1..] == rest;
    } else {
      events := LateAlertsStayFree(c, s, id);
    }
  }

  lemma LateAlertsStayFree<A>(c: Config, s: State<A>, id: nat) returns (events: seq<Event<A>>)
    requires c.maxBatchSize > 0 && c.capacity > 0 && MutexFree(s) && s.stopper.Measuring?
    requires id in s.adders && s.adders[id].Entering? && s.adders[id].alerts != []
    ensures Run(c, s, events)
    ensures Final(c, s, events).stopper.Finished? && Final(c, s, events).queue != []
  {
    var drained := DrainerFinishes(c, s);
    RunThen(c, s, drained, AddEnqueue(id));
    events := drained + [AddEnqueue(id)];
  }

  ghost predicate CanStrand<A(!new)>(c: Config, s: State<A>) {
    exists events :: Run(c, s, events) && Final(c, s, events).stopper.Finished? && Final(c, s, events).queue != []
  }

  /** Stopping can leave alerts behind exactly when an add with alerts is past its check at that time. */
  lemma StopStrandsIff<A(!new)>(c: Config, s: State<A>)
    requires Inv(c, s) && s.stopper.Idle? && c.maxBatchSize > 0
    ensures CanStrand(c, Apply(c, s, StopClose)) <==> c.capacity > 0 && !NoLateAlerts(s)
  {
    var r := Apply(c, s, StopClose);
    StepConserves(c, s, StopClose);
    StepOrderly(c, s, StopClose);
    StepAwake(c, s, StopClose);
    if c.capacity > 0 && !NoLateAlerts(s) {
      var id :| id in s.adders && s.adders[id].Entering? && s.adders[id].alerts != [];
      var events := LateAlertsStay(c, r, id);
    }
    if CanStrand(c, r) {
      var events :| Run(c, r, events) && Final(c, r, events).stopper.Finished? && Final(c, r, events).queue != [];
      Safety(c, r, events);
      if NoLateAlerts(s) {
        NothingLeftBehind(c, r, events);
      }
    }
  }

  /** A queue of one: an add finds the loop running, the loop is stopped and the drainer finds nothing
      to do, and only then the add gets the mutex.  Its alert stays in the queue. */
  lemma StrandedAlert<A>(a: A)
    ensures
      var c := Config(1, 1);
      var events := [AddCheck(0, [a]), StopClose, DrainCount, AddEnqueue(0)];
      && Run(c, Init(), events)
      && var s := Final(c, Init(), events);
         s.stopper.Finished? && s.queue == [a] && 0 !in s.sent && 0 !in s.dropped
  {
    var c, s0 := Config(1, 1), Init<A>();
    var e1, e2, e3, e4 := AddCheck(0, [a]), StopClose, DrainCount, AddEnqueue(0);
    var s1 := s0.(adders := map[0 := Entering([a])]);
    var s3 := s1.(stopped := true, stopper := Finished);
    var s4 := LateAdd(c, s3, a);
    RunFour(c, s0, e1, s1, e2, s1.(stopped := true, stopper := Measuring), e3, s3, e4, s4);
  }

  /** The add that gets the mutex after the drainer has finished. */
  lemma LateAdd<A>(c: Config, s: State<A>, a: A) returns (r: State<A>)
    requires c.capacity == 1 && s.queue == [] && s.head == 0 && s.sent == s.dropped == {}
    requires 0 in s.adders && s.adders[0] == Entering([a]) && MutexFree(s)
    ensures Enabled(s, AddEnqueue(0)) && r == Apply(c, s, AddEnqueue(0))
    ensures r.queue == [a] && r.stopper == s.stopper && r.sent == {} && 0 !in r.dropped
  {
    r := Apply(c, s, AddEnqueue(0));
    KeptAlone(c, s, a);
  }

  lemma KeptAlone<A>(c: Config, s: State<A>, a: A)
    requires c.capacity == 1 && s.queue == [] && s.head == 0
    ensures Enqueue(c, s, [a]).queue == [a] && Enqueue(c, s, [a]).dropped == s.dropped
  {
    assert s.queue + [a] == [a];
    assert Range(0, 0) == {};
  }

  lemma RunFour<A>(c: Config, s: State<A>, e1: Event<A>, s1: State<A>, e2: Event<A>, s2: State<A>,
                   e3: Event<A>, s3: State<A>, e4: Event<A>, s4: State<A>)
    requires Enabled(s, e1) && Apply(c, s, e1) == s1 && Enabled(s1, e2) && Apply(c, s1, e2) == s2
    requires Enabled(s2, e3) && Apply(c, s2, e3) == s3 && Enabled(s3, e4) && Apply(c, s3, e4) == s4
    ensures Run(c, s, [e1, e2, e3, e4]) && Final(c, s, [e1, e2, e3, e4]) == s4
  {
    RunFirst(c, s3, e4, []);
    RunFirst(c, s2, e3, [e4]);
    RunFirst(c, s1, e2, [e3, e4]);
    RunFirst(c, s, e1, [e2, e3, e4]);
  }

  lemma RunFirst<A>(c: Config, s: State<A>, e: Event<A>, rest: seq<Event<A>>)
    requires Enabled(s, e) && Run(c, Apply(c, s, e), rest)
    ensures Run(c, s, [e] + rest) && Final(c, s, [e] + rest) == Final(c, Apply(c, s, e), rest)
  {
    assert ([e] + rest)[1..] == rest;
  }

  /** With an empty queue and no batch in flight every accepted alert was either sent or dropped. */
  lemma AllSettled<A>(c: Config, s: State<A>, i: nat)
    requires Inv(c, s) && s.queue == [] && !s.consumer.Sending? && !s.stopper.Flushing? && i < |s.accepted|
    ensures (i in s.sent) != (i in s.dropped)
  {
    assert Copies(s, i) == 1;
  }
}
