/** The base sink's threads (source/RialtoGStreamerMSEBaseSink.cpp): the streaming thread
    (chain, FLUSH_STOP, EOS), whoever sends FLUSH_START, the source's puller, and the thread
    that changes the element's state. A sample is named by the order in which it was queued. */
module SinkProtocol {
  import opened BaseSinks

  /** The streaming thread is between two calls, waits in chain for space, has been woken
      there, or handles FLUSH_STOP: before and after the puller has been joined. */
  datatype Stream = Idle | WaitingForSpace | Woken | JoiningPuller | Joined

  /** The puller's thread does not exist, is between pulls, or is in a pull: about to look at
      the queue `left` more times, holding a fetched sample, or about to pop. */
  datatype Puller =
    | Off | Free
    | Looking(left: nat) | Holding(x: nat, left: nat) | Popping(x: nat, left: nat)

  /** READY; PAUSED or PLAYING; going to READY before and after removeSource. */
  datatype Element = Ready | Active | Leaving | SourceRemoved

  datatype Sink = Sink(
    samples: seq<nat>, flush: bool, eos: bool,
    stream: Stream, puller: Puller, element: Element,
    attached: bool,        // the client has a source of this sink
    // history
    next: nat,             // samples queued so far
    flushedBefore: nat,    // how many of them before the queue was last cleared
    clears: nat,           // how often the queue was cleared
    pullEpoch: nat,        // `clears` when the current pull began
    delivered: seq<nat>,
    unusable: set<nat>,    // fetched, but not mappable or not parsable
    spurious: nat)         // wakeups of the condition variable nobody asked for

  function Init(): Sink {
    Sink([], false, false, Idle, Off, Ready, false, 0, 0, 0, 0, [], {}, 0)
  }

  datatype Action =
    | ChainNow(created: bool) | ChainWaits | SpuriousWakeup | ChainResumes(created: bool)
    | EosEvent | FlushStartEvent
    | FlushStopBegins | PullerJoined | FlushStopEnds
    | Attach | RestartPuller
    | BeginPull(frameCount: nat) | GetFront | NoSpaceLeft | Deliver | Unusable | Pop
    | EnterPaused | LeavePaused | RemoveSource | ClearQueue

  predicate InPull(p: Puller) {
    p.Looking? || p.Holding? || p.Popping?
  }

  predicate Enabled(s: Sink, a: Action) {
    match a
    case ChainNow(_) => s.stream.Idle? && |s.samples| < MAX_INTERNAL_BUFFERS_QUEUE_SIZE
    case ChainWaits => s.stream.Idle? && |s.samples| >= MAX_INTERNAL_BUFFERS_QUEUE_SIZE
    case SpuriousWakeup => s.stream.WaitingForSpace?
    case ChainResumes(_) => s.stream.Woken?
    case EosEvent => s.stream.Idle?
    case FlushStartEvent => true
    case FlushStopBegins => s.stream.Idle?
    case PullerJoined => s.stream.JoiningPuller? && !InPull(s.puller)
    case FlushStopEnds => s.stream.Joined?
    case Attach => s.stream.Idle? && !s.attached
    case RestartPuller => s.attached && s.puller.Off?
    case BeginPull(_) => s.puller.Free?
    case GetFront => s.puller.Looking?
    case NoSpaceLeft => s.puller.Holding?
    case Deliver => s.puller.Holding?
    case Unusable => s.puller.Holding?
    case Pop => s.puller.Popping?
    case EnterPaused => s.element.Ready? && s.stream.Idle?
    case LeavePaused => s.element.Active?
    case RemoveSource => s.element.Leaving? && !InPull(s.puller)
    case ClearQueue => s.element.SourceRemoved?
  }

  /** notify_all on m_needDataCondVariable. */
  function Notify(t: Stream): Stream {
    if t.WaitingForSpace? then Woken else t
  }

  function StoreOf(s: Sink): Store<nat> {
    Store(s.samples, s.eos, s.flush)
  }

  function With(s: Sink, store: Store<nat>): Sink {
    s.(samples := store.samples, eos := store.eos, flush := store.flush)
  }

  function Push(s: Sink, created: bool): Sink {
    if !created then s.(stream := Idle)
    else With(s, StoreOf(s).Chained(s.next)).(stream := Idle, next := if s.flush then s.next else s.next + 1)
  }

  /** The history of clearing the queue, and the wakeup that goes with it. */
  function Cleared(s: Sink): Sink {
    s.(stream := Notify(s.stream), flushedBefore := s.next, clears := s.clears + 1)
  }

  function Apply(s: Sink, a: Action): Sink
    requires Enabled(s, a)
  {
    match a
    case ChainNow(created) => Push(s, created)
    case ChainWaits => s.(stream := WaitingForSpace)
    case SpuriousWakeup => s.(stream := Woken, spurious := s.spurious + 1)
    case ChainResumes(created) => Push(s, created)
    case EosEvent => s.(eos := true)
    case FlushStartEvent =>
      var t := With(s, StoreOf(s).FlushStarted());
      if s.flush then t else Cleared(t)
    case FlushStopBegins => s.(stream := JoiningPuller)
    case PullerJoined => s.(stream := Joined, puller := Off)
    case FlushStopEnds => With(s, StoreOf(s).FlushStopped()).(stream := Idle)
    case Attach => s.(attached := true, puller := Free)
    case RestartPuller => s.(puller := Free)
    case BeginPull(n) => s.(puller := Looking(n), pullEpoch := s.clears)
    case GetFront =>
      s.(puller := if s.puller.left == 0 || s.samples == [] then Free
                   else Holding(s.samples[0], s.puller.left - 1))
    case NoSpaceLeft => s.(puller := Free)
    case Deliver => s.(puller := Popping(s.puller.x, s.puller.left), delivered := s.delivered + [s.puller.x])
    case Unusable => s.(puller := Popping(s.puller.x, s.puller.left), unusable := s.unusable + {s.puller.x})
    case Pop =>
      With(s, StoreOf(s).Popped()).(puller := Looking(s.puller.left), stream := Notify(s.stream))
    case EnterPaused => s.(element := Active, flush := false)
    case LeavePaused => s.(element := Leaving)
    case RemoveSource => s.(element := SourceRemoved, puller := Off, attached := false)
    case ClearQueue => Cleared(With(s, StoreOf(s).Cleared())).(element := Ready)
  }

  ghost predicate Execution(s: Sink, acts: seq<Action>, t: Sink)
    decreases |acts|
  {
    if acts == [] then s == t
    else Enabled(s, acts[0]) && Execution(Apply(s, acts[0]), acts[1..], t)
  }

  // ----- what every step keeps

  ghost predicate Increasing(q: seq<nat>) {
    forall i, j | 0 <= i < j < |q| :: q[i] < q[j]
  }

  predicate Fetched(p: Puller) {
    p.Holding? || p.Popping?
  }

  /** The queue holds samples of after the last clearing, in the order they were queued, and
      none while a flush is under way. */
  ghost predicate QueueInv(s: Sink) {
    && s.flushedBefore <= s.next
    && (s.flush ==> s.samples == [])
    && (forall i | 0 <= i < |s.samples| :: s.flushedBefore <= s.samples[i] < s.next)
    && Increasing(s.samples)
  }

  /** The sample the pull loop holds is still in front of the queue, unless a flush is under
      way. */
  predicate HeldIsFront(s: Sink) {
    Fetched(s.puller) && !s.flush ==> s.samples != [] && s.samples[0] == s.puller.x
  }

  /** A pull begun before the queue was last cleared, and not at its end. */
  predicate StalePull(s: Sink) {
    InPull(s.puller) && s.pullEpoch != s.clears && s.puller != Looking(0)
  }

  /** A bound above the samples delivered so far, when they are in increasing order. */
  function DeliveredBelow(s: Sink): nat {
    if s.delivered == [] then 0 else s.delivered[|s.delivered| - 1] + 1
  }

  /** Samples are delivered in the order they were queued, and what is held or queued has not
      been delivered yet, but for the one about to be popped. */
  ghost predicate DeliveryInv(s: Sink) {
    && Increasing(s.delivered)
    && DeliveredBelow(s) <= s.next
    && (s.puller.Holding? ==> DeliveredBelow(s) <= s.puller.x < s.next)
    && (s.puller.Popping? ==> DeliveredBelow(s) <= s.puller.x + 1 <= s.next)
    && (s.samples != [] && !s.puller.Popping? ==> DeliveredBelow(s) <= s.samples[0])
  }

  predicate Consumed(delivered: seq<nat>, unusable: set<nat>, x: nat) {
    x in delivered || x in unusable
  }

  /** The samples queued are those that came last, and of the others only a flush has taken any
      that was not consumed. */
  ghost predicate LossInv(s: Sink) {
    && (forall i | 0 <= i < |s.samples| :: s.samples[i] == s.next - |s.samples| + i)
    && (s.puller.Popping? ==> Consumed(s.delivered, s.unusable, s.puller.x))
    && (forall x: nat | s.flushedBefore <= x < s.next - |s.samples| :: Consumed(s.delivered, s.unusable, x))
  }

  ghost predicate PullerInv(s: Sink) {
    && (s.puller.Off? || s.attached)
    && (InPull(s.puller) ==> s.pullEpoch <= s.clears)
    && (Fetched(s.puller) ==> s.puller.x < s.next && (s.flush ==> s.pullEpoch < s.clears))
  }

  /** This holds in every run. */
  ghost predicate Inv(s: Sink) {
    QueueInv(s) && PullerInv(s)
  }

  /** And this as long as no flush has ended over a fetched sample. */
  ghost predicate SafeInv(s: Sink) {
    Inv(s) && HeldIsFront(s) && DeliveryInv(s) && LossInv(s)
  }

  lemma PushQueue(s: Sink, created: bool)
    requires QueueInv(s)
    ensures QueueInv(Push(s, created))
  {
  }

  lemma PopQueue(s: Sink)
    requires QueueInv(s) && s.puller.Popping?
    ensures QueueInv(Apply(s, Pop))
  {
  }

  lemma StepQueue(s: Sink, a: Action)
    requires QueueInv(s) && Enabled(s, a)
    ensures QueueInv(Apply(s, a))
  {
    match a
    case ChainNow(created) => PushQueue(s, created);
    case ChainResumes(created) => PushQueue(s, created);
    case Pop => PopQueue(s);
    case _ =>
  }

  lemma StepPuller(s: Sink, a: Action)
    requires Inv(s) && Enabled(s, a)
    ensures PullerInv(Apply(s, a))
  {
  }

  /** FLUSH_STOP and entering PAUSED clear the flush flag. */
  predicate EndsFlush(a: Action) {
    a.FlushStopEnds? || a.EnterPaused?
  }

  /** The end of a flush leaves alone a pull loop that holds a sample the flush has cleared. */
  predicate SafeEnd(s: Sink) {
    !(s.flush && Fetched(s.puller))
  }

  lemma StepHeld(s: Sink, a: Action)
    requires Inv(s) && HeldIsFront(s) && Enabled(s, a) && (EndsFlush(a) ==> SafeEnd(s))
    ensures HeldIsFront(Apply(s, a))
  {
  }

  lemma PushDelivery(s: Sink, created: bool)
    requires QueueInv(s) && DeliveryInv(s)
    ensures DeliveryInv(Push(s, created))
  {
  }

  lemma PopDelivery(s: Sink)
    requires QueueInv(s) && DeliveryInv(s) && HeldIsFront(s) && s.puller.Popping?
    ensures DeliveryInv(Apply(s, Pop))
  {
  }

  lemma DeliverDelivery(s: Sink)
    requires QueueInv(s) && DeliveryInv(s) && HeldIsFront(s) && s.puller.Holding?
    ensures DeliveryInv(Apply(s, Deliver)) && DeliveryInv(Apply(s, NoSpaceLeft)) && DeliveryInv(Apply(s, Unusable))
  {
  }

  lemma StepDelivery(s: Sink, a: Action)
    requires SafeInv(s) && Enabled(s, a) && (EndsFlush(a) ==> SafeEnd(s))
    ensures DeliveryInv(Apply(s, a))
  {
    match a
    case ChainNow(created) => PushDelivery(s, created);
    case ChainResumes(created) => PushDelivery(s, created);
    case Pop => PopDelivery(s);
    case Deliver => DeliverDelivery(s);
    case NoSpaceLeft => DeliverDelivery(s);
    case Unusable => DeliverDelivery(s);
    case _ =>
  }

  lemma PushLoss(s: Sink, created: bool)
    requires QueueInv(s) && LossInv(s)
    ensures LossInv(Push(s, created))
  {
  }

  lemma PopLoss(s: Sink)
    requires QueueInv(s) && HeldIsFront(s) && LossInv(s) && s.puller.Popping?
    ensures LossInv(Apply(s, Pop))
  {
    var t := Apply(s, Pop);
    forall x: nat | t.flushedBefore <= x < t.next - |t.samples| ensures Consumed(t.delivered, t.unusable, x) {
      assert x < s.next - |s.samples| || x == s.puller.x;
      assert Consumed(s.delivered, s.unusable, x);
    }
  }

  lemma ConsumeLoss(s: Sink)
    requires LossInv(s) && s.puller.Holding?
    ensures LossInv(Apply(s, Deliver)) && LossInv(Apply(s, Unusable)) && LossInv(Apply(s, NoSpaceLeft))
  {
    var x := s.puller.x;
    assert (s.delivered + [x])[|s.delivered|] == x;
    forall y: nat | Consumed(s.delivered, s.unusable, y)
      ensures Consumed(s.delivered + [x], s.unusable, y) && Consumed(s.delivered, s.unusable + {x}, y)
    {
    }
  }

  lemma StepLoss(s: Sink, a: Action)
    requires SafeInv(s) && Enabled(s, a) && (EndsFlush(a) ==> SafeEnd(s))
    ensures LossInv(Apply(s, a))
  {
    match a
    case ChainNow(created) => PushLoss(s, created);
    case ChainResumes(created) => PushLoss(s, created);
    case Pop => PopLoss(s);
    case Deliver => ConsumeLoss(s);
    case Unusable => ConsumeLoss(s);
    case NoSpaceLeft => ConsumeLoss(s);
    case _ =>
  }

  lemma StepInv(s: Sink, a: Action)
    requires Inv(s) && Enabled(s, a)
    ensures Inv(Apply(s, a))
  {
    StepQueue(s, a);
    StepPuller(s, a);
  }

  lemma StepSafeInv(s: Sink, a: Action)
    requires SafeInv(s) && Enabled(s, a) && (EndsFlush(a) ==> SafeEnd(s))
    ensures SafeInv(Apply(s, a))
  {
    StepInv(s, a);
    StepHeld(s, a);
    StepDelivery(s, a);
    StepLoss(s, a);
  }

  /** Every flush of the run ends safely. */
  ghost predicate SafeEnds(s: Sink, acts: seq<Action>)
    decreases |acts|
  {
    acts == [] || !Enabled(s, acts[0])
    || ((EndsFlush(acts[0]) ==> SafeEnd(s)) && SafeEnds(Apply(s, acts[0]), acts[1..]))
  }

  lemma {:induction false} ReachableSafe(s: Sink, acts: seq<Action>, t: Sink)
    requires SafeInv(s) && Execution(s, acts, t) && SafeEnds(s, acts)
    ensures SafeInv(t)
    decreases |acts|
  {
    if acts != [] {
      StepSafeInv(s, acts[0]);
      ReachableSafe(Apply(s, acts[0]), acts[1..], t);
    }
  }

  /** Flush isolation: in every interleaving in which the flushes end safely, pop_sample removes
      the very sample that the pull loop last fetched, queued after the last flush, or nothing. */
  lemma FlushIsolation(acts: seq<Action>, s: Sink)
    requires Execution(Init(), acts, s) && SafeEnds(Init(), acts) && s.puller.Popping?
    ensures var t := Apply(s, Pop);
      || (s.samples == [] && t.samples == [])
      || (s.samples == [s.puller.x] + t.samples && s.puller.x >= s.flushedBefore)
  {
    ReachableSafe(Init(), acts, s);
  }

  /** Over any number of pull requests, flushes and seeks, no sample is delivered twice or out
      of order. */
  lemma DeliveredInOrder(acts: seq<Action>, s: Sink)
    requires Execution(Init(), acts, s) && SafeEnds(Init(), acts)
    ensures Increasing(s.delivered) && forall x | x in s.delivered :: x < s.next
  {
    ReachableSafe(Init(), acts, s);
  }

  /** Nothing gets lost: a sample queued since the last flush is still queued, or it has been
      delivered, or could not be mapped or parsed. */
  lemma NoSampleLost(acts: seq<Action>, s: Sink, x: nat)
    requires Execution(Init(), acts, s) && SafeEnds(Init(), acts) && s.flushedBefore <= x < s.next
    ensures x in s.samples || x in s.delivered || x in s.unusable
  {
    ReachableSafe(Init(), acts, s);
    if x < s.next - |s.samples| {
      assert Consumed(s.delivered, s.unusable, x);
    } else {
      assert s.samples[x - (s.next - |s.samples|)] == x;
    }
  }

  // ----- pulls from before a flush

  /** Every flush of the run ends when no pull from before it is left. */
  ghost predicate QuietEnds(s: Sink, acts: seq<Action>)
    decreases |acts|
  {
    acts == [] || !Enabled(s, acts[0])
    || ((EndsFlush(acts[0]) ==> !StalePull(s)) && QuietEnds(Apply(s, acts[0]), acts[1..]))
  }

  lemma StepStale(s: Sink, a: Action)
    requires Inv(s) && (StalePull(s) ==> s.flush) && Enabled(s, a) && (EndsFlush(a) ==> !StalePull(s))
    ensures StalePull(Apply(s, a)) ==> Apply(s, a).flush
  {
  }

  lemma {:induction false} ReachableQuiet(s: Sink, acts: seq<Action>, t: Sink)
    requires Inv(s) && (StalePull(s) ==> s.flush) && Execution(s, acts, t) && QuietEnds(s, acts)
    ensures Inv(t) && (StalePull(t) ==> t.flush) && SafeEnds(s, acts)
    decreases |acts|
  {
    if acts != [] {
      StepInv(s, acts[0]);
      StepStale(s, acts[0]);
      ReachableQuiet(Apply(s, acts[0]), acts[1..], t);
    }
  }

  /** Then a pull loop begun before a flush removes nothing that is queued after it. */
  lemma StalePullsTakeNothing(acts: seq<Action>, s: Sink)
    requires Execution(Init(), acts, s) && QuietEnds(Init(), acts)
    requires s.puller.Popping? && s.pullEpoch != s.clears
    ensures s.samples == [] && Apply(s, Pop).samples == []
  {
    ReachableQuiet(Init(), acts, s);
  }

  // ----- back-pressure

  ghost predicate Bounded(s: Sink) {
    && |s.samples| <= MAX_INTERNAL_BUFFERS_QUEUE_SIZE + s.spurious
    && (s.stream.WaitingForSpace? ==> |s.samples| >= MAX_INTERNAL_BUFFERS_QUEUE_SIZE)
    && (s.stream.Woken? ==> |s.samples| < MAX_INTERNAL_BUFFERS_QUEUE_SIZE + s.spurious)
  }

  lemma StepBounded(s: Sink, a: Action)
    requires Bounded(s) && Enabled(s, a)
    ensures Bounded(Apply(s, a))
  {
  }

  lemma {:induction false} BoundedExecution(s: Sink, acts: seq<Action>, t: Sink)
    requires Bounded(s) && Execution(s, acts, t)
    ensures Bounded(t)
    decreases |acts|
  {
    if acts != [] {
      StepBounded(s, acts[0]);
      BoundedExecution(Apply(s, acts[0]), acts[1..], t);
    }
  }

  /** Although chain tests for space with an `if`, the queue never holds more than 24 samples
      plus one for every spurious wakeup there has been. */
  lemma BackPressure(acts: seq<Action>, s: Sink)
    requires Execution(Init(), acts, s)
    ensures |s.samples| <= 24 + s.spurious
  {
    BoundedExecution(Init(), acts, s);
  }

  /** An open sink whose streaming thread is idle, with `n` samples queued. */
  ghost predicate Filled(s: Sink, n: nat) {
    s.stream.Idle? && s.element.Active? && !s.flush && |s.samples| == n
  }

  lemma {:induction false} FillQueue(n: nat) returns (acts: seq<Action>, s: Sink)
    requires n <= MAX_INTERNAL_BUFFERS_QUEUE_SIZE
    ensures Execution(Init(), acts, s) && Filled(s, n) && s.spurious == 0
  {
    if n == 0 {
      acts, s := [EnterPaused], Apply(Init(), EnterPaused);
      assert acts[1..] == [] && Execution(s, [], s);
    } else {
      acts, s := FillQueue(n - 1);
      acts, s := Extend(acts, s, ChainNow(true));
    }
  }

  /** That bound is reached for any number of spurious wakeups. */
  lemma {:induction false} BackPressureTight(k: nat) returns (acts: seq<Action>, s: Sink)
    ensures Execution(Init(), acts, s) && Filled(s, 24 + k) && s.spurious == k
  {
    if k == 0 {
      acts, s := FillQueue(24);
    } else {
      acts, s := BackPressureTight(k - 1);
      acts, s := Extend(acts, s, ChainWaits);
      acts, s := Extend(acts, s, SpuriousWakeup);
      acts, s := Extend(acts, s, ChainResumes(true));
    }
  }

  lemma {:induction false} Append(s: Sink, acts: seq<Action>, t: Sink, a: Action)
    requires Execution(s, acts, t) && Enabled(t, a)
    ensures Execution(s, acts + [a], Apply(t, a))
    decreases |acts|
  {
    if acts == [] {
      assert Execution(Apply(s, a), [], Apply(s, a));
      assert [a][1..] == [];
    } else {
      assert (acts + [a])[1..] == acts[1..] + [a];
      Append(Apply(s, acts[0]), acts[1..], t, a);
    }
  }

  lemma Extend(acts: seq<Action>, s: Sink, a: Action) returns (more: seq<Action>, t: Sink)
    requires Execution(Init(), acts, s) && Enabled(s, a)
    ensures Execution(Init(), more, t) && more == acts + [a] && t == Apply(s, a)
  {
    Append(Init(), acts, s, a);
    more, t := acts + [a], Apply(s, a);
  }
}
