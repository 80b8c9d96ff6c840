/** When ending a flush is safe (source/RialtoGStreamerMSEBaseSink.cpp). FLUSH_STOP clears the
    flush flag after the puller has been joined, but the puller may have been restarted, and
    another FLUSH_START handled, in between. Entering PAUSED clears it without joining a puller,
    and a source may have been attached after removeSource. */
module FlushOverlap {
  import opened SinkProtocol

  /** The pull loop is about to drop a sample it never fetched. */
  predicate Drops(s: Sink) {
    s.puller.Popping? && s.samples != [] && s.samples[0] != s.puller.x
  }

  /** A pull loop from before the last flush is about to take a sample queued after it. */
  predicate TakesStale(s: Sink) {
    s.puller.Popping? && s.samples != [] && s.pullEpoch != s.clears
  }

  ghost predicate CanDrop(s: Sink) {
    exists acts, t | Execution(s, acts, t) && SafeEnds(s, acts) :: Drops(t)
  }

  ghost predicate CanTakeStale(s: Sink) {
    exists acts, t | Execution(s, acts, t) && QuietEnds(s, acts) :: TakesStale(t)
  }

  lemma OneStep(s: Sink, a: Action, acts: seq<Action>, t: Sink)
    requires Enabled(s, a) && !EndsFlush(a) && Execution(Apply(s, a), acts, t)
    requires SafeEnds(Apply(s, a), acts) && QuietEnds(Apply(s, a), acts)
    ensures Execution(s, [a] + acts, t) && SafeEnds(s, [a] + acts) && QuietEnds(s, [a] + acts)
  {
    assert ([a] + acts)[1..] == acts;
  }

  /** The steps that let a pull loop take the next sample to be queued. */
  function Taking(p: Puller): seq<Action> {
    match p
    case Looking(_) => [ChainNow(true), GetFront, Unusable]
    case Holding(_, _) => [ChainNow(true), Unusable]
    case _ => [ChainNow(true)]
  }

  /** From an empty queue, without a flush, the puller's loop takes the next sample queued. */
  lemma TakeNext(s: Sink) returns (acts: seq<Action>, t: Sink)
    requires s.stream.Idle? && s.samples == [] && !s.flush && InPull(s.puller) && s.puller != Looking(0)
    ensures Execution(s, acts, t) && SafeEnds(s, acts) && QuietEnds(s, acts)
    ensures t.puller.Popping? && t.samples == [s.next] && t.clears == s.clears && t.pullEpoch == s.pullEpoch
    ensures Fetched(s.puller) ==> t.puller.x == s.puller.x
  {
    var u := Apply(s, ChainNow(true));
    assert u.samples == [s.next];
    match s.puller
    case Looking(_) =>
      var v := Apply(u, GetFront);
      t := Apply(v, Unusable);
      OneStep(v, Unusable, [], t);
      OneStep(u, GetFront, [Unusable], t);
      OneStep(s, ChainNow(true), [GetFront] + [Unusable], t);
      acts := [ChainNow(true)] + ([GetFront] + [Unusable]);
    case Holding(_, _) =>
      t := Apply(u, Unusable);
      OneStep(u, Unusable, [], t);
      OneStep(s, ChainNow(true), [Unusable], t);
      acts := [ChainNow(true)] + [Unusable];
    case Popping(_, _) =>
      t := u;
      OneStep(s, ChainNow(true), [], t);
      acts := [ChainNow(true)] + [];
  }

  /** Ending a flush, be it by FLUSH_STOP or by entering PAUSED, is safe exactly when no pull loop
      holds a fetched sample meanwhile: after any run whose flushes ended safely, a later pop_sample
      can drop a sample that was never fetched if and only if this step ends a flush while one is
      held. */
  lemma FlushEndExact(acts: seq<Action>, s: Sink, a: Action)
    requires Execution(Init(), acts, s) && SafeEnds(Init(), acts) && EndsFlush(a) && Enabled(s, a)
    ensures CanDrop(Apply(s, a)) <==> s.flush && Fetched(s.puller)
  {
    ReachableSafe(Init(), acts, s);
    var t := Apply(s, a);
    if s.flush && Fetched(s.puller) {
      var more, u := TakeNext(t);
      assert Drops(u);
    } else {
      StepSafeInv(s, a);
      forall more, u | Execution(t, more, u) && SafeEnds(t, more) ensures !Drops(u) {
        ReachableSafe(t, more, u);
      }
    }
  }

  /** In the same way, a pull loop from before a flush can take a sample of after it if and only
      if the step ends the flush while that loop, not at its end, is still there. */
  lemma StalePullExact(acts: seq<Action>, s: Sink, a: Action)
    requires Execution(Init(), acts, s) && QuietEnds(Init(), acts) && EndsFlush(a) && Enabled(s, a)
    ensures CanTakeStale(Apply(s, a)) <==> StalePull(s)
  {
    ReachableQuiet(Init(), acts, s);
    var t := Apply(s, a);
    if StalePull(s) {
      var more, u := TakeNext(t);
      assert TakesStale(u);
    } else {
      StepInv(s, a);
      forall more, u | Execution(t, more, u) && QuietEnds(t, more) ensures !TakesStale(u) {
        ReachableQuiet(t, more, u);
      }
    }
  }

  // ----- what the events have to keep

  /** No FLUSH_START is handled while a FLUSH_STOP is past joining the puller, and no source is
      attached between removeSource and the next entry into PAUSED. */
  ghost predicate EventsApart(s: Sink, acts: seq<Action>)
    decreases |acts|
  {
    acts == [] || !Enabled(s, acts[0])
    || ((acts[0].FlushStartEvent? ==> !s.stream.Joined?)
        && (acts[0].Attach? ==> s.element.Active? || s.element.Leaving?)
        && EventsApart(Apply(s, acts[0]), acts[1..]))
  }

  predicate Apart(s: Sink) {
    && (s.stream.Joined? ==> !StalePull(s))
    && (s.element.SourceRemoved? || s.element.Ready? ==> !s.attached)
  }

  lemma ApartStep(s: Sink, a: Action)
    requires Inv(s) && Apart(s) && Enabled(s, a)
    requires a.FlushStartEvent? ==> !s.stream.Joined?
    requires a.Attach? ==> s.element.Active? || s.element.Leaving?
    ensures Apart(Apply(s, a)) && (EndsFlush(a) ==> !StalePull(s))
  {
  }

  lemma {:induction false} ApartMeansQuiet(s: Sink, acts: seq<Action>, t: Sink)
    requires Inv(s) && Apart(s) && Execution(s, acts, t) && EventsApart(s, acts)
    ensures QuietEnds(s, acts)
    decreases |acts|
  {
    if acts != [] {
      StepInv(s, acts[0]);
      ApartStep(s, acts[0]);
      ApartMeansQuiet(Apply(s, acts[0]), acts[1..], t);
    }
  }

  /** Then isolation holds in every run: pop_sample removes the sample last fetched or nothing,
      and nothing at all when the queue was cleared since the pull began. */
  lemma ApartEventsIsolate(acts: seq<Action>, s: Sink)
    requires Execution(Init(), acts, s) && EventsApart(Init(), acts) && s.puller.Popping?
    ensures var t := Apply(s, Pop);
      || (s.samples == [] && t.samples == [])
      || (s.samples == [s.puller.x] + t.samples && s.pullEpoch == s.clears && s.puller.x >= s.flushedBefore)
  {
    ApartMeansQuiet(Init(), acts, s);
    ReachableQuiet(Init(), acts, s);
    FlushIsolation(acts, s);
  }

  /** In `acts`, FLUSH_START and FLUSH_STOP alternate, beginning with FLUSH_START; `started` says
      that the last of them was a FLUSH_START. */
  ghost predicate Alternate(acts: seq<Action>, started: bool)
    decreases |acts|
  {
    if acts == [] then !started
    else
      var n := |acts| - 1;
      match acts[n]
      case FlushStartEvent => started && Alternate(acts[..n], false)
      case FlushStopBegins => !started && Alternate(acts[..n], true)
      case _ => Alternate(acts[..n], started)
  }

  ghost predicate ReachableAlternating(s: Sink, started: bool) {
    exists acts :: Execution(Init(), acts, s) && Alternate(acts, started)
  }

  lemma Then(s: Sink, started: bool, a: Action) returns (t: Sink)
    requires ReachableAlternating(s, started) && Enabled(s, a)
    requires (a.FlushStartEvent? ==> !started) && (a.FlushStopBegins? ==> started)
    ensures t == Apply(s, a)
    ensures ReachableAlternating(t, if a.FlushStartEvent? then true else if a.FlushStopBegins? then false else started)
  {
    var acts :| Execution(Init(), acts, s) && Alternate(acts, started);
    var more;
    more, t := Extend(acts, s, a);
    assert more[..|acts|] == acts;
  }

  lemma FirstStart() returns (s: Sink)
    ensures ReachableAlternating(s, true) && s.stream.Idle? && s.puller.Free? && s.attached
    ensures s.flush && s.samples == [] && s.next == 0
  {
    assert Execution(Init(), [], Init()) && Alternate([], false);
    s := Then(Init(), false, EnterPaused);
    s := Then(s, false, Attach);
    s := Then(s, false, FlushStartEvent);
  }

  lemma FirstStopJoined() returns (s: Sink)
    ensures ReachableAlternating(s, false) && s.stream.Joined? && s.puller.Off? && s.attached
    ensures s.flush && s.samples == [] && s.next == 0
  {
    s := FirstStart();
    s := Then(s, true, FlushStopBegins);
    s := Then(s, false, PullerJoined);
  }

  /** A first FLUSH_STOP swallows the second FLUSH_START. */
  lemma SecondStartSwallowed() returns (s: Sink)
    ensures ReachableAlternating(s, true) && s.stream.Idle? && s.puller.Off? && s.attached
    ensures !s.flush && s.samples == [] && s.next == 0
  {
    s := FirstStopJoined();
    s := Then(s, false, FlushStartEvent);
    s := Then(s, true, FlushStopEnds);
  }

  /** So that the second FLUSH_STOP comes without a flush, with sample 0 queued. */
  lemma SecondStopWithoutFlush() returns (s: Sink)
    ensures ReachableAlternating(s, false) && s.stream.Joined? && s.puller.Free?
    ensures !s.flush && s.samples == [0] && s.next == 1
  {
    s := SecondStartSwallowed();
    s := Then(s, true, RestartPuller);
    s := Then(s, true, ChainNow(true));
    assert s.samples == [0];
    s := Then(s, true, FlushStopBegins);
    s := Then(s, false, PullerJoined);
    s := Then(s, false, RestartPuller);
  }

  /** While it goes on, the puller fetches the sample and the third FLUSH_START is handled. */
  lemma ThirdStartOverHeldSample() returns (s: Sink)
    ensures ReachableAlternating(s, true) && s.stream.Joined?
    ensures s.flush && s.samples == [] && s.next == 1 && s.puller == Holding(0, 0)
  {
    s := SecondStopWithoutFlush();
    s := Then(s, false, BeginPull(1));
    assert s.samples != [];
    s := Then(s, false, GetFront);
    s := Then(s, false, FlushStartEvent);
  }

  lemma NextSampleQueued() returns (s: Sink)
    ensures ReachableAlternating(s, true) && s.samples == [1] && s.puller == Holding(0, 0)
  {
    s := ThirdStartOverHeldSample();
    s := Then(s, true, FlushStopEnds);
    s := Then(s, true, ChainNow(true));
    assert s.samples == [1];
  }

  /** Pairing the events is not enough: FLUSH_START and FLUSH_STOP strictly alternate in this
      run, and still the pull loop that holds sample 0 drops sample 1. */
  lemma AlternatingEventsDrop() returns (s: Sink)
    ensures ReachableAlternating(s, true) && Drops(s)
    ensures s.puller.x == 0 && s.samples == [1] && Apply(s, Pop).samples == []
  {
    s := NextSampleQueued();
    s := Then(s, true, Unusable);
  }

  // ----- without any flush event

  ghost predicate NoFlushEvents(acts: seq<Action>) {
    forall a | a in acts :: !a.FlushStartEvent? && !a.FlushStopBegins?
  }

  ghost predicate ReachableUnflushed(s: Sink) {
    exists acts :: Execution(Init(), acts, s) && NoFlushEvents(acts)
  }

  lemma ThenUnflushed(s: Sink, a: Action) returns (t: Sink)
    requires ReachableUnflushed(s) && Enabled(s, a) && !a.FlushStartEvent? && !a.FlushStopBegins?
    ensures ReachableUnflushed(t) && t == Apply(s, a)
  {
    var acts :| Execution(Init(), acts, s) && NoFlushEvents(acts);
    var more;
    more, t := Extend(acts, s, a);
  }

  /** While the element leaves PAUSED, after its removeSource, caps attach a source. */
  lemma AttachedWhileLeaving() returns (s: Sink)
    ensures ReachableUnflushed(s) && s.element.SourceRemoved? && s.stream.Idle?
    ensures s.puller.Free? && !s.flush && s.samples == [] && s.next == 0
  {
    assert Execution(Init(), [], Init()) && NoFlushEvents([]);
    s := ThenUnflushed(Init(), EnterPaused);
    s := ThenUnflushed(s, LeavePaused);
    s := ThenUnflushed(s, RemoveSource);
    s := ThenUnflushed(s, Attach);
  }

  /** Its puller fetches a sample before the queue is cleared. */
  lemma ClearedOverHeldSample() returns (s: Sink)
    ensures ReachableUnflushed(s) && s.element.Ready? && s.stream.Idle?
    ensures s.flush && s.samples == [] && s.next == 1 && s.puller == Holding(0, 0)
  {
    s := AttachedWhileLeaving();
    s := ThenUnflushed(s, ChainNow(true));
    assert s.samples == [0];
    s := ThenUnflushed(s, BeginPull(1));
    s := ThenUnflushed(s, GetFront);
    s := ThenUnflushed(s, ClearQueue);
  }

  lemma NextSampleUnflushed() returns (s: Sink)
    ensures ReachableUnflushed(s) && s.samples == [1] && s.puller == Holding(0, 0)
  {
    s := ClearedOverHeldSample();
    s := ThenUnflushed(s, EnterPaused);
    s := ThenUnflushed(s, ChainNow(true));
    assert s.samples == [1];
  }

  /** And the second entry into PAUSED ends the flush over it: without any flush event the pull
      loop that holds sample 0 drops sample 1. */
  lemma LateAttachDrops() returns (s: Sink)
    ensures ReachableUnflushed(s) && Drops(s)
    ensures s.puller.x == 0 && s.samples == [1] && Apply(s, Pop).samples == []
  {
    s := NextSampleUnflushed();
    s := ThenUnflushed(s, Unusable);
  }
}
