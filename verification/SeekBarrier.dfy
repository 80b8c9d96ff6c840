/** The seek barrier between the server and the attached sources
    (source/GStreamerMSEMediaPlayerClient.cpp). */
module SeekBarrier {
  import opened MediaPlayerClients

  ghost predicate AllIdle(c: Client) {
    && c.server == IDLE
    && forall i | i in c.sources :: c.sources[i].seeking == IDLE && c.sources[i].running
  }

  /** The sources that wait for a seek to finish. */
  function WaitingSources(c: Client): set<int> {
    set i | i in c.sources && c.sources[i].seeking == SEEKING
  }

  /** `round` has happened so far of one seek: at most one seek, at most one FLUSHED and that after
      the seek, and at most one started-seeking per source, in any order otherwise. The sources
      `ids` were idle before, the sources `pre` were left waiting; one of these starts seeking, if
      at all, before the round is complete. Nothing is attached or removed and the server does not
      fail. */
  ghost predicate Round(round: seq<SeekEvent>, ids: set<int>, pre: set<int>) {
    && (forall e | e in round :: e == Seek || e == Flushed || (e.Started? && e.source in ids + pre))
    && (forall j, k | 0 <= j < k < |round| :: round[j] != round[k])
    && (forall k | 0 <= k < |round| && round[k] == Flushed :: Seek in round[..k])
    && (forall k | 0 <= k < |round| && round[k].Started? && round[k].source in pre ::
          !Complete(round[..k], ids))
  }

  predicate Complete(round: seq<SeekEvent>, ids: set<int>) {
    Seek in round && Flushed in round && forall i | i in ids :: Started(i) in round
  }

  function ServerAfter(round: seq<SeekEvent>, ids: set<int>): SeekingState {
    if Seek !in round || Complete(round, ids) then IDLE
    else if Flushed !in round then SEEKING
    else SEEK_DONE
  }

  /** A source of which `round` has heard waits, stopped, until the round is complete. */
  predicate SourceAfter(s: Source, i: int, round: seq<SeekEvent>, ids: set<int>, pre: set<int>) {
    if (i in pre || Started(i) in round) && !Complete(round, ids) then s.seeking == SEEKING && !s.running
    else s.seeking == IDLE && s.running
  }

  /** The client's barrier state is the one that `round` alone determines. */
  ghost predicate BarrierState(c: Client, round: seq<SeekEvent>, ids: set<int>, pre: set<int>) {
    && ids !! pre && c.sources.Keys == ids + pre
    && c.server == ServerAfter(round, ids)
    && (forall i | i in ids + pre && !IsStopping(c, i) :: SourceAfter(c.sources[i], i, round, ids, pre))
    && (c.backend.StoppingPuller? ==>
          c.backend.source in ids + pre && c.sources[c.backend.source].seeking == SEEKING)
  }

  lemma RoundPrefix(p: seq<SeekEvent>, q: seq<SeekEvent>, ids: set<int>, pre: set<int>)
    requires p <= q && Round(q, ids, pre)
    ensures Round(p, ids, pre)
  {
    assert forall k | 0 <= k < |p| :: p[..k] == q[..k];
  }

  lemma NewEvent(round: seq<SeekEvent>, e: SeekEvent, ids: set<int>, pre: set<int>)
    requires Round(round + [e], ids, pre)
    ensures e !in round
    ensures e == Flushed ==> Seek in round
    ensures e == Seek ==> Flushed !in round
    ensures e.Started? ==> e.source in ids + pre && (e.source in pre ==> !Complete(round, ids))
  {
    var next := round + [e];
    assert next[|round|] == e && next[..|round|] == round;
  }

  /** Looking at the barrier once the server is done: it opens exactly when the round is complete. */
  lemma Reevaluate(c: Client, round: seq<SeekEvent>, ids: set<int>, pre: set<int>)
    requires ids !! pre && c.sources.Keys == ids + pre && c.backend.Ready? && c.server == SEEK_DONE
    requires Seek in round && Flushed in round
    requires forall i | i in ids + pre :: var s := c.sources[i];
      if i in pre || Started(i) in round then s.seeking == SEEKING && !s.running else s.seeking == IDLE && s.running
    ensures BarrierState(StartPullingDataIfSeekFinished(c), round, ids, pre)
  {
    if !AllSeeking(c.sources) {
      var i :| i in c.sources && c.sources[i].seeking != SEEKING;
      assert i in ids && Started(i) !in round;
    } else {
      forall i | i in ids ensures Started(i) in round {
        assert c.sources[i].seeking == SEEKING;
      }
    }
  }

  lemma FlushedStep(c: Client, round: seq<SeekEvent>, ids: set<int>, pre: set<int>)
    requires BarrierState(c, round, ids, pre) && c.backend.Ready? && Round(round + [Flushed], ids, pre)
    ensures BarrierState(HandlePlaybackState(c, FLUSHED), round + [Flushed], ids, pre)
  {
    NewEvent(round, Flushed, ids, pre);
    var c' := c.(events := c.events + [Flushed], server := SEEK_DONE);
    forall i | i in ids + pre ensures SourceAfter(c'.sources[i], i, round, ids, pre) {
      assert !IsStopping(c, i);
    }
    Reevaluate(c', round + [Flushed], ids, pre);
  }

  lemma SeekStep(c: Client, round: seq<SeekEvent>, ids: set<int>, pre: set<int>)
    requires BarrierState(c, round, ids, pre) && c.backend.Ready? && Round(round + [Seek], ids, pre)
    ensures BarrierState(HandleSeek(c), round + [Seek], ids, pre)
  {
    NewEvent(round, Seek, ids, pre);
  }

  lemma StartedStep(c: Client, i: int, round: seq<SeekEvent>, ids: set<int>, pre: set<int>)
    requires BarrierState(c, round, ids, pre) && c.backend == StoppingPuller(i) && Round(round + [Started(i)], ids, pre)
    ensures BarrierState(FinishStartedSeeking(c, i), round + [Started(i)], ids, pre)
  {
    var next := round + [Started(i)];
    NewEvent(round, Started(i), ids, pre);
    assert !Complete(round, ids);
    var c' := c.(sources := c.sources[i := c.sources[i].(running := false)],
                 backend := Ready, events := c.events + [Started(i)]);
    forall j | j in ids + pre && j != i ensures SourceAfter(c'.sources[j], j, round, ids, pre) {
      assert !IsStopping(c, j);
    }
    if Seek in round && Flushed in round {
      Reevaluate(c', next, ids, pre);
    }
  }

  /** Messages that are no event of the barrier do not touch its state. */
  lemma QuietHandler(c: Client, m: Message, round: seq<SeekEvent>, ids: set<int>, pre: set<int>)
    requires BarrierState(c, round, ids, pre) && c.backend.Ready?
    requires HandleMessage(c, m).events == c.events
    ensures BarrierState(HandleMessage(c, m), round, ids, pre)
  {
    var d := HandleMessage(c, m);
    if m != Playback(FLUSHED) {
      forall i | i in ids + pre && !IsStopping(d, i) ensures SourceAfter(d.sources[i], i, round, ids, pre) {
        assert !IsStopping(c, i);
      }
    }
  }

  lemma QuietStep(c: Client, a: Action, round: seq<SeekEvent>, ids: set<int>, pre: set<int>)
    requires !a.PullerStopped?
    requires BarrierState(c, round, ids, pre) && Enabled(c, a) && Apply(c, a).events == c.events
    ensures BarrierState(Apply(c, a), round, ids, pre)
  {
    var d := Apply(c, a);
    match a
    case Handle => QuietHandler(c.(queue := c.queue[1..]), c.queue[0], round, ids, pre);
    case PullerJoined =>
    case Pull(k, _) =>
      forall i | i in ids + pre && !IsStopping(d, i) ensures SourceAfter(d.sources[i], i, round, ids, pre) {
        assert !IsStopping(c, i);
      }
    case Post(_) =>
  }

  /** The event a step adds tells which step it is. */
  lemma NewestEvent(c: Client, a: Action) returns (e: SeekEvent)
    requires Enabled(c, a) && Apply(c, a).events != c.events
    ensures Apply(c, a).events == c.events + [e]
    ensures e == Seek ==> a.Handle? && c.queue[0] == SeekCall
    ensures e == Flushed ==> a.Handle? && c.queue[0] == Playback(FLUSHED)
    ensures e.Started? ==> a.PullerJoined? && c.backend == StoppingPuller(e.source)
    ensures a.PullerJoined? ==> e.Started? || e.Removed?
  {
    e := Apply(c, a).events[|c.events|];
  }

  lemma EventStep(c: Client, a: Action, e: SeekEvent, round: seq<SeekEvent>, ids: set<int>, pre: set<int>)
    requires Enabled(c, a) && BarrierState(c, round, ids, pre)
    requires Apply(c, a).events == c.events + [e] && Round(round + [e], ids, pre)
    ensures BarrierState(Apply(c, a), round + [e], ids, pre)
  {
    assert (round + [e])[|round|] == e;
    var f := NewestEvent(c, a);
    assert (c.events + [e])[|c.events|] == (c.events + [f])[|c.events|];
    if a.PullerJoined? {
      StartedStep(c, c.backend.source, round, ids, pre);
    } else if e == Seek {
      SeekStep(c.(queue := c.queue[1..]), round, ids, pre);
    } else {
      FlushedStep(c.(queue := c.queue[1..]), round, ids, pre);
    }
  }

  lemma SuffixAppend(base: seq<SeekEvent>, x: seq<SeekEvent>, e: SeekEvent)
    requires base <= x
    ensures (x + [e])[|base|..] == x[|base|..] + [e]
  {
  }

  /** A step that adds no event leaves the barrier state as it is, one that adds an event
      moves it to the state of the longer round. */
  lemma BarrierStep(c: Client, a: Action, ids: set<int>, pre: set<int>, base: seq<SeekEvent>)
    requires !a.PullerStopped? && Enabled(c, a) && base <= c.events && BarrierState(c, c.events[|base|..], ids, pre)
    requires c.events <= Apply(c, a).events && Round(Apply(c, a).events[|base|..], ids, pre)
    ensures BarrierState(Apply(c, a), Apply(c, a).events[|base|..], ids, pre)
  {
    if Apply(c, a).events == c.events {
      QuietStep(c, a, c.events[|base|..], ids, pre);
    } else {
      var e := NewestEvent(c, a);
      SuffixAppend(base, c.events, e);
      EventStep(c, a, e, c.events[|base|..], ids, pre);
    }
  }

  lemma {:induction false} EventsGrow(c: Client, acts: seq<Action>, d: Client)
    requires Execution(c, acts, d)
    ensures c.events <= d.events
    decreases |acts|
  {
    if acts != [] {
      StepEvents(c, acts[0]);
      EventsGrow(Apply(c, acts[0]), acts[1..], d);
    }
  }

  lemma {:induction false} NotStoppedBefore(c: Client, acts: seq<Action>, d: Client)
    requires Execution(c, acts, d) && !d.backend.Stopped?
    ensures !c.backend.Stopped?
    decreases |acts|
  {
    if acts != [] {
      NotStoppedBefore(Apply(c, acts[0]), acts[1..], d);
    }
  }

  lemma {:induction false} BarrierExecution(
      c: Client, acts: seq<Action>, d: Client, base: seq<SeekEvent>, ids: set<int>, pre: set<int>)
    requires Inv(c) && Execution(c, acts, d) && !d.backend.Stopped?
    requires base <= c.events && base <= d.events && Round(d.events[|base|..], ids, pre)
    requires BarrierState(c, c.events[|base|..], ids, pre)
    ensures BarrierState(d, d.events[|base|..], ids, pre)
    decreases |acts|
  {
    if acts != [] {
      var b := Apply(c, acts[0]);
      StepInv(c, acts[0]);
      EventsGrow(c, acts[..1], b) by { assert acts[..1] == [acts[0]]; assert Execution(b, [], b); }
      EventsGrow(b, acts[1..], d);
      NotStoppedBefore(b, acts[1..], d);
      RoundPrefix(b.events[|base|..], d.events[|base|..], ids, pre);
      BarrierStep(c, acts[0], ids, pre, base);
      BarrierExecution(b, acts[1..], d, base, ids, pre);
    }
  }

  /** The barrier is order-independent. From any reachable state in which the server does not seek,
      sources left waiting by an earlier failure included, and whatever else the threads do
      (requests, pulls, the queues' interleaving), the round handled so far alone decides: a source
      that waits or has started seeking stays SEEKING with a stopped puller until the last event of
      the round, every other source stays IDLE with a running one. */
  lemma SeekBarrier(before: seq<Action>, c: Client, acts: seq<Action>, d: Client)
    requires Execution(Init(), before, c) && c.server == IDLE && !c.backend.StoppingPuller?
    requires Execution(c, acts, d) && !d.backend.Stopped?
    requires c.events <= d.events
    requires Round(d.events[|c.events|..], c.sources.Keys - WaitingSources(c), WaitingSources(c))
    ensures BarrierState(d, d.events[|c.events|..], c.sources.Keys - WaitingSources(c), WaitingSources(c))
  {
    ReachableInv(Init(), before, c);
    NotStoppedBefore(c, acts, d);
    forall i | i in c.sources ensures SourceInv(c, i) {
    }
    assert c.sources.Keys - WaitingSources(c) + WaitingSources(c) == c.sources.Keys;
    BarrierExecution(c, acts, d, c.events, c.sources.Keys - WaitingSources(c), WaitingSources(c));
  }

  /** The round's last event, whichever it is, lets everything go on, and so does the next round
      after a failure, for the sources the failure left waiting too. */
  lemma SeekCompletes(before: seq<Action>, c: Client, acts: seq<Action>, d: Client)
    requires Execution(Init(), before, c) && c.server == IDLE && !c.backend.StoppingPuller?
    requires Execution(c, acts, d) && d.backend.Ready?
    requires c.events <= d.events
    requires Round(d.events[|c.events|..], c.sources.Keys - WaitingSources(c), WaitingSources(c))
    requires Complete(d.events[|c.events|..], c.sources.Keys - WaitingSources(c))
    ensures AllIdle(d) && d.sources.Keys == c.sources.Keys
  {
    SeekBarrier(before, c, acts, d);
    assert c.sources.Keys - WaitingSources(c) + WaitingSources(c) == c.sources.Keys;
  }

  // ----- where the barrier does not hold

  lemma SuffixTwice(x: seq<SeekEvent>, y: seq<SeekEvent>, z: seq<SeekEvent>)
    requires x <= y <= z
    ensures z[|x|..] == y[|x|..] + z[|y|..]
  {
  }

  /** While the server does not seek, a step changes whether source `i` waits only by its starting
      to seek. */
  lemma IdleServerStep(c: Client, a: Action, i: int)
    requires Inv(c) && Enabled(c, a) && c.server == IDLE && i in c.sources && !Apply(c, a).backend.Stopped?
    requires c.events <= Apply(c, a).events
    requires Seek !in Apply(c, a).events[|c.events|..] && Removed(i) !in Apply(c, a).events[|c.events|..]
    ensures var b := Apply(c, a);
      && b.server == IDLE && i in b.sources
      && (b.sources[i].seeking == SEEKING <==> c.sources[i].seeking == SEEKING || b.backend == StoppingPuller(i))
      && (c.backend == StoppingPuller(i) ==>
            b.backend == StoppingPuller(i) || Started(i) in b.events[|c.events|..])
      && (Started(i) in b.events[|c.events|..] ==> c.backend == StoppingPuller(i))
  {
    var b := Apply(c, a);
    assert SourceInv(c, i);
    if b.events == c.events {
      assert b.events[|c.events|..] == [];
    } else {
      var e := NewestEvent(c, a);
      assert b.events[|c.events|..] == [e];
    }
  }

  lemma {:induction false} IdleServerRun(c: Client, acts: seq<Action>, d: Client, i: int)
    requires Inv(c) && Execution(c, acts, d) && !d.backend.Stopped? && c.server == IDLE && i in c.sources
    requires c.events <= d.events
    requires Seek !in d.events[|c.events|..] && Removed(i) !in d.events[|c.events|..]
    ensures d.server == IDLE && i in d.sources
    ensures d.sources[i].seeking == SEEKING <==>
      c.sources[i].seeking == SEEKING || Started(i) in d.events[|c.events|..] || d.backend == StoppingPuller(i)
    ensures c.backend == StoppingPuller(i) ==>
      d.backend == StoppingPuller(i) || Started(i) in d.events[|c.events|..]
    decreases |acts|
  {
    if acts == [] {
      assert d.events[|c.events|..] == [];
      NotStoppedBefore(c, acts, d);
      assert SourceInv(c, i);
    } else {
      var b := Apply(c, acts[0]);
      StepEvents(c, acts[0]);
      EventsGrow(b, acts[1..], d);
      NotStoppedBefore(b, acts[1..], d);
      SuffixTwice(c.events, b.events, d.events);
      NotStoppedBefore(c, acts, d);
      assert SourceInv(c, i);
      IdleServerStep(c, acts[0], i);
      StepInv(c, acts[0]);
      IdleServerRun(b, acts[1..], d, i);
    }
  }

  lemma StepEvents(c: Client, a: Action)
    requires Enabled(c, a)
    ensures c.events <= Apply(c, a).events
  {
    if Apply(c, a).events != c.events {
      var e := NewestEvent(c, a);
    }
  }

  /** A server failure resets the server's state only. In every run after it is handled, until the
      next seek and as long as source `i` is not removed, the source waits exactly if it had
      started seeking before the failure or does so afterwards; nothing else, in particular no
      FLUSHED and no other source, lets it go on. */
  lemma FailureStrands(before: seq<Action>, c: Client, acts: seq<Action>, d: Client, i: int)
    requires Execution(Init(), before, c) && i in c.sources
    requires Enabled(c, Handle) && c.queue[0] == Playback(FAILURE)
    requires Execution(Apply(c, Handle), acts, d) && !d.backend.Stopped?
    requires d.backend != StoppingPuller(i)
    requires c.events + [Failed] <= d.events
    requires Seek !in d.events[|c.events| + 1..] && Removed(i) !in d.events[|c.events| + 1..]
    ensures d.server == IDLE && i in d.sources
    ensures d.sources[i].running <==> d.sources[i].seeking != SEEKING
    ensures d.sources[i].seeking == SEEKING <==>
      c.sources[i].seeking == SEEKING || Started(i) in d.events[|c.events| + 1..]
  {
    ReachableInv(Init(), before, c);
    StepInv(c, Handle);
    var f := Apply(c, Handle);
    ReachableInv(f, acts, d);
    IdleServerRun(f, acts, d, i);
    assert SourceInv(d, i);
  }

  /** Between two messages, the state in which the barrier should have opened. */
  predicate Stuck(c: Client) {
    c.backend.Ready? && c.server == SEEK_DONE && AllSeeking(c.sources)
  }

  /** removeSource does not look at the barrier again. */
  lemma RemoveStep(c: Client, k: int)
    requires c.backend == RemovingSource(k) && Enabled(c, PullerJoined)
    ensures Stuck(Apply(c, PullerJoined)) <==>
      c.server == SEEK_DONE && forall i | i in c.sources && i != k :: c.sources[i].seeking == SEEKING
  {
    var d := Apply(c, PullerJoined);
    if Stuck(d) {
      forall i | i in c.sources && i != k ensures c.sources[i].seeking == SEEKING {
        assert i in d.sources && d.sources[i] == c.sources[i];
      }
    }
  }

  /** No other step leaves the barrier stuck. */
  lemma OnlyRemoveSticks(c: Client, a: Action)
    requires Inv(c) && Enabled(c, a) && !Stuck(c) && Stuck(Apply(c, a))
    ensures a == PullerJoined && c.backend.RemovingSource?
  {
    var d := Apply(c, a);
    if !a.PullerJoined? {
      forall i | i in c.sources ensures i in d.sources {
      }
    }
  }

  /** Events that do nothing for a source that waits for the barrier. */
  predicate KeepsWaiting(e: SeekEvent, i: int) {
    e.Flushed? || e.Attached? || (e.Removed? && e.source != i)
  }

  predicate Waits(c: Client, i: int) {
    c.server == SEEK_DONE && i in c.sources && c.sources[i].seeking == SEEKING
  }

  lemma JoinedEvent(c: Client, a: Action)
    requires Enabled(c, a)
    ensures a.PullerJoined? ==>
      |Apply(c, a).events| > |c.events|
      && Apply(c, a).events[|c.events|] ==
         if c.backend.StoppingPuller? then Started(c.backend.source) else Removed(c.backend.source)
  {
  }

  lemma WaitsStep(c: Client, a: Action, i: int)
    requires Inv(c) && Enabled(c, a) && Waits(c, i) && !Apply(c, a).backend.Stopped?
    requires c.events <= Apply(c, a).events
    requires forall e | e in Apply(c, a).events[|c.events|..] :: KeepsWaiting(e, i)
    ensures Waits(Apply(c, a), i)
  {
    var b := Apply(c, a);
    if |b.events| > |c.events| {
      assert b.events[|c.events|] in b.events[|c.events|..];
    }
    JoinedEvent(c, a);
  }

  lemma {:induction false} WaitsRun(c: Client, acts: seq<Action>, d: Client, i: int)
    requires Inv(c) && Execution(c, acts, d) && Waits(c, i) && !d.backend.Stopped?
    requires c.events <= d.events && forall e | e in d.events[|c.events|..] :: KeepsWaiting(e, i)
    ensures Waits(d, i)
    decreases |acts|
  {
    if acts != [] {
      var b := Apply(c, acts[0]);
      StepInv(c, acts[0]);
      StepEvents(c, acts[0]);
      EventsGrow(b, acts[1..], d);
      NotStoppedBefore(b, acts[1..], d);
      SuffixTwice(c.events, b.events, d.events);
      WaitsStep(c, acts[0], i);
      WaitsRun(b, acts[1..], d, i);
    }
  }

  /** A stuck barrier stays shut for every source that waits at it, in every run in which no source
      starts seeking, there is no new seek and no failure, and the source is not removed itself:
      no other removal, attached source or FLUSHED opens it. */
  lemma StuckStays(before: seq<Action>, c: Client, acts: seq<Action>, d: Client, i: int)
    requires Execution(Init(), before, c) && Stuck(c) && i in c.sources
    requires Execution(c, acts, d) && !d.backend.Stopped?
    requires c.events <= d.events && forall e | e in d.events[|c.events|..] :: KeepsWaiting(e, i)
    ensures d.server == SEEK_DONE && i in d.sources && d.sources[i].seeking == SEEKING
    ensures d.backend != StoppingPuller(i) ==> !d.sources[i].running
  {
    ReachableInv(Init(), before, c);
    WaitsRun(c, acts, d, i);
    ReachableInv(c, acts, d);
    assert SourceInv(d, i);
  }

  /** Without an attached or removed source the sources stay the same. */
  lemma SameSourcesStep(c: Client, a: Action)
    requires Inv(c) && Enabled(c, a) && !Apply(c, a).backend.Stopped? && c.events <= Apply(c, a).events
    requires forall e | e in Apply(c, a).events[|c.events|..] :: e.Flushed?
    ensures Apply(c, a).sources.Keys == c.sources.Keys
  {
    var b := Apply(c, a);
    if |b.events| > |c.events| {
      assert b.events[|c.events|] in b.events[|c.events|..];
    }
    JoinedEvent(c, a);
  }

  lemma {:induction false} SameSources(c: Client, acts: seq<Action>, d: Client)
    requires Inv(c) && Execution(c, acts, d) && !d.backend.Stopped?
    requires c.events <= d.events && forall e | e in d.events[|c.events|..] :: e.Flushed?
    ensures d.sources.Keys == c.sources.Keys
    decreases |acts|
  {
    if acts != [] {
      var b := Apply(c, acts[0]);
      StepInv(c, acts[0]);
      StepEvents(c, acts[0]);
      EventsGrow(b, acts[1..], d);
      NotStoppedBefore(b, acts[1..], d);
      SuffixTwice(c.events, b.events, d.events);
      SameSourcesStep(c, acts[0]);
      SameSources(b, acts[1..], d);
    }
  }

  /** What opens it is the next source to start seeking, once its puller has been joined. */
  lemma NextStartReopens(before: seq<Action>, c: Client, acts: seq<Action>, d: Client)
    requires Execution(Init(), before, c) && Stuck(c) && Execution(c, acts, d)
    requires c.events <= d.events && forall e | e in d.events[|c.events|..] :: e.Flushed?
    requires d.backend.StoppingPuller? && Enabled(d, PullerJoined)
    ensures AllIdle(Apply(d, PullerJoined)) && Apply(d, PullerJoined).sources.Keys == c.sources.Keys
  {
    ReachableInv(Init(), before, c);
    SameSources(c, acts, d);
    forall i | i in d.sources ensures Waits(d, i) {
      WaitsRun(c, acts, d, i);
    }
    assert d.backend.source in d.sources && Waits(d, d.backend.source);
  }

  lemma SeekStepFromStuck(c: Client, a: Action)
    requires Inv(c) && c.server == SEEK_DONE && AllSeeking(c.sources)
    requires Enabled(c, a) && !Apply(c, a).backend.Stopped? && Apply(c, a).events == c.events + [Seek]
    ensures BarrierState(Apply(c, a), [Seek], {}, c.sources.Keys)
  {
    var e := NewestEvent(c, a);
    assert (c.events + [Seek])[|c.events|] == (c.events + [e])[|c.events|];
    forall i | i in c.sources && !IsStopping(c, i) ensures SourceAfter(c.sources[i], i, [Seek], {}, c.sources.Keys) {
      assert SourceInv(c, i);
    }
  }

  lemma QuietStepFromStuck(c: Client, a: Action)
    requires Inv(c) && c.server == SEEK_DONE && AllSeeking(c.sources)
    requires Enabled(c, a) && !Apply(c, a).backend.Stopped? && Apply(c, a).events == c.events
    ensures Apply(c, a).server == SEEK_DONE && AllSeeking(Apply(c, a).sources)
    ensures Apply(c, a).sources.Keys == c.sources.Keys
  {
    assert Apply(c, a).events[|c.events|..] == [];
    SameSourcesStep(c, a);
    forall i | i in c.sources ensures Waits(Apply(c, a), i) {
      WaitsStep(c, a, i);
    }
  }

  lemma StuckStep(c: Client, a: Action)
    requires Inv(c) && Enabled(c, a) && c.backend.Ready? && Apply(c, a).backend.Ready?
    requires c.events <= Apply(c, a).events && forall e | e in Apply(c, a).events[|c.events|..] :: e.Flushed?
    ensures Stuck(Apply(c, a)) <==> Stuck(c)
  {
    var b := Apply(c, a);
    if |b.events| > |c.events| {
      assert b.events[|c.events|] in b.events[|c.events|..];
    }
    if Stuck(c) {
      SameSourcesStep(c, a);
      forall i | i in c.sources ensures Waits(b, i) {
        WaitsStep(c, a, i);
      }
    } else if Stuck(b) {
      OnlyRemoveSticks(c, a);
    }
  }

  /** A handler that joins a puller adds an event before the backend is ready again. */
  lemma {:induction false} ReadyBefore(c: Client, acts: seq<Action>, d: Client)
    requires Execution(c, acts, d) && d.backend.Ready?
    requires c.events <= d.events && forall e | e in d.events[|c.events|..] :: e.Flushed?
    ensures c.backend.Ready?
    decreases |acts|
  {
    if acts != [] {
      var b := Apply(c, acts[0]);
      StepEvents(c, acts[0]);
      EventsGrow(b, acts[1..], d);
      SuffixTwice(c.events, b.events, d.events);
      ReadyBefore(b, acts[1..], d);
      JoinedEvent(c, acts[0]);
      if |b.events| > |c.events| {
        assert b.events[|c.events|] == b.events[|c.events|..][0];
        assert b.events[|c.events|] in d.events[|c.events|..];
      }
    }
  }

  lemma {:induction false} StuckRun(c: Client, acts: seq<Action>, d: Client)
    requires Inv(c) && Execution(c, acts, d) && d.backend.Ready?
    requires c.events <= d.events && forall e | e in d.events[|c.events|..] :: e.Flushed?
    ensures Stuck(d) <==> Stuck(c)
    decreases |acts|
  {
    if acts != [] {
      var b := Apply(c, acts[0]);
      StepInv(c, acts[0]);
      StepEvents(c, acts[0]);
      EventsGrow(b, acts[1..], d);
      SuffixTwice(c.events, b.events, d.events);
      ReadyBefore(c, acts, d);
      ReadyBefore(b, acts[1..], d);
      StuckStep(c, acts[0]);
      StuckRun(b, acts[1..], d);
    }
  }

  /** A removal leaves the barrier stuck, for as long as nothing but FLUSHED comes, exactly when
      the removed source was the last one that SEEK_DONE was waiting for. */
  lemma RemoveSticks(before: seq<Action>, c: Client, k: int, acts: seq<Action>, d: Client)
    requires Execution(Init(), before, c) && c.backend == RemovingSource(k) && Enabled(c, PullerJoined)
    requires Execution(Apply(c, PullerJoined), acts, d) && d.backend.Ready?
    requires c.events + [Removed(k)] <= d.events
    requires forall e | e in d.events[|c.events| + 1..] :: e.Flushed?
    ensures Stuck(d) <==>
      c.server == SEEK_DONE && forall i | i in c.sources && i != k :: c.sources[i].seeking == SEEKING
  {
    ReachableInv(Init(), before, c);
    StepInv(c, PullerJoined);
    RemoveStep(c, k);
    StuckRun(Apply(c, PullerJoined), acts, d);
  }

  lemma {:induction false} SeekAfterStuck(c: Client, acts: seq<Action>, d: Client)
    requires Inv(c) && c.server == SEEK_DONE && AllSeeking(c.sources)
    requires Execution(c, acts, d) && !d.backend.Stopped? && c.events < d.events
    requires d.events[|c.events|] == Seek && Round(d.events[|c.events|..], {}, c.sources.Keys)
    ensures BarrierState(d, d.events[|c.events|..], {}, c.sources.Keys)
    decreases |acts|
  {
    var b := Apply(c, acts[0]);
    StepInv(c, acts[0]);
    EventsGrow(b, acts[1..], d);
    NotStoppedBefore(b, acts[1..], d);
    if b.events == c.events {
      QuietStepFromStuck(c, acts[0]);
      SeekAfterStuck(b, acts[1..], d);
    } else {
      var e := NewestEvent(c, acts[0]);
      assert d.events[|c.events|] == b.events[|c.events|] == e;
      SeekStepFromStuck(c, acts[0]);
      assert b.events[|c.events|..] == [Seek];
      BarrierExecution(b, acts[1..], d, c.events, {}, c.sources.Keys);
    }
  }

  /** Or a whole new seek, whose FLUSHED then completes the round: no source has to start again. */
  lemma NewSeekReopens(before: seq<Action>, c: Client, acts: seq<Action>, d: Client)
    requires Execution(Init(), before, c) && Stuck(c)
    requires Execution(c, acts, d) && d.backend.Ready? && c.events < d.events
    requires d.events[|c.events|] == Seek && Round(d.events[|c.events|..], {}, c.sources.Keys)
    ensures d.sources.Keys == c.sources.Keys
    ensures Flushed in d.events[|c.events|..] ==> AllIdle(d)
    ensures Flushed !in d.events[|c.events|..] ==>
      d.server == SEEKING && forall i | i in d.sources :: d.sources[i].seeking == SEEKING && !d.sources[i].running
  {
    ReachableInv(Init(), before, c);
    SeekAfterStuck(c, acts, d);
    assert Seek in d.events[|c.events|..] by { assert d.events[|c.events|..][0] == Seek; }
  }

  // ----- and it is reached

  ghost predicate Reachable(c: Client) {
    exists acts :: Execution(Init(), acts, c)
  }

  lemma Then(c: Client, a: Action) returns (d: Client)
    requires Reachable(c) && Enabled(c, a)
    ensures Reachable(d) && d == Apply(c, a)
  {
    var acts :| Execution(Init(), acts, c);
    Append(Init(), acts, c, a);
    d := Apply(c, a);
  }

  /** A message is posted to the idle backend and handled. */
  lemma Handled(c: Client, m: Message) returns (d: Client)
    requires Reachable(c) && c.backend.Ready? && c.queue == [] && !m.HaveData? && !m.NeedData?
    ensures Reachable(d) && d == HandleMessage(c, m)
  {
    d := Then(c, Post(m));
    assert d.queue == [m] && [m][1..] == [];
    d := Then(d, Handle);
  }

  lemma TwoAttached() returns (c: Client)
    ensures Reachable(c) && c.backend.Ready? && c.queue == [] && c.server == IDLE
    ensures c.sources == map[1 := Source(IDLE, true, []), 2 := Source(IDLE, true, [])]
  {
    assert Execution(Init(), [], Init());
    c := Handled(Init(), AttachCall(1, true));
    c := Handled(c, AttachCall(2, true));
  }

  /** The two sources are attached, the server seeks, and source 1 has started seeking. */
  lemma HalfSought() returns (c: Client)
    ensures Reachable(c) && c.backend.Ready? && c.queue == [] && c.server == SEEKING
    ensures c.sources.Keys == {1, 2}
    ensures c.sources[1] == Source(SEEKING, false, []) && c.sources[2] == Source(IDLE, true, [])
  {
    c := TwoAttached();
    c := Handled(c, SeekCall);
    c := Handled(c, StartedSeekingCall(1));
    c := Then(c, PullerJoined);
  }

  lemma FailedHalfway() returns (c: Client)
    ensures Reachable(c) && c.backend.Ready? && c.queue == [] && c.server == IDLE
    ensures c.sources.Keys == {1, 2}
    ensures c.sources[1] == Source(SEEKING, false, []) && c.sources[2] == Source(IDLE, true, [])
  {
    c := HalfSought();
    c := Handled(c, Playback(FAILURE));
    c := Handled(c, Playback(FLUSHED));
  }

  /** The server fails in the middle of a seek. Although every other event of the round comes, the
      FLUSHED included, no source is pulled any more. */
  lemma FailureStrandsAll() returns (c: Client)
    ensures Reachable(c) && c.backend.Ready? && c.queue == [] && c.server == IDLE
    ensures c.sources.Keys == {1, 2}
    ensures c.sources[1] == Source(SEEKING, false, []) && c.sources[2] == Source(SEEKING, false, [])
  {
    c := FailedHalfway();
    c := Handled(c, StartedSeekingCall(2));
    c := Then(c, PullerJoined);
  }

  /** The one source that the barrier waits for is removed: it stays shut. */
  lemma RemoveSticksReached() returns (c: Client)
    ensures Reachable(c) && Stuck(c) && c.queue == [] && c.sources == map[1 := Source(SEEKING, false, [])]
  {
    c := HalfSought();
    c := Handled(c, Playback(FLUSHED));
    assert c.server == SEEK_DONE;
    c := Handled(c, RemoveCall(2));
    c := Then(c, PullerJoined);
  }
}
