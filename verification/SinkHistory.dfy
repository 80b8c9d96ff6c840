/** What the base sink's flags and threads say about its run
    (source/RialtoGStreamerMSEBaseSink.cpp). */
module SinkHistory {
  import opened BaseSinks
  import opened SinkProtocol

  ghost predicate Never(s: Sink, acts: seq<Action>, clears: (Sink, Action) -> bool)
    decreases |acts|
  {
    acts == [] || !Enabled(s, acts[0])
    || (!clears(s, acts[0]) && Never(Apply(s, acts[0]), acts[1..], clears))
  }

  /** Some step of the run sets a flag, and none after it clears it. */
  ghost predicate Since(s: Sink, acts: seq<Action>, sets: (Sink, Action) -> bool, clears: (Sink, Action) -> bool)
    decreases |acts|
  {
    && acts != [] && Enabled(s, acts[0])
    && ((sets(s, acts[0]) && Never(Apply(s, acts[0]), acts[1..], clears))
        || Since(Apply(s, acts[0]), acts[1..], sets, clears))
  }

  lemma {:induction false} SinceExact(
      s: Sink, acts: seq<Action>, t: Sink, flag: Sink -> bool,
      sets: (Sink, Action) -> bool, clears: (Sink, Action) -> bool)
    requires Execution(s, acts, t)
    requires forall u, a | Enabled(u, a) :: flag(Apply(u, a)) <==> sets(u, a) || (flag(u) && !clears(u, a))
    ensures flag(t) <==> Since(s, acts, sets, clears) || (flag(s) && Never(s, acts, clears))
    decreases |acts|
  {
    if acts != [] {
      SinceExact(Apply(s, acts[0]), acts[1..], t, flag, sets, clears);
    }
  }

  /** FLUSH_START is handled without a flush under way. */
  predicate BeginsFlush(s: Sink, a: Action) {
    a.FlushStartEvent? && !s.flush
  }

  predicate IsEosEvent(s: Sink, a: Action) {
    a.EosEvent?
  }

  lemma EosStep(s: Sink, a: Action)
    requires Enabled(s, a)
    ensures Apply(s, a).eos <==> IsEosEvent(s, a) || (s.eos && !BeginsFlush(s, a))
  {
  }

  /** m_isEos is set exactly if an EOS event has been handled since the last FLUSH_START that began
      a flush; neither other flushes nor leaving PAUSED touch it. */
  lemma EosExactly(acts: seq<Action>, s: Sink)
    requires Execution(Init(), acts, s)
    ensures s.eos <==> Since(Init(), acts, IsEosEvent, BeginsFlush)
  {
    forall u, a | Enabled(u, a) ensures Apply(u, a).eos <==> IsEosEvent(u, a) || (u.eos && !BeginsFlush(u, a)) {
      EosStep(u, a);
    }
    SinceExact(Init(), acts, s, (u: Sink) => u.eos, IsEosEvent, BeginsFlush);
  }

  lemma {:induction false} StaysUnended(s: Sink, acts: seq<Action>, t: Sink)
    requires Execution(s, acts, t) && !s.eos && EosEvent !in acts
    ensures !t.eos
    decreases |acts|
  {
    if acts != [] {
      assert acts[0] in acts;
      StaysUnended(Apply(s, acts[0]), acts[1..], t);
    }
  }

  /** After a flush begins, an empty queue is no end of stream until the next EOS event. */
  lemma NoEosAfterFlush(before: seq<Action>, s: Sink, acts: seq<Action>, t: Sink)
    requires Execution(Init(), before, s) && !s.flush
    requires Execution(Apply(s, FlushStartEvent), acts, t) && EosEvent !in acts
    ensures !(t.samples == [] && t.eos)
  {
    StaysUnended(Apply(s, FlushStartEvent), acts, t);
  }

  predicate Flushes(s: Sink, a: Action) {
    a.FlushStartEvent? || a.ClearQueue?
  }

  predicate Unflushes(s: Sink, a: Action) {
    a.FlushStopEnds? || a.EnterPaused?
  }

  lemma FlushStep(s: Sink, a: Action)
    requires Enabled(s, a)
    ensures Apply(s, a).flush <==> Flushes(s, a) || (s.flush && !Unflushes(s, a))
  {
  }

  /** A flush is under way exactly since a FLUSH_START or the leaving of PAUSED that neither a
      FLUSH_STOP nor an entry into PAUSED has ended. */
  lemma FlushExactly(acts: seq<Action>, s: Sink)
    requires Execution(Init(), acts, s)
    ensures s.flush <==> Since(Init(), acts, Flushes, Unflushes)
  {
    forall u, a | Enabled(u, a) ensures Apply(u, a).flush <==> Flushes(u, a) || (u.flush && !Unflushes(u, a)) {
      FlushStep(u, a);
    }
    SinceExact(Init(), acts, s, (u: Sink) => u.flush, Flushes, Unflushes);
  }

  predicate StartsPuller(s: Sink, a: Action) {
    a.Attach? || a.RestartPuller?
  }

  predicate EndsPuller(s: Sink, a: Action) {
    a.PullerJoined? || a.RemoveSource?
  }

  lemma PullerStep(s: Sink, a: Action)
    requires Enabled(s, a)
    ensures !Apply(s, a).puller.Off? <==> StartsPuller(s, a) || (!s.puller.Off? && !EndsPuller(s, a))
  {
  }

  /** The source has a puller's thread exactly since it was attached or its puller restarted, unless
      that has been joined or the source removed. */
  lemma PullerExactly(acts: seq<Action>, s: Sink)
    requires Execution(Init(), acts, s)
    ensures !s.puller.Off? <==> Since(Init(), acts, StartsPuller, EndsPuller)
  {
    forall u, a | Enabled(u, a)
      ensures !Apply(u, a).puller.Off? <==> StartsPuller(u, a) || (!u.puller.Off? && !EndsPuller(u, a))
    {
      PullerStep(u, a);
    }
    SinceExact(Init(), acts, s, (u: Sink) => !u.puller.Off?, StartsPuller, EndsPuller);
  }

  /** A buffer is taken by chain: it arrives without a flush under way, and a sample can be made. */
  predicate Takes(s: Sink, a: Action) {
    (a == ChainNow(true) || a == ChainResumes(true)) && !s.flush
  }

  function BuffersTaken(s: Sink, acts: seq<Action>): nat
    decreases |acts|
  {
    if acts == [] || !Enabled(s, acts[0]) then 0
    else (if Takes(s, acts[0]) then 1 else 0) + BuffersTaken(Apply(s, acts[0]), acts[1..])
  }

  /** Exactly these buffers have been queued, and a flush keeps out all others. */
  lemma {:induction false} QueuedExactly(s: Sink, acts: seq<Action>, t: Sink)
    requires Execution(s, acts, t)
    ensures t.next == s.next + BuffersTaken(s, acts)
    decreases |acts|
  {
    if acts != [] {
      QueuedExactly(Apply(s, acts[0]), acts[1..], t);
    }
  }

  /** Without flushes that end over a held sample, of the samples queued since the last clearing those
      that came last are queued, in order, and the others were delivered or unusable. */
  lemma QueueIsSuffix(acts: seq<Action>, s: Sink, i: nat)
    requires Execution(Init(), acts, s) && SafeEnds(Init(), acts) && i < |s.samples|
    ensures s.next == BuffersTaken(Init(), acts)
    ensures s.samples[i] == s.next - |s.samples| + i >= s.flushedBefore
  {
    QueuedExactly(Init(), acts, s);
    ReachableSafe(Init(), acts, s);
  }

  /** The streaming thread waits only for a queue that is still full: every pop and every clearing
      that makes space wakes it. */
  lemma ProducerWoken(acts: seq<Action>, s: Sink)
    requires Execution(Init(), acts, s) && s.stream.WaitingForSpace?
    ensures |s.samples| >= 24 && !s.flush
  {
    BoundedExecution(Init(), acts, s);
    ReachableQueue(Init(), acts, s);
  }

  lemma {:induction false} ReachableQueue(s: Sink, acts: seq<Action>, t: Sink)
    requires QueueInv(s) && Execution(s, acts, t)
    ensures QueueInv(t)
    decreases |acts|
  {
    if acts != [] {
      StepQueue(s, acts[0]);
      ReachableQueue(Apply(s, acts[0]), acts[1..], t);
    }
  }

  /** The steps in which a pull loop fetches a sample. */
  function Fetches(s: Sink, acts: seq<Action>): nat
    decreases |acts|
  {
    if acts == [] || !Enabled(s, acts[0]) then 0
    else (if acts[0].GetFront? && Fetched(Apply(s, acts[0]).puller) then 1 else 0) + Fetches(Apply(s, acts[0]), acts[1..])
  }

  /** One pull fetches no more samples than the server asked for. */
  lemma {:induction false} PullBound(s: Sink, acts: seq<Action>, t: Sink)
    requires Execution(s, acts, t) && InPull(s.puller) && forall a | a in acts :: !a.BeginPull?
    ensures Fetches(s, acts) + (if InPull(t.puller) then t.puller.left else 0) <= s.puller.left
    ensures InPull(t.puller) ==> Fetches(s, acts) + t.puller.left == s.puller.left
    decreases |acts|
  {
    if acts != [] {
      assert acts[0] in acts;
      var u := Apply(s, acts[0]);
      if InPull(u.puller) {
        PullBound(u, acts[1..], t);
      } else {
        NoFetches(u, acts[1..], t);
      }
    }
  }

  lemma {:induction false} NoFetches(s: Sink, acts: seq<Action>, t: Sink)
    requires Execution(s, acts, t) && !InPull(s.puller) && forall a | a in acts :: !a.BeginPull?
    ensures !InPull(t.puller) && Fetches(s, acts) == 0
    decreases |acts|
  {
    if acts != [] {
      assert acts[0] in acts;
      NoFetches(Apply(s, acts[0]), acts[1..], t);
    }
  }
}
