/** Seeks in any number and at any time (source/GStreamerMSEMediaPlayerClient.cpp): what the server's
    seeking state and the sources' states are after every run. */
module SeekOrder {
  import opened Common
  import opened MediaPlayerClients

  predicate Handles(c: Client, a: Action, m: Message) {
    a.Handle? && c.queue != [] && c.queue[0] == m
  }

  // ----- the server's events

  /** The events that come from the server or go to it. */
  predicate OfServer(e: SeekEvent) {
    e.Seek? || e.Flushed? || e.Failed?
  }

  function ServerEvents(events: seq<SeekEvent>): seq<SeekEvent> {
    if events == [] then []
    else ServerEvents(events[..|events| - 1]) + OnlyServer(events[|events| - 1])
  }

  function OnlyServer(e: SeekEvent): seq<SeekEvent> {
    if OfServer(e) then [e] else []
  }

  function EventOf(m: Message): seq<SeekEvent> {
    match m
    case SeekCall => [Seek]
    case Playback(FLUSHED) => [Flushed]
    case Playback(FAILURE) => [Failed]
    case _ => []
  }

  function EventsIn(q: seq<Message>): seq<SeekEvent> {
    if q == [] then [] else EventsIn(q[..|q| - 1]) + EventOf(q[|q| - 1])
  }

  function Posted(acts: seq<Action>): seq<SeekEvent> {
    if acts == [] then [] else PostedBy(acts[0]) + Posted(acts[1..])
  }

  function PostedBy(a: Action): seq<SeekEvent> {
    if a.Post? then EventOf(a.m) else []
  }

  lemma EventsInAppend(q: seq<Message>, m: Message)
    ensures EventsIn(q + [m]) == EventsIn(q) + EventOf(m)
  {
    assert (q + [m])[..|q|] == q;
  }

  lemma {:induction false} EventsInFront(q: seq<Message>)
    requires q != []
    ensures EventsIn(q) == EventOf(q[0]) + EventsIn(q[1..])
    decreases |q|
  {
    if |q| == 1 {
      assert q[..0] == [] && q[1..] == [];
    } else {
      var n := |q| - 1;
      EventsInFront(q[..n]);
      var rest := q[1..];
      assert q[..n][1..] == rest[..n - 1] && rest[n - 1] == q[n] && q[..n][0] == q[0];
      Associate(EventOf(q[0]), EventsIn(rest[..n - 1]), EventOf(q[n]));
    }
  }

  lemma ServerEventsAppend(events: seq<SeekEvent>, e: SeekEvent)
    ensures ServerEvents(events + [e]) == ServerEvents(events) + OnlyServer(e)
  {
    assert (events + [e])[..|events|] == events;
  }

  function Known(c: Client): seq<SeekEvent> {
    ServerEvents(c.events) + EventsIn(c.queue)
  }

  lemma HandlerEvents(c: Client, m: Message)
    requires !m.StopCall?
    ensures ServerEvents(HandleMessage(c, m).events) == ServerEvents(c.events) + EventOf(m)
  {
    match m
    case SeekCall => ServerEventsAppend(c.events, Seek);
    case Playback(state) => PlaybackEvents(c, state);
    case AttachCall(i, _) => ServerEventsAppend(c.events, Attached(i));
    case _ => QuietEvents(c, m);
  }

  lemma PlaybackEvents(c: Client, state: PlaybackState)
    ensures ServerEvents(HandlePlaybackState(c, state).events) == ServerEvents(c.events) + EventOf(Playback(state))
  {
    match state
    case FLUSHED =>
      ServerEventsAppend(c.events, Flushed);
      assert HandlePlaybackState(c, FLUSHED).events == c.events + [Flushed];
    case FAILURE => ServerEventsAppend(c.events, Failed);
    case OTHER =>
  }

  lemma QuietEvents(c: Client, m: Message)
    requires !m.StopCall? && !m.SeekCall? && !m.Playback? && !m.AttachCall?
    ensures HandleMessage(c, m).events == c.events && EventOf(m) == []
  {
  }

  lemma QuietQueue(c: Client, m: Message)
    requires !m.StopCall? && !m.NeedData?
    ensures HandleMessage(c, m).queue == c.queue
  {
  }

  lemma NeedDataQueue(c: Client, r: Request)
    ensures HandleNeedData(c, r).queue == c.queue || HandleNeedData(c, r).queue == c.queue + [HaveData(ERROR, r)]
  {
  }

  lemma HandlerQueue(c: Client, m: Message)
    requires !m.StopCall?
    ensures EventsIn(HandleMessage(c, m).queue) == EventsIn(c.queue)
  {
    if m.NeedData? {
      NeedDataQueue(c, m.req);
      EventsInAppend(c.queue, HaveData(ERROR, m.req));
      assert EventsIn(c.queue) + [] == EventsIn(c.queue);
      assert HandleMessage(c, m) == HandleNeedData(c, m.req);
    } else {
      QuietQueue(c, m);
    }
  }

  lemma JoinAppends(c: Client) returns (e: SeekEvent)
    requires Enabled(c, PullerJoined)
    ensures Apply(c, PullerJoined).events == c.events + [e] && !OfServer(e)
    ensures Apply(c, PullerJoined).queue == c.queue && !Apply(c, PullerJoined).backend.Stopped?
  {
    e := if c.backend.StoppingPuller? then Started(c.backend.source) else Removed(c.backend.source);
  }

  lemma JoinEvents(c: Client)
    requires Enabled(c, PullerJoined)
    ensures ServerEvents(Apply(c, PullerJoined).events) == ServerEvents(c.events)
    ensures Apply(c, PullerJoined).queue == c.queue && !Apply(c, PullerJoined).backend.Stopped?
  {
    var e := JoinAppends(c);
    ServerEventsAppend(c.events, e);
  }

  lemma PostKnown(c: Client, m: Message)
    requires Enabled(c, Post(m))
    ensures Known(Apply(c, Post(m))) == Known(c) + EventOf(m)
  {
    EventsInAppend(c.queue, m);
    Associate(ServerEvents(c.events), EventsIn(c.queue), EventOf(m));
  }

  lemma HandleKnown(c: Client)
    requires Enabled(c, Handle) && !c.queue[0].StopCall?
    ensures Known(Apply(c, Handle)) == Known(c)
  {
    var m, b := c.queue[0], c.(queue := c.queue[1..]);
    EventsInFront(c.queue);
    HandlerEvents(b, m);
    HandlerQueue(b, m);
    Associate(ServerEvents(c.events), EventOf(m), EventsIn(b.queue));
  }

  lemma PullKnown(c: Client, i: int, status: MediaSourceStatus)
    requires Enabled(c, Pull(i, status)) && !c.backend.Stopped?
    ensures Known(Apply(c, Pull(i, status))) == Known(c)
  {
    EventsInAppend(c.queue, HaveData(status, c.sources[i].pulls[0]));
  }

  lemma StepKnown(c: Client, a: Action)
    requires Enabled(c, a) && !c.backend.Stopped?
    ensures if Apply(c, a).backend.Stopped? then Apply(c, a).events == c.events
            else Known(Apply(c, a)) == Known(c) + PostedBy(a)
  {
    match a
    case Post(m) => PostKnown(c, m);
    case Handle =>
      if !c.queue[0].StopCall? {
        HandleKnown(c);
      }
    case Pull(i, status) => PullKnown(c, i, status);
    case PullerJoined => JoinEvents(c);
    case PullerStopped(_) =>
  }

  lemma {:induction false} StoppedEvents(c: Client, acts: seq<Action>, d: Client)
    requires Execution(c, acts, d) && c.backend.Stopped?
    ensures d.backend.Stopped? && d.events == c.events
    decreases |acts|
  {
    if acts != [] {
      StoppedEvents(Apply(c, acts[0]), acts[1..], d);
    }
  }

  predicate EventsKnown(d: Client, all: seq<SeekEvent>) {
    if d.backend.Stopped? then ServerEvents(d.events) <= all else Known(d) == all
  }

  lemma PrefixOf<T>(x: seq<T>, y: seq<T>, z: seq<T>)
    ensures x <= (x + y) + z
  {
  }

  lemma {:induction false} RunKnown(c: Client, acts: seq<Action>, d: Client)
    requires Execution(c, acts, d) && !c.backend.Stopped?
    ensures EventsKnown(d, Known(c) + Posted(acts))
    decreases |acts|
  {
    if acts != [] {
      var b := Apply(c, acts[0]);
      StepKnown(c, acts[0]);
      if b.backend.Stopped? {
        StoppedEvents(b, acts[1..], d);
        PrefixOf(ServerEvents(c.events), EventsIn(c.queue), Posted(acts));
      } else {
        RunKnown(b, acts[1..], d);
        Associate(Known(c), PostedBy(acts[0]), Posted(acts[1..]));
      }
    }
  }

  /** Every seek, FLUSHED and FAILURE that is posted takes effect, none is taken for another, and
      they do so in the order in which they are posted, whatever comes between. */
  lemma ServerEventsInOrder(acts: seq<Action>, c: Client)
    requires Execution(Init(), acts, c)
    ensures if c.backend.Stopped? then ServerEvents(c.events) <= Posted(acts)
            else ServerEvents(c.events) + EventsIn(c.queue) == Posted(acts)
  {
    RunKnown(Init(), acts, c);
    assert Known(Init()) == [];
  }

  // ----- the server's state

  predicate LastIsSeek(events: seq<SeekEvent>) {
    LastSeek(ServerEvents(events))
  }

  lemma HandlerServer(c: Client, m: Message)
    requires !m.StopCall?
    ensures var d := HandleMessage(c, m);
      d.server == SEEKING <==> m == SeekCall || (c.server == SEEKING && m != Playback(FLUSHED) && m != Playback(FAILURE))
  {
  }

  lemma HandlerSeeking(c: Client, m: Message)
    requires !m.StopCall? && (c.server == SEEKING <==> LastIsSeek(c.events))
    ensures var d := HandleMessage(c, m); d.server == SEEKING <==> LastIsSeek(d.events)
  {
    HandlerEvents(c, m);
    HandlerServer(c, m);
    EventKinds(m);
    LastAppended(ServerEvents(c.events), EventOf(m));
  }

  predicate LastSeek(s: seq<SeekEvent>) {
    s != [] && s[|s| - 1].Seek?
  }

  lemma LastAppended(s: seq<SeekEvent>, t: seq<SeekEvent>)
    requires |t| <= 1
    ensures LastSeek(s + t) <==> if t == [] then LastSeek(s) else t[0].Seek?
  {
    assert t == [] ==> s + t == s;
  }

  lemma EventKinds(m: Message)
    ensures |EventOf(m)| <= 1
    ensures EventOf(m) == [] <==> m != SeekCall && m != Playback(FLUSHED) && m != Playback(FAILURE)
    ensures EventOf(m) == [Seek] <==> m == SeekCall
    ensures m == Playback(FLUSHED) ==> EventOf(m) == [Flushed]
    ensures m == Playback(FAILURE) ==> EventOf(m) == [Failed]
  {
  }

  lemma JoinServer(c: Client)
    requires Enabled(c, PullerJoined)
    ensures Apply(c, PullerJoined).server == SEEKING <==> c.server == SEEKING
  {
  }

  lemma QuietSeeking(c: Client, a: Action)
    requires Enabled(c, a) && !a.PullerJoined? && (a.Handle? ==> c.queue[0].StopCall?)
    ensures Apply(c, a).server == c.server && Apply(c, a).events == c.events
  {
  }

  lemma StepSeeking(c: Client, a: Action)
    requires Enabled(c, a) && (c.server == SEEKING <==> LastIsSeek(c.events))
    ensures var d := Apply(c, a); d.server == SEEKING <==> LastIsSeek(d.events)
  {
    if a.PullerJoined? {
      JoinEvents(c);
      JoinServer(c);
    } else if a.Handle? && !c.queue[0].StopCall? {
      HandlerSeeking(c.(queue := c.queue[1..]), c.queue[0]);
    } else {
      QuietSeeking(c, a);
    }
  }

  lemma {:induction false} RunSeeking(c: Client, acts: seq<Action>, d: Client)
    requires Execution(c, acts, d) && (c.server == SEEKING <==> LastIsSeek(c.events))
    ensures d.server == SEEKING <==> LastIsSeek(d.events)
    decreases |acts|
  {
    if acts != [] {
      StepSeeking(c, acts[0]);
      RunSeeking(Apply(c, acts[0]), acts[1..], d);
    }
  }

  /** In every run, with any number of seeks in any state of the barrier, the server is SEEKING
      exactly if the last seek has been followed by neither a FLUSHED nor a FAILURE. */
  lemma SeekingExactly(acts: seq<Action>, c: Client)
    requires Execution(Init(), acts, c)
    ensures c.server == SEEKING <==> LastIsSeek(c.events)
  {
    RunSeeking(Init(), acts, c);
  }

  /** The step lets the waiting sources go on: all of them wait, and either the server's FLUSHED is
      the last thing missing, or a source's start. */
  predicate Opens(c: Client, a: Action) {
    && AllSeeking(c.sources)
    && ((Handles(c, a, Playback(FLUSHED)) && c.server == SEEKING)
        || (a.PullerJoined? && c.backend.StoppingPuller? && c.server == SEEK_DONE))
  }

  /** The server's state after each step, from every state. */
  lemma ServerExactly(c: Client, a: Action)
    requires Inv(c) && Enabled(c, a)
    ensures var d := Apply(c, a);
      && (d.server == SEEKING <==>
            Handles(c, a, SeekCall)
            || (c.server == SEEKING && !Handles(c, a, Playback(FLUSHED)) && !Handles(c, a, Playback(FAILURE))))
      && (d.server == SEEK_DONE <==>
            || (c.server == SEEKING && Handles(c, a, Playback(FLUSHED)) && !Opens(c, a))
            || (c.server == SEEK_DONE && !Handles(c, a, SeekCall) && !Handles(c, a, Playback(FAILURE)) && !Opens(c, a)))
  {
    if a.PullerJoined? && c.backend.StoppingPuller? {
      JoinedSource(c);
    }
  }

  lemma JoinedSource(c: Client)
    requires Inv(c) && c.backend.StoppingPuller? && Enabled(c, PullerJoined)
    ensures var i := c.backend.source;
      var s := c.sources[i := c.sources[i].(running := false)];
      c.sources[i].seeking == SEEKING && (AllSeeking(s) <==> AllSeeking(c.sources))
  {
    var i := c.backend.source;
    var s := c.sources[i := c.sources[i].(running := false)];
    assert SourceInv(c, i);
    if AllSeeking(s) {
      forall k | k in c.sources ensures c.sources[k].seeking == SEEKING {
        assert s[k].seeking == SEEKING;
      }
    }
  }

  /** Which sources there are, and which of them wait, after each step: a source comes by an accepted
      attachment, IDLE and running, in whatever state the server is, and goes when removed; it begins
      to wait when its start is handled and stops waiting, running again, only when the barrier
      opens. */
  lemma SourcesExactly(c: Client, a: Action, i: int)
    requires Inv(c) && Enabled(c, a) && !c.backend.Stopped?
    ensures var d := Apply(c, a);
      && (i in d.sources <==>
            || (i in c.sources && !(a.PullerJoined? && c.backend == RemovingSource(i)))
            || Handles(c, a, AttachCall(i, true)))
      && (i in d.sources && i !in c.sources ==> d.sources[i] == Source(IDLE, true, []))
      && (i in d.sources && i in c.sources ==>
            (d.sources[i].seeking == SEEKING <==>
               Handles(c, a, StartedSeekingCall(i)) || (c.sources[i].seeking == SEEKING && !Opens(c, a))))
      && (Opens(c, a) && i in d.sources ==> d.sources[i].seeking == IDLE && d.sources[i].running && d.server == IDLE)
  {
    if i in c.sources {
      assert SourceInv(c, i);
    }
    if a.Handle? {
      HandledSource(c.(queue := c.queue[1..]), c.queue[0], i);
    } else if a.PullerJoined? && c.backend.StoppingPuller? {
      JoinedSource(c);
    }
  }

  lemma HandledSource(c: Client, m: Message, i: int)
    requires c.backend.Ready? && (i in c.sources ==> c.sources[i].seeking != SEEK_DONE)
    ensures var d := HandleMessage(c, m);
      var opens := m == Playback(FLUSHED) && c.server == SEEKING && AllSeeking(c.sources);
      && (i in d.sources <==> i in c.sources || m == AttachCall(i, true))
      && (i in d.sources && i !in c.sources ==> d.sources[i] == Source(IDLE, true, []))
      && (i in d.sources && i in c.sources ==>
            (d.sources[i].seeking == SEEKING <==>
               m == StartedSeekingCall(i) || (c.sources[i].seeking == SEEKING && !opens)))
      && (opens && i in d.sources ==> d.sources[i].seeking == IDLE && d.sources[i].running && d.server == IDLE)
  {
  }

  /** After stopStreaming only the pullers end, each when its pulls are finished. */
  lemma StoppedSources(c: Client, a: Action, i: int)
    requires Enabled(c, a) && c.backend.Stopped?
    ensures var d := Apply(c, a);
      && d.backend.Stopped? && d.server == c.server && d.sources.Keys == c.sources.Keys
      && (i in c.sources ==>
            d.sources[i].seeking == c.sources[i].seeking
            && (d.sources[i].running <==> c.sources[i].running && a != PullerStopped(i))
            && (a == PullerStopped(i) ==> c.sources[i].pulls == []))
  {
  }

  // ----- no start before the FLUSHED of the latest seek

  lemma StepWithoutFlushed(c: Client, a: Action, i: int)
    requires Inv(c) && Enabled(c, a) && c.server != SEEK_DONE && i in c.sources && c.sources[i].seeking == SEEKING
    requires !Apply(c, a).backend.Stopped? && !Handles(c, a, Playback(FLUSHED))
    requires !(a.PullerJoined? && c.backend == RemovingSource(i))
    ensures var d := Apply(c, a); d.server != SEEK_DONE && i in d.sources && d.sources[i].seeking == SEEKING
  {
    ServerExactly(c, a);
    SourcesExactly(c, a, i);
  }

  /** No FLUSHED is handled in the run, and source `i` is not removed. */
  ghost predicate NoFlushed(c: Client, acts: seq<Action>, i: int)
    decreases |acts|
  {
    acts == [] || !Enabled(c, acts[0])
    || (!Handles(c, acts[0], Playback(FLUSHED)) && !(acts[0].PullerJoined? && c.backend == RemovingSource(i))
        && NoFlushed(Apply(c, acts[0]), acts[1..], i))
  }

  lemma {:induction false} RunWithoutFlushed(c: Client, acts: seq<Action>, d: Client, i: int)
    requires Inv(c) && Execution(c, acts, d) && !c.backend.Stopped? && !d.backend.Stopped?
    requires c.server != SEEK_DONE && i in c.sources && c.sources[i].seeking == SEEKING && NoFlushed(c, acts, i)
    ensures d.server != SEEK_DONE && i in d.sources && d.sources[i].seeking == SEEKING
    decreases |acts|
  {
    if acts != [] {
      var b := Apply(c, acts[0]);
      StepInv(c, acts[0]);
      if b.backend.Stopped? {
        StoppedEvents(b, acts[1..], d);
      } else {
        StepWithoutFlushed(c, acts[0], i);
        RunWithoutFlushed(b, acts[1..], d, i);
      }
    }
  }

  /** A seek handled in any reachable state, also while an earlier one is not finished yet, keeps every
      waiting source stopped until a FLUSHED that comes after it: neither the missing starts of the
      earlier seek, nor more seeks, nor failures let it go on. */
  lemma NoRestartBeforeFlushed(before: seq<Action>, c: Client, acts: seq<Action>, d: Client, i: int)
    requires Execution(Init(), before, c) && Enabled(c, Handle) && c.queue[0] == SeekCall
    requires Execution(Apply(c, Handle), acts, d) && !d.backend.Stopped? && NoFlushed(Apply(c, Handle), acts, i)
    requires i in c.sources && c.sources[i].seeking == SEEKING
    ensures i in d.sources && d.sources[i].seeking == SEEKING && d.server != SEEK_DONE
    ensures d.backend != StoppingPuller(i) ==> !d.sources[i].running
  {
    ReachableInv(Init(), before, c);
    StepInv(c, Handle);
    RunWithoutFlushed(Apply(c, Handle), acts, d, i);
    ReachableInv(Apply(c, Handle), acts, d);
    assert SourceInv(d, i);
  }

  /** The same for a source that starts seeking only later. */
  lemma StartedStaysStopped(before: seq<Action>, c: Client, acts: seq<Action>, d: Client, i: int)
    requires Execution(Init(), before, c) && c.server == SEEKING
    requires Enabled(c, Handle) && c.queue[0] == StartedSeekingCall(i) && i in c.sources
    requires Execution(Apply(c, Handle), acts, d) && !d.backend.Stopped? && NoFlushed(Apply(c, Handle), acts, i)
    ensures i in d.sources && d.sources[i].seeking == SEEKING && d.server != SEEK_DONE
    ensures d.backend != StoppingPuller(i) ==> !d.sources[i].running
  {
    ReachableInv(Init(), before, c);
    StepInv(c, Handle);
    RunWithoutFlushed(Apply(c, Handle), acts, d, i);
    ReachableInv(Apply(c, Handle), acts, d);
    assert SourceInv(d, i);
  }
}
