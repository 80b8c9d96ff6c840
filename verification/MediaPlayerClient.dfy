/** The MSE player client (source/GStreamerMSEMediaPlayerClient.cpp): its backend event loop,
    one puller event loop per attached source, and the messages that pass between them. */
module MediaPlayerClients {

  datatype SeekingState = IDLE | SEEKING | SEEK_DONE

  datatype MediaSourceStatus = OK | EOS | NO_AVAILABLE_SAMPLES | ERROR

  /** The playback states the client treats differently. */
  datatype PlaybackState = FLUSHED | FAILURE | OTHER

  /** One notifyNeedMediaData of the server. */
  datatype Request = Request(source: int, frameCount: nat, id: nat)

  /** An attached source, with its puller's m_running flag and queued pull requests; the head
      of `pulls` may already be in progress on the puller's thread. */
  datatype Source = Source(seeking: SeekingState, running: bool, pulls: seq<Request>)

  /** What the backend's queue holds: messages, and calls that client threads wait for. */
  datatype Message =
    | NeedData(req: Request)
    | HaveData(status: MediaSourceStatus, req: Request)
    | Playback(state: PlaybackState)
    | SeekCall
    | StartedSeekingCall(source: int)
    | AttachCall(source: int, accepted: bool)  // accepted: the server's answer
    | RemoveCall(source: int)
    | StopCall                                 // stopStreaming

  /** The backend's event loop is between two messages, inside the handler of a call that
      waits for a puller to be joined, or stopped for good. */
  datatype Backend = Ready | StoppingPuller(source: int) | RemovingSource(source: int) | Stopped

  /** A handled message that matters to the seek barrier. */
  datatype SeekEvent = Seek | Flushed | Failed | Started(source: int) | Attached(source: int) | Removed(source: int)

  /** A HaveData that was handled; `called` says that the server's haveData was called with it. */
  datatype Reply = Reply(status: MediaSourceStatus, req: Request, called: bool)

  datatype Client = Client(
    server: SeekingState,
    sources: map<int, Source>,
    queue: seq<Message>,
    backend: Backend,
    // history
    issued: multiset<Request>,     // NeedData posted by the server
    answered: multiset<Request>,   // haveData called
    replies: seq<Reply>,
    discarded: multiset<Request>,  // dropped, because the source is unknown or streaming has stopped
    events: seq<SeekEvent>)

  function Init(): Client {
    Client(IDLE, map[], [], Ready, multiset{}, multiset{}, [], multiset{}, [])
  }

  // ----- handlers

  predicate AllSeeking(sources: map<int, Source>) {
    forall i | i in sources :: sources[i].seeking == SEEKING
  }

  function Restart(sources: map<int, Source>): map<int, Source> {
    map i | i in sources :: sources[i].(seeking := IDLE, running := true)
  }

  function StartPullingDataIfSeekFinished(c: Client): Client {
    if c.server == SEEK_DONE && AllSeeking(c.sources)
    then c.(server := IDLE, sources := Restart(c.sources))
    else c
  }

  /** requestPullBuffer's answer: the puller's queue takes the request. */
  predicate AcceptsPull(c: Client, r: Request) {
    r.source in c.sources && c.server == IDLE && c.sources[r.source].running
  }

  function HandleNeedData(c: Client, r: Request): Client {
    if AcceptsPull(c, r)
    then var s := c.sources[r.source];
         c.(sources := c.sources[r.source := s.(pulls := s.pulls + [r])])
    else c.(queue := c.queue + [HaveData(ERROR, r)])
  }

  function HandleHaveData(c: Client, status: MediaSourceStatus, r: Request): Client {
    if r.source in c.sources
    then c.(answered := c.answered + multiset{r}, replies := c.replies + [Reply(status, r, true)])
    else c.(discarded := c.discarded + multiset{r}, replies := c.replies + [Reply(status, r, false)])
  }

  function HandlePlaybackState(c: Client, state: PlaybackState): Client {
    match state
    case FLUSHED =>
      var c' := c.(events := c.events + [Flushed]);
      if c.server == SEEKING then StartPullingDataIfSeekFinished(c'.(server := SEEK_DONE)) else c'
    case FAILURE => c.(server := IDLE, events := c.events + [Failed])
    case OTHER => c
  }

  function HandleSeek(c: Client): Client {
    c.(server := SEEKING, events := c.events + [Seek])
  }

  /** notifySourceStartedSeeking up to the point where it waits for the puller. */
  function BeginStartedSeeking(c: Client, i: int): Client {
    if i in c.sources
    then c.(sources := c.sources[i := c.sources[i].(seeking := SEEKING)], backend := StoppingPuller(i))
    else c
  }

  /** The rest of it, once the puller has been joined. */
  function FinishStartedSeeking(c: Client, i: int): Client
    requires i in c.sources
  {
    StartPullingDataIfSeekFinished(
      c.(sources := c.sources[i := c.sources[i].(running := false)],
         backend := Ready, events := c.events + [Started(i)]))
  }

  function HandleAttach(c: Client, i: int, accepted: bool): Client {
    if accepted && i !in c.sources
    then c.(sources := c.sources[i := Source(IDLE, true, [])], events := c.events + [Attached(i)])
    else c
  }

  /** removeSource: erasing the source destroys its puller, which joins its thread. */
  function BeginRemove(c: Client, i: int): Client {
    if i in c.sources then c.(backend := RemovingSource(i)) else c
  }

  function FinishRemove(c: Client, i: int): Client {
    c.(sources := c.sources - {i}, backend := Ready, events := c.events + [Removed(i)])
  }

  function Requests(q: seq<Message>): (rs: seq<Request>) {
    if q == [] then []
    else (if q[0].NeedData? || q[0].HaveData? then [q[0].req] else []) + Requests(q[1..])
  }

  /** m_backendQueue->stop(): the messages behind the stop are skipped. */
  function HandleStop(c: Client): Client {
    c.(queue := [], backend := Stopped, discarded := c.discarded + multiset(Requests(c.queue)))
  }

  /** What the backend's event loop does with a message it has taken from its queue. */
  function HandleMessage(c: Client, m: Message): Client {
    match m
    case NeedData(r) => HandleNeedData(c, r)
    case HaveData(status, r) => HandleHaveData(c, status, r)
    case Playback(state) => HandlePlaybackState(c, state)
    case SeekCall => HandleSeek(c)
    case StartedSeekingCall(i) => BeginStartedSeeking(c, i)
    case AttachCall(i, accepted) => HandleAttach(c, i, accepted)
    case RemoveCall(i) => BeginRemove(c, i)
    case StopCall => HandleStop(c)
  }

  /** PullBufferMessage::handle seen from the queues: the request comes back as HaveData,
      unless the backend's queue refuses it. */
  function FinishPull(c: Client, i: int, status: MediaSourceStatus): Client
    requires i in c.sources && c.sources[i].pulls != []
  {
    var s := c.sources[i];
    var c' := c.(sources := c.sources[i := s.(pulls := s.pulls[1..])]);
    if c.backend.Stopped? then c'.(discarded := c.discarded + multiset{s.pulls[0]})
    else c'.(queue := c.queue + [HaveData(status, s.pulls[0])])
  }

  // ----- the system of all the threads

  datatype Action =
    | Post(m: Message)                              // the server, or a client thread
    | Handle                                        // the backend's event loop takes a message
    | PullerJoined                                  // its handler goes on after joining a puller
    | Pull(source: int, status: MediaSourceStatus)  // a puller's thread finishes a pull
    | PullerStopped(source: int)                    // stopStreaming goes on after joining a puller

  predicate Enabled(c: Client, a: Action) {
    match a
    case Post(m) => !c.backend.Stopped? && !m.HaveData?
    case Handle => c.backend.Ready? && c.queue != []
    case PullerJoined =>
      && (c.backend.StoppingPuller? || c.backend.RemovingSource?)
      && c.backend.source in c.sources
      && c.sources[c.backend.source].pulls == []
    case Pull(i, _) => i in c.sources && c.sources[i].running && c.sources[i].pulls != []
    case PullerStopped(i) =>
      c.backend.Stopped? && i in c.sources && c.sources[i].running && c.sources[i].pulls == []
  }

  function Apply(c: Client, a: Action): Client
    requires Enabled(c, a)
  {
    match a
    case Post(m) =>
      c.(queue := c.queue + [m], issued := if m.NeedData? then c.issued + multiset{m.req} else c.issued)
    case Handle => HandleMessage(c.(queue := c.queue[1..]), c.queue[0])
    case PullerJoined =>
      if c.backend.StoppingPuller? then FinishStartedSeeking(c, c.backend.source)
      else FinishRemove(c, c.backend.source)
    case Pull(i, status) => FinishPull(c, i, status)
    case PullerStopped(i) => c.(sources := c.sources[i := c.sources[i].(running := false)])
  }

  ghost predicate Execution(c: Client, acts: seq<Action>, d: Client)
    decreases |acts|
  {
    if acts == [] then c == d
    else Enabled(c, acts[0]) && Execution(Apply(c, acts[0]), acts[1..], d)
  }

  lemma {:induction false} Concat(c: Client, acts: seq<Action>, d: Client, more: seq<Action>, e: Client)
    requires Execution(c, acts, d) && Execution(d, more, e)
    ensures Execution(c, acts + more, e)
    decreases |acts|
  {
    if acts == [] {
      assert acts + more == more;
    } else {
      assert (acts + more)[1..] == acts[1..] + more;
      Concat(Apply(c, acts[0]), acts[1..], d, more, e);
    }
  }

  lemma Once(c: Client, a: Action)
    requires Enabled(c, a)
    ensures Execution(c, [a], Apply(c, a))
  {
    assert [a][1..] == [];
    assert Execution(Apply(c, a), [], Apply(c, a));
  }

  lemma Append(c: Client, acts: seq<Action>, d: Client, a: Action)
    requires Execution(c, acts, d) && Enabled(d, a)
    ensures Execution(c, acts + [a], Apply(d, a))
  {
    Once(d, a);
    Concat(c, acts, d, [a], Apply(d, a));
  }

  // ----- what holds of every source before stopStreaming

  /** The source whose puller the current handler is about to join. */
  predicate IsStopping(c: Client, i: int) {
    c.backend == StoppingPuller(i)
  }

  ghost predicate SourceInv(c: Client, i: int)
    requires i in c.sources
  {
    var s := c.sources[i];
    && s.seeking != SEEK_DONE
    && (IsStopping(c, i) ==> s.seeking == SEEKING)
    && (!IsStopping(c, i) ==> (s.running <==> s.seeking == IDLE))
    && (!s.running ==> s.pulls == [])
    && forall r | r in s.pulls :: r.source == i
  }

  ghost predicate Inv(c: Client) {
    && (c.backend.StoppingPuller? || c.backend.RemovingSource? ==> c.backend.source in c.sources)
    && (!c.backend.Stopped? ==> forall i | i in c.sources :: SourceInv(c, i))
    && forall i | i in c.sources ::
      (!c.sources[i].running ==> c.sources[i].pulls == [])
      && forall r | r in c.sources[i].pulls :: r.source == i
  }

  lemma StepInv(c: Client, a: Action)
    requires Inv(c) && Enabled(c, a)
    ensures Inv(Apply(c, a))
  {
    if a.Handle? {
      HandleInv(c);
    } else {
      OtherStepInv(c, a);
    }
  }

  lemma HandleInv(c: Client)
    requires Inv(c) && Enabled(c, Handle)
    ensures Inv(Apply(c, Handle))
  {
    var d := Apply(c, Handle);
    forall i | i in d.sources && !d.backend.Stopped? ensures SourceInv(d, i) {
      if i in c.sources {
        assert SourceInv(c, i);
      }
    }
  }

  lemma OtherStepInv(c: Client, a: Action)
    requires Inv(c) && Enabled(c, a) && !a.Handle?
    ensures Inv(Apply(c, a))
  {
    var d := Apply(c, a);
    forall i | i in d.sources && !d.backend.Stopped? ensures SourceInv(d, i) {
      if i in c.sources {
        assert SourceInv(c, i);
      }
    }
  }

  lemma {:induction false} ReachableInv(c: Client, acts: seq<Action>, d: Client)
    requires Inv(c) && Execution(c, acts, d)
    ensures Inv(d)
    decreases |acts|
  {
    if acts != [] {
      StepInv(c, acts[0]);
      ReachableInv(Apply(c, acts[0]), acts[1..], d);
    }
  }

  /** In every reachable state before stopStreaming, with any attaching, removing, seeking,
      flushing and failing on the way, a source is IDLE or SEEKING and its puller runs exactly
      when it is IDLE (apart from the one source whose puller is just being joined). */
  lemma PullersFollowSeeking(acts: seq<Action>, c: Client, i: int)
    requires Execution(Init(), acts, c) && !c.backend.Stopped? && i in c.sources
    ensures c.sources[i].seeking == IDLE || c.sources[i].seeking == SEEKING
    ensures c.backend != StoppingPuller(i) ==> (c.sources[i].running <==> c.sources[i].seeking == IDLE)
  {
    ReachableInv(Init(), acts, c);
    assert SourceInv(c, i);
  }

  /** Hence a pull is accepted exactly when source and server are both IDLE, and a refused one
      puts exactly one ERROR HaveData, and nothing else, on the backend's queue. */
  lemma PullAcceptance(acts: seq<Action>, c: Client, r: Request)
    requires Execution(Init(), acts, c) && c.backend.Ready? && c.queue != [] && c.queue[0] == NeedData(r)
    ensures var d := Apply(c, Handle);
      if r.source in c.sources && c.server == IDLE && c.sources[r.source].seeking == IDLE then
        d.queue == c.queue[1..]
        && d.sources == c.sources[r.source := c.sources[r.source].(pulls := c.sources[r.source].pulls + [r])]
      else
        d.queue == c.queue[1..] + [HaveData(ERROR, r)] && d.sources == c.sources
  {
    ReachableInv(Init(), acts, c);
    if r.source in c.sources {
      assert SourceInv(c, r.source);
    }
  }

  // ----- the object that runs on the backend's event loop

  /** The client's fields, and its handlers as the backend's event loop runs them. */
  class MediaPlayerClient {
    var serverSeekingState: SeekingState
    var attachedSources: map<int, Source>
    var backendQueue: seq<Message>
    ghost var history: Client  // only its history fields are used

    ghost function View(): Client
      reads this
    {
      history.(server := serverSeekingState, sources := attachedSources,
               queue := backendQueue, backend := Ready)
    }

    constructor ()
      ensures View() == Init()
    {
      serverSeekingState, attachedSources, backendQueue := IDLE, map[], [];
      history := Init();
    }

    method StartPulling()
      modifies this
      ensures View() == StartPullingDataIfSeekFinished(old(View()))
    {
      if serverSeekingState != SEEK_DONE {
        return;
      }
      var rest := attachedSources.Keys;
      while exists i :: i in rest
        invariant rest <= attachedSources.Keys
        invariant forall i | i in attachedSources && i !in rest :: attachedSources[i].seeking == SEEKING
        decreases rest
      {
        var i :| i in rest;
        if attachedSources[i].seeking != SEEKING {
          return;
        }
        rest := rest - {i};
      }
      serverSeekingState := IDLE;
      rest := attachedSources.Keys;
      ghost var before := attachedSources;
      while exists i :: i in rest
        invariant rest <= before.Keys && attachedSources.Keys == before.Keys
        invariant forall i | i in before :: attachedSources[i] == if i in rest then before[i] else Restart(before)[i]
        invariant serverSeekingState == IDLE && backendQueue == old(backendQueue) && history == old(history)
        decreases rest
      {
        var i :| i in rest;
        attachedSources := attachedSources[i := attachedSources[i].(running := true)];
        attachedSources := attachedSources[i := attachedSources[i].(seeking := IDLE)];
        rest := rest - {i};
      }
      assert forall i | i in before :: i !in rest && attachedSources[i] == Restart(before)[i];
      assert attachedSources == Restart(before);
    }

    method SeekTo()
      modifies this
      ensures View() == HandleSeek(old(View()))
    {
      serverSeekingState := SEEKING;
      history := history.(events := history.events + [Seek]);
    }

    /** m_bufferPuller->stop() as the backend sees it: the puller finishes the pulls queued
        before its stop message, with the outcomes `statuses`, and is joined. */
    method StopPuller(i: int, statuses: seq<MediaSourceStatus>)
      requires i in attachedSources && |statuses| == |attachedSources[i].pulls|
      modifies this
      ensures var d := FinishPulls(old(View()), i, statuses);
              View() == d.(sources := d.sources[i := d.sources[i].(running := false)])
    {
      var k := 0;
      while k < |statuses|
        invariant k <= |statuses| && i in attachedSources
        invariant |attachedSources[i].pulls| == |statuses| - k
        invariant FinishPulls(View(), i, statuses[k..]) == FinishPulls(old(View()), i, statuses)
      {
        var s := attachedSources[i];
        backendQueue := backendQueue + [HaveData(statuses[k], s.pulls[0])];
        attachedSources := attachedSources[i := s.(pulls := s.pulls[1..])];
        k := k + 1;
      }
      attachedSources := attachedSources[i := attachedSources[i].(running := false)];
    }

    method NotifySourceStartedSeeking(i: int, statuses: seq<MediaSourceStatus>)
      requires i in attachedSources ==> |statuses| == |attachedSources[i].pulls|
      modifies this
      ensures View() == if i !in old(attachedSources) then old(View())
        else FinishStartedSeeking(
          FinishPulls(BeginStartedSeeking(old(View()), i).(backend := Ready), i, statuses), i)
    {
      if i !in attachedSources {
        return;
      }
      attachedSources := attachedSources[i := attachedSources[i].(seeking := SEEKING)];
      StopPuller(i, statuses);
      history := history.(events := history.events + [Started(i)]);
      StartPulling();
    }

    method RemoveSource(i: int, statuses: seq<MediaSourceStatus>)
      requires i in attachedSources ==> |statuses| == |attachedSources[i].pulls|
      modifies this
      ensures View() == if i !in old(attachedSources) then old(View())
                        else FinishRemove(FinishPulls(old(View()), i, statuses), i)
    {
      if i !in attachedSources {
        return;
      }
      StopPuller(i, statuses);
      ghost var d := FinishPulls(old(View()), i, statuses);
      assert d.sources - {i} == attachedSources - {i};
      attachedSources := attachedSources - {i};
      history := history.(events := history.events + [Removed(i)]);
    }

    method HandlePlaybackStateChange(state: PlaybackState)
      modifies this
      ensures View() == HandlePlaybackState(old(View()), state)
    {
      match state
      case FLUSHED =>
        history := history.(events := history.events + [Flushed]);
        if serverSeekingState == SEEKING {
          serverSeekingState := SEEK_DONE;
          StartPulling();
        }
      case FAILURE =>
        history := history.(events := history.events + [Failed]);
        serverSeekingState := IDLE;
      case OTHER =>
    }

    method AttachSource(i: int, accepted: bool)
      modifies this
      ensures View() == HandleAttach(old(View()), i, accepted)
    {
      if accepted {
        if i !in attachedSources {
          attachedSources := attachedSources[i := Source(IDLE, true, [])];
          history := history.(events := history.events + [Attached(i)]);
        }
      }
    }

    method RequestPullBuffer(r: Request) returns (result: bool)
      modifies this
      ensures result == AcceptsPull(old(View()), r)
      ensures View() == if result then HandleNeedData(old(View()), r) else old(View())
    {
      if r.source !in attachedSources || serverSeekingState != IDLE {
        return false;
      }
      var s := attachedSources[r.source];
      if !s.running {
        return false;
      }
      attachedSources := attachedSources[r.source := s.(pulls := s.pulls + [r])];
      return true;
    }

    method HandleNeedDataMessage(r: Request)
      modifies this
      ensures View() == HandleNeedData(old(View()), r)
    {
      var result := RequestPullBuffer(r);
      if !result {
        backendQueue := backendQueue + [HaveData(ERROR, r)];
      }
    }

    /** `called` says whether the server's haveData was reached, with this status. */
    method HandleHaveDataMessage(status: MediaSourceStatus, r: Request) returns (called: bool)
      modifies this
      ensures View() == HandleHaveData(old(View()), status, r)
      ensures called == (r.source in old(attachedSources))
      ensures history.replies == old(history.replies) + [Reply(status, r, called)]
    {
      called := r.source in attachedSources;
      history := history.(replies := history.replies + [Reply(status, r, called)]);
      if !called {
        history := history.(discarded := history.discarded + multiset{r});
        return;
      }
      history := history.(answered := history.answered + multiset{r});
    }
  }

  /** A puller finishes all its pulls while the backend waits to join it. */
  function FinishPulls(c: Client, i: int, statuses: seq<MediaSourceStatus>): (d: Client)
    requires i in c.sources && |c.sources[i].pulls| == |statuses|
    ensures d.sources.Keys == c.sources.Keys && d.sources[i] == c.sources[i].(pulls := [])
    ensures d.backend == c.backend
    decreases |statuses|
  {
    if statuses == [] then c else FinishPulls(FinishPull(c, i, statuses[0]), i, statuses[1..])
  }

  // ----- the handlers of the object are runs of the system

  function Pulls(i: int, statuses: seq<MediaSourceStatus>): seq<Action> {
    if statuses == [] then [] else [Pull(i, statuses[0])] + Pulls(i, statuses[1..])
  }

  lemma {:induction false} PullsExecute(c: Client, i: int, statuses: seq<MediaSourceStatus>)
    requires i in c.sources && |c.sources[i].pulls| == |statuses| && (statuses != [] ==> c.sources[i].running)
    ensures Execution(c, Pulls(i, statuses), FinishPulls(c, i, statuses))
    decreases |statuses|
  {
    if statuses != [] {
      var a, rest := Pull(i, statuses[0]), Pulls(i, statuses[1..]);
      PullsExecute(Apply(c, a), i, statuses[1..]);
      assert ([a] + rest)[1..] == rest;
    }
  }

  /** A pull looks at the backend's state only to see whether it has stopped. */
  lemma {:induction false} FinishPullsFrame(c: Client, i: int, statuses: seq<MediaSourceStatus>, b: Backend)
    requires i in c.sources && |c.sources[i].pulls| == |statuses| && !c.backend.Stopped? && !b.Stopped?
    ensures FinishPulls(c.(backend := b), i, statuses) == FinishPulls(c, i, statuses).(backend := b)
    decreases |statuses|
  {
    if statuses != [] {
      FinishPullsFrame(FinishPull(c, i, statuses[0]), i, statuses[1..], b);
    }
  }

  /** What NotifySourceStartedSeeking does at once is a run of the system: the backend takes the
      call, the puller finishes its pulls, and the handler goes on. */
  lemma StartedSeekingExecutes(c: Client, i: int, statuses: seq<MediaSourceStatus>)
    requires Inv(c) && c.backend.Ready? && c.queue != [] && c.queue[0] == StartedSeekingCall(i)
    requires i in c.sources && |c.sources[i].pulls| == |statuses|
    ensures var b := c.(queue := c.queue[1..]);
      Execution(c, [Handle] + Pulls(i, statuses) + [PullerJoined],
        FinishStartedSeeking(FinishPulls(BeginStartedSeeking(b, i).(backend := Ready), i, statuses), i))
  {
    var b := BeginStartedSeeking(c.(queue := c.queue[1..]), i);
    Once(c, Handle);
    PullsExecute(b, i, statuses);
    Concat(c, [Handle], b, Pulls(i, statuses), FinishPulls(b, i, statuses));
    Append(c, [Handle] + Pulls(i, statuses), FinishPulls(b, i, statuses), PullerJoined);
    FinishPullsFrame(b, i, statuses, Ready);
  }

  /** And so is RemoveSource. */
  lemma RemoveExecutes(c: Client, i: int, statuses: seq<MediaSourceStatus>)
    requires Inv(c) && c.backend.Ready? && c.queue != [] && c.queue[0] == RemoveCall(i)
    requires i in c.sources && |c.sources[i].pulls| == |statuses|
    ensures var b := c.(queue := c.queue[1..]);
      Execution(c, [Handle] + Pulls(i, statuses) + [PullerJoined], FinishRemove(FinishPulls(b, i, statuses), i))
  {
    var b := BeginRemove(c.(queue := c.queue[1..]), i);
    Once(c, Handle);
    PullsExecute(b, i, statuses);
    Concat(c, [Handle], b, Pulls(i, statuses), FinishPulls(b, i, statuses));
    Append(c, [Handle] + Pulls(i, statuses), FinishPulls(b, i, statuses), PullerJoined);
    FinishPullsFrame(b, i, statuses, Ready);
  }
}
