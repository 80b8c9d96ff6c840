/** How the sink that controls the client waits for its seek to finish: the thread handling
    FLUSH_STOP holds m_seekMutex from before client->seek until it waits on
    m_seekCondVariable (source/RialtoGStreamerMSEBaseSink.cpp), and the backend's event loop
    takes that mutex to notify it (source/GStreamerMSEMediaPlayerClient.cpp). */
module SeekHandshake {
  import opened Common
  import opened MediaPlayerClients

  /** Outside the critical section; holding the mutex and about to call seek; blocked in the
      call; returned from it; waiting; notified. */
  datatype SinkThread = Outside | Locked | Calling | Returned | Waiting | Notified

  datatype Item = SeekItem | State(state: PlaybackState)

  /** The event loop is between messages, or about to notify the sink. */
  datatype Loop = Idle | Notifying

  datatype Handshake = Handshake(
    server: SeekingState, sink: SinkThread, mutexFree: bool, queue: seq<Item>, loop: Loop,
    attached: bool)  // m_sourceAttached, and the source is one of m_attachedSources

  datatype Action =
    | TakeMutex | CallSeek | Wait | Leave
    | ServerPosts(state: PlaybackState) | HandleNext | Notify | BarrierOpens
    | Attach  // caps come on the thread that seeks, and the event loop adds the source

  predicate Enabled(h: Handshake, a: Action) {
    match a
    case TakeMutex => h.sink.Outside? && h.mutexFree
    case CallSeek => h.sink.Locked?
    case Wait => h.sink.Returned?
    case Leave => h.sink.Notified? && h.mutexFree
    case ServerPosts(_) => true
    case HandleNext => h.loop.Idle? && h.queue != []
    case Notify => h.loop.Notifying? && h.mutexFree
    case BarrierOpens => h.loop.Idle? && h.server == SEEK_DONE
    case Attach => h.sink.Outside? && h.loop.Idle? && !h.attached
  }

  function HandleItem(h: Handshake, item: Item): Handshake {
    match item
    case SeekItem =>
      h.(server := SEEKING, sink := if h.sink.Calling? then Returned else h.sink)
    case State(FLUSHED) =>
      if h.server == SEEKING
      then h.(server := SEEK_DONE, loop := if h.attached then Notifying else Idle)
      else h
    case State(FAILURE) =>
      h.(server := IDLE, loop := if h.server == SEEKING && h.attached then Notifying else Idle)
    case State(OTHER) => h
  }

  function Apply(h: Handshake, a: Action): Handshake
    requires Enabled(h, a)
  {
    match a
    case TakeMutex => h.(sink := Locked, mutexFree := false)
    case CallSeek => h.(sink := Calling, queue := h.queue + [SeekItem])
    case Wait => h.(sink := if h.attached then Waiting else Outside, mutexFree := true)
    case Leave => h.(sink := Outside)
    case ServerPosts(state) => h.(queue := h.queue + [State(state)])
    case HandleNext => HandleItem(h.(queue := h.queue[1..]), h.queue[0])
    case Notify => h.(loop := Idle, sink := if h.sink.Waiting? then Notified else h.sink)
    case BarrierOpens => h.(server := IDLE)
    case Attach => h.(attached := true)
  }

  /** The server's state changes by these steps only: the seek makes it SEEKING, a FLUSHED then
      SEEK_DONE, and a FAILURE or the opening of the barrier IDLE. */
  lemma ServerExactly(h: Handshake, a: Action)
    requires Enabled(h, a)
    ensures var g := Apply(h, a);
      var handled := a.HandleNext? && h.queue != [];
      && (g.server == SEEKING <==>
            (handled && h.queue[0] == SeekItem)
            || (h.server == SEEKING && !(handled && (h.queue[0] == State(FLUSHED) || h.queue[0] == State(FAILURE)))))
      && (g.server == SEEK_DONE <==>
            (h.server == SEEKING && handled && h.queue[0] == State(FLUSHED))
            || (h.server == SEEK_DONE && !a.BarrierOpens?
                && !(handled && (h.queue[0] == SeekItem || h.queue[0] == State(FAILURE)))))
  {
  }

  ghost predicate Execution(h: Handshake, acts: seq<Action>, g: Handshake)
    decreases |acts|
  {
    if acts == [] then h == g
    else Enabled(h, acts[0]) && Execution(Apply(h, acts[0]), acts[1..], g)
  }

  /** A controlling sink whose source is attached, about to seek. */
  predicate BeforeSeek(h: Handshake) {
    h.attached && h.sink.Outside? && h.mutexFree && h.loop.Idle? && SeekItem !in h.queue
  }

  /** The queue holds the seek exactly once while the sink is blocked in the call. */
  predicate SeekQueued(h: Handshake) {
    if h.sink.Calling? then multiset(h.queue)[SeekItem] == 1 else SeekItem !in h.queue
  }

  ghost predicate Inv(h: Handshake) {
    && h.attached && SeekQueued(h)
    && (h.mutexFree <==> !(h.sink.Locked? || h.sink.Calling? || h.sink.Returned?))
    && (h.loop.Notifying? ==> h.server != SEEKING && (h.sink.Returned? || h.sink.Waiting?))
    && (if h.sink.Returned? || h.sink.Waiting? then h.server == SEEKING || h.loop.Notifying?
        else h.server != SEEKING)
  }

  lemma HandleInv(h: Handshake)
    requires Inv(h) && Enabled(h, HandleNext)
    ensures Inv(Apply(h, HandleNext))
  {
    TakeFirst(h.queue);
    if !h.sink.Calling? {
      assert h.queue[0] in h.queue;
    }
  }

  lemma CallInv(h: Handshake)
    requires Inv(h) && Enabled(h, CallSeek)
    ensures Inv(Apply(h, CallSeek))
  {
  }

  lemma PostInv(h: Handshake, state: PlaybackState)
    requires Inv(h)
    ensures Inv(Apply(h, ServerPosts(state)))
  {
  }

  lemma StepInv(h: Handshake, a: Action)
    requires Inv(h) && Enabled(h, a)
    ensures Inv(Apply(h, a))
  {
    match a
    case HandleNext => HandleInv(h);
    case CallSeek => CallInv(h);
    case ServerPosts(state) => PostInv(h, state);
    case _ =>
  }

  lemma {:induction false} ReachableInv(h: Handshake, acts: seq<Action>, g: Handshake)
    requires Inv(h) && Execution(h, acts, g)
    ensures Inv(g)
    decreases |acts|
  {
    if acts != [] {
      StepInv(h, acts[0]);
      ReachableInv(Apply(h, acts[0]), acts[1..], g);
    }
  }

  /** No lost wakeup, over any number of seeks begun while the server was not SEEKING: when the
      notification is sent the sink is already waiting, a waiting sink always has a
      notification on its way or a server reply to come, and the first FLUSHED or FAILURE
      handled starts the notification. */
  lemma NoLostWakeup(h: Handshake, acts: seq<Action>, g: Handshake)
    requires BeforeSeek(h) && h.server != SEEKING && Execution(h, acts, g)
    ensures Enabled(g, Notify) ==> g.sink.Waiting? && Apply(g, Notify).sink.Notified?
    ensures g.sink.Waiting? ==> g.server == SEEKING || Enabled(g, Notify)
    ensures g.sink.Waiting? && Enabled(g, HandleNext) && (g.queue[0] == State(FLUSHED) || g.queue[0] == State(FAILURE))
      ==> Enabled(Apply(g, HandleNext), Notify)
  {
    ReachableInv(h, acts, g);
  }

  /** The sink holds the mutex and waits for the event loop, which waits for the mutex. */
  predicate Deadlocked(h: Handshake) {
    h.sink.Calling? && h.loop.Notifying? && !h.mutexFree
  }

  /** It is for good: only the server can do anything, and nobody hears it. */
  lemma {:induction false} DeadlockedForever(h: Handshake, acts: seq<Action>, g: Handshake)
    requires Deadlocked(h) && Execution(h, acts, g)
    ensures g == h.(queue := g.queue) && h.queue <= g.queue && (forall a | a in acts :: a.ServerPosts?)
    decreases |acts|
  {
    if acts != [] {
      assert acts == [acts[0]] + acts[1..];
      DeadlockedForever(Apply(h, acts[0]), acts[1..], g);
    }
  }

  /** Some thread of the client can always go on, unless everybody is waiting for the server. */
  lemma NoDeadlock(h: Handshake, acts: seq<Action>, g: Handshake)
    requires BeforeSeek(h) && h.server != SEEKING && Execution(h, acts, g)
    ensures !Deadlocked(g)
    ensures g.sink.Outside? || (g.sink.Waiting? && g.server == SEEKING)
      || exists a :: Enabled(g, a) && !a.ServerPosts? && !a.BarrierOpens?
  {
    ReachableInv(h, acts, g);
    match g.sink
    case Locked => assert Enabled(g, CallSeek);
    case Calling => assert g.queue != []; assert Enabled(g, HandleNext);
    case Returned => assert Enabled(g, Wait);
    case Waiting => assert g.server != SEEKING ==> Enabled(g, Notify);
    case Notified => assert Enabled(g, Leave);
    case Outside =>
  }

  ghost predicate CanDeadlock(h: Handshake) {
    exists acts, g | Execution(h, acts, g) :: Deadlocked(g)
  }

  lemma Then(h: Handshake, a: Action)
    requires Enabled(h, a) && CanDeadlock(Apply(h, a))
    ensures CanDeadlock(h)
  {
    var acts, g :| Execution(Apply(h, a), acts, g) && Deadlocked(g);
    assert ([a] + acts)[1..] == acts;
    assert Execution(h, [a] + acts, g);
  }

  /** The sink has taken the mutex to seek while the server is SEEKING. */
  predicate Trapped(h: Handshake) {
    && h.attached && h.sink.Locked? && !h.mutexFree && h.loop.Idle?
    && h.server == SEEKING && SeekItem !in h.queue
  }

  /** Whatever is queued, the loop comes to notify before the sink calls. */
  lemma {:induction false} TrappedDeadlocks(h: Handshake)
    requires Trapped(h)
    ensures CanDeadlock(h)
    decreases |h.queue|
  {
    if h.queue == [] {
      HandleTrapped(Apply(h, ServerPosts(FLUSHED)));
      Then(h, ServerPosts(FLUSHED));
    } else if h.queue[0] == State(OTHER) {
      TrappedDeadlocks(Apply(h, HandleNext));
      Then(h, HandleNext);
    } else {
      HandleTrapped(h);
    }
  }

  lemma HandleTrapped(h: Handshake)
    requires Trapped(h) && h.queue != [] && h.queue[0] != State(OTHER)
    ensures CanDeadlock(h)
  {
    assert h.queue[0] in h.queue;
    var h1 := Apply(h, HandleNext);
    LockedDeadlocks(h1);
    Then(h, HandleNext);
  }

  lemma LockedDeadlocks(h: Handshake)
    requires h.sink.Locked? && !h.mutexFree && h.loop.Notifying?
    ensures CanDeadlock(h)
  {
    var g := Apply(h, CallSeek);
    assert Execution(g, [], g);
    Then(h, CallSeek);
  }

  /** A controlling sink whose source is attached can deadlock in its seek exactly when it begins
      while the server is still SEEKING or the event loop is about to notify it, whatever messages
      are queued. */
  lemma DeadlockExactly(h: Handshake)
    requires h.attached && h.sink.Outside? && h.mutexFree && SeekItem !in h.queue
    ensures h.server == SEEKING || h.loop.Notifying? <==> CanDeadlock(h)
  {
    if h.loop.Notifying? {
      LockedDeadlocks(Apply(h, TakeMutex));
      Then(h, TakeMutex);
    } else if h.server == SEEKING {
      TrappedDeadlocks(Apply(h, TakeMutex));
      Then(h, TakeMutex);
    } else {
      forall acts, g | Execution(h, acts, g) ensures !Deadlocked(g) {
        NoDeadlock(h, acts, g);
      }
    }
  }

  /** Such a seek is reached: a seek before the source is attached does not wait for the server, so
      that a second one, after attaching, can find it SEEKING. */
  lemma SeekBeforeAttachDeadlocks()
    ensures CanDeadlock(Handshake(IDLE, Outside, true, [], Idle, false))
  {
    var h := Handshake(IDLE, Outside, true, [], Idle, false);
    var h1 := Apply(h, TakeMutex);
    var h2 := Apply(h1, CallSeek);
    var h3 := Apply(h2, HandleNext);
    var h4 := Apply(h3, Wait);
    var h5 := Apply(h4, Attach);
    DeadlockExactly(h5);
    Then(h4, Attach);
    Then(h3, Wait);
    Then(h2, HandleNext);
    Then(h1, CallSeek);
    Then(h, TakeMutex);
  }
}
