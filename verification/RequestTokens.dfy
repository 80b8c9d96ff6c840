/** Where every NeedData request is, over all queues of the player client
    (source/GStreamerMSEMediaPlayerClient.cpp). */
module RequestTokens {
  import opened Common
  import opened MediaPlayerClients

  /** How often `r` is queued at the puller of its source. */
  function AtPuller(c: Client, r: Request): nat {
    if r.source in c.sources then multiset(c.sources[r.source].pulls)[r] else 0
  }

  /** How often `r` is on the backend's queue, as NeedData or as HaveData. */
  function AtBackend(c: Client, r: Request): nat {
    multiset(Requests(c.queue))[r]
  }

  /** Every request posted is in one place: queued at the backend, queued or in progress at
      its puller, answered, or discarded. Counting with multiplicity, this needs no two
      requests to be different. */
  ghost predicate Conserved(c: Client) {
    forall r: Request :: ConservedFor(c, r)
  }

  ghost predicate ConservedFor(c: Client, r: Request) {
    c.issued[r] == AtBackend(c, r) + AtPuller(c, r) + c.answered[r] + c.discarded[r]
  }

  function Carried(m: Message): seq<Request> {
    if m.NeedData? || m.HaveData? then [m.req] else []
  }

  lemma {:induction false} RequestsAppend(q: seq<Message>, m: Message)
    ensures Requests(q + [m]) == Requests(q) + Carried(m)
  {
    if q == [] {
      assert q + [m] == [m] && [m][1..] == [];
      assert Requests([]) == [];
    } else {
      var all := q + [m];
      assert all[0] == q[0] && all[1..] == q[1..] + [m];
      RequestsAppend(q[1..], m);
      assert Requests(all) == Carried(q[0]) + Requests(all[1..]);
      assert Requests(q) == Carried(q[0]) + Requests(q[1..]);
    }
  }

  /** The backend's queue loses `m` in front. */
  lemma TakeMessage(q: seq<Message>)
    requires q != []
    ensures multiset(Requests(q)) ==
      (if q[0].NeedData? || q[0].HaveData? then multiset{q[0].req} else multiset{}) + multiset(Requests(q[1..]))
  {
  }

  lemma PostMessage(q: seq<Message>, m: Message)
    ensures multiset(Requests(q + [m])) ==
      multiset(Requests(q)) + if m.NeedData? || m.HaveData? then multiset{m.req} else multiset{}
  {
    RequestsAppend(q, m);
  }

  lemma PullConserved(c: Client, i: int, status: MediaSourceStatus, r: Request)
    requires Inv(c) && ConservedFor(c, r) && Enabled(c, Pull(i, status))
    ensures ConservedFor(FinishPull(c, i, status), r)
  {
    var pulls := c.sources[i].pulls;
    TakeFirst(pulls);
    PostMessage(c.queue, HaveData(status, pulls[0]));
    assert pulls[0] in pulls;
    assert r.source != i ==> r != pulls[0];
  }

  lemma NeedDataConserved(c: Client, r: Request)
    requires ConservedFor(c, r) && c.queue != [] && c.queue[0].NeedData?
    ensures ConservedFor(HandleMessage(c.(queue := c.queue[1..]), c.queue[0]), r)
  {
    var c' := c.(queue := c.queue[1..]);
    var req := c.queue[0].req;
    TakeMessage(c.queue);
    if AcceptsPull(c', req) {
      var pulls := c.sources[req.source].pulls;
      assert multiset(pulls + [req]) == multiset(pulls) + multiset{req};
    } else {
      PostMessage(c.queue[1..], HaveData(ERROR, req));
    }
  }

  /** No other handler than NeedData's moves a request to or from a puller. */
  lemma OtherHandlersKeepPulls(c: Client, m: Message, r: Request)
    requires !m.NeedData?
    ensures AtPuller(HandleMessage(c, m), r) == AtPuller(c, r)
  {
    match m
    case Playback(state) =>
      if state.FLUSHED? && r.source in c.sources {
        assert Restart(c.sources)[r.source].pulls == c.sources[r.source].pulls;
      }
    case _ =>
  }

  lemma QuietHandlers(c: Client, m: Message)
    requires !m.NeedData? && !m.HaveData? && !m.StopCall?
    ensures var d := HandleMessage(c, m);
      d.queue == c.queue && d.issued == c.issued && d.answered == c.answered && d.discarded == c.discarded
  {
  }

  lemma OtherHandlersConserve(c: Client, m: Message, r: Request)
    requires !m.NeedData?
    ensures var d := HandleMessage(c, m);
      d.issued == c.issued && AtBackend(c, r) + (if m.HaveData? then multiset{m.req}[r] else 0) + c.answered[r] + c.discarded[r]
      == AtBackend(d, r) + d.answered[r] + d.discarded[r]
  {
    if m.StopCall? {
      assert Requests([]) == [];
    } else if !m.HaveData? {
      QuietHandlers(c, m);
    }
  }

  lemma HandleConserved(c: Client, r: Request)
    requires ConservedFor(c, r) && Enabled(c, Handle)
    ensures ConservedFor(Apply(c, Handle), r)
  {
    if c.queue[0].NeedData? {
      NeedDataConserved(c, r);
    } else {
      TakeMessage(c.queue);
      var c' := c.(queue := c.queue[1..]);
      OtherHandlersKeepPulls(c', c.queue[0], r);
      OtherHandlersConserve(c', c.queue[0], r);
    }
  }

  lemma JoinConserved(c: Client, r: Request)
    requires ConservedFor(c, r) && Enabled(c, PullerJoined)
    ensures ConservedFor(Apply(c, PullerJoined), r)
  {
    var d := Apply(c, PullerJoined);
    assert AtPuller(d, r) == AtPuller(c, r);
  }

  lemma PostConserved(c: Client, m: Message, r: Request)
    requires ConservedFor(c, r) && Enabled(c, Post(m))
    ensures ConservedFor(Apply(c, Post(m)), r)
  {
    PostMessage(c.queue, m);
  }

  lemma StepConserved(c: Client, a: Action)
    requires Inv(c) && Conserved(c) && Enabled(c, a)
    ensures Conserved(Apply(c, a))
  {
    forall r: Request ensures ConservedFor(Apply(c, a), r) {
      assert ConservedFor(c, r);
      match a
      case Post(m) => PostConserved(c, m, r);
      case Pull(i, status) => PullConserved(c, i, status, r);
      case Handle => HandleConserved(c, r);
      case PullerJoined => JoinConserved(c, r);
      case PullerStopped(i) => assert AtPuller(Apply(c, a), r) == AtPuller(c, r);
    }
  }

  lemma {:induction false} ReachableConserved(c: Client, acts: seq<Action>, d: Client)
    requires Inv(c) && Conserved(c) && Execution(c, acts, d)
    ensures Conserved(d)
    decreases |acts|
  {
    if acts != [] {
      StepInv(c, acts[0]);
      StepConserved(c, acts[0]);
      ReachableConserved(Apply(c, acts[0]), acts[1..], d);
    }
  }

  /** In every reachable state every request is in exactly one place, hence haveData has been
      called at most once for each. */
  lemma RequestsConserved(acts: seq<Action>, c: Client)
    requires Execution(Init(), acts, c)
    ensures Conserved(c)
    ensures forall r: Request :: c.answered[r] <= c.issued[r]
  {
    ReachableConserved(Init(), acts, c);
    forall r: Request ensures c.answered[r] <= c.issued[r] {
      assert ConservedFor(c, r);
    }
  }

  /** Source `k` is attached, and streaming not stopped, in every state of the execution. */
  ghost predicate AttachedThroughout(c: Client, acts: seq<Action>, k: int)
    decreases |acts|
  {
    && k in c.sources && !c.backend.Stopped?
    && (acts != [] && Enabled(c, acts[0]) ==> AttachedThroughout(Apply(c, acts[0]), acts[1..], k))
  }

  lemma {:induction false} NothingDiscarded(c: Client, acts: seq<Action>, d: Client, r: Request)
    requires Inv(c) && Execution(c, acts, d) && AttachedThroughout(c, acts, r.source)
    ensures d.discarded[r] == c.discarded[r]
    decreases |acts|
  {
    if acts != [] {
      var b := Apply(c, acts[0]);
      assert AttachedThroughout(b, acts[1..], r.source);
      assert b.discarded[r] == c.discarded[r];
      StepInv(c, acts[0]);
      NothingDiscarded(b, acts[1..], d, r);
    }
  }

  /** Once the queues have drained, every request of a source that stayed attached has been
      answered exactly once, even across seeks: a puller that is stopped for a seek first
      finishes its pulls. */
  lemma EveryRequestAnswered(before: seq<Action>, c: Client, acts: seq<Action>, d: Client, r: Request)
    requires Execution(Init(), before, c) && c.discarded[r] == 0
    requires Execution(c, acts, d) && AttachedThroughout(c, acts, r.source)
    requires AtBackend(d, r) == 0 && AtPuller(d, r) == 0
    ensures d.answered[r] == d.issued[r]
  {
    ReachableInv(Init(), before, c);
    RequestsConserved(before, c);
    ReachableConserved(c, acts, d);
    NothingDiscarded(c, acts, d, r);
    assert ConservedFor(d, r);
  }

  /** After stopStreaming, once its pullers have been joined, no request is left anywhere. */
  lemma StopLeavesNothing(acts: seq<Action>, c: Client, r: Request)
    requires Execution(Init(), acts, c) && c.backend.Stopped?
    requires forall i | i in c.sources :: !c.sources[i].running
    ensures c.issued[r] == c.answered[r] + c.discarded[r]
  {
    ReachableInv(Init(), acts, c);
    RequestsConserved(acts, c);
    StoppedQueueEmpty(Init(), acts, c);
    assert ConservedFor(c, r);
  }

  lemma {:induction false} StoppedQueueEmpty(c: Client, acts: seq<Action>, d: Client)
    requires Execution(c, acts, d) && (c.backend.Stopped? ==> c.queue == [])
    ensures d.backend.Stopped? ==> d.queue == []
    decreases |acts|
  {
    if acts != [] {
      StoppedQueueEmpty(Apply(c, acts[0]), acts[1..], d);
    }
  }

  // ----- the queues drain

  function Needs(q: seq<Message>): nat {
    if q == [] then 0 else (if q[0].NeedData? then 1 else 0) + Needs(q[1..])
  }

  function Haves(q: seq<Message>): nat {
    if q == [] then 0 else (if q[0].HaveData? then 1 else 0) + Haves(q[1..])
  }

  function Others(q: seq<Message>): nat {
    if q == [] then 0 else (if q[0].NeedData? || q[0].HaveData? then 0 else 1) + Others(q[1..])
  }

  /** The steps still needed when nothing more is posted: three for a NeedData, two for a pull,
      one for a HaveData (pulls being the requests neither queued at the backend nor settled),
      two for any other message, and one for a handler that waits for a puller. */
  function Weight(c: Client): int {
    2 * (|c.issued| - |c.answered| - |c.discarded|) + Needs(c.queue) - Haves(c.queue)
    + 2 * Others(c.queue) + (if c.backend.StoppingPuller? || c.backend.RemovingSource? then 1 else 0)
  }

  lemma {:induction false} QueueCounts(q: seq<Message>, m: Message)
    ensures Needs(q + [m]) == Needs(q) + if m.NeedData? then 1 else 0
    ensures Haves(q + [m]) == Haves(q) + if m.HaveData? then 1 else 0
    ensures Others(q + [m]) == Others(q) + if m.NeedData? || m.HaveData? then 0 else 1
  {
    if q == [] {
      assert q + [m] == [m] && [m][1..] == [];
    } else {
      assert (q + [m])[0] == q[0] && (q + [m])[1..] == q[1..] + [m];
      QueueCounts(q[1..], m);
    }
  }

  lemma {:induction false} RequestCount(q: seq<Message>)
    ensures |Requests(q)| == Needs(q) + Haves(q)
  {
    if q != [] {
      RequestCount(q[1..]);
    }
  }

  lemma SubmultisetSize(a: multiset<Request>, b: multiset<Request>)
    requires a <= b
    ensures |a| <= |b|
  {
    assert b == a + (b - a);
  }

  /** No more requests are queued at the backend or settled than have been issued. */
  lemma WeightBound(c: Client)
    requires Conserved(c)
    ensures Needs(c.queue) + Haves(c.queue) + |c.answered| + |c.discarded| <= |c.issued|
    ensures Weight(c) >= 0
  {
    var placed := multiset(Requests(c.queue)) + c.answered + c.discarded;
    forall r: Request ensures placed[r] <= c.issued[r] {
      assert ConservedFor(c, r);
    }
    SubmultisetSize(placed, c.issued);
    RequestCount(c.queue);
  }

  lemma NeedDataLightens(c: Client, r: Request)
    ensures Weight(HandleNeedData(c, r)) <= Weight(c)
  {
    QueueCounts(c.queue, HaveData(ERROR, r));
  }

  lemma StopLightens(c: Client)
    requires c.backend.Ready?
    ensures Weight(HandleStop(c)) <= Weight(c)
  {
    RequestCount(c.queue);
  }

  /** Other handlers change neither the queue nor the requests settled. */
  lemma OthersLighten(c: Client, m: Message)
    requires c.backend.Ready? && !m.NeedData? && !m.HaveData? && !m.StopCall?
    ensures Weight(HandleMessage(c, m)) <= Weight(c) + 1
  {
    QuietHandlers(c, m);
  }

  lemma HandleLightens(c: Client)
    requires Enabled(c, Handle)
    ensures Weight(Apply(c, Handle)) < Weight(c)
  {
    var m, d := c.queue[0], c.(queue := c.queue[1..]);
    assert Weight(c) == Weight(d) + if m.NeedData? then 1 else if m.HaveData? then -1 else 2;
    match m
    case NeedData(r) => NeedDataLightens(d, r);
    case HaveData(_, r) =>
    case StopCall => StopLightens(d);
    case _ => OthersLighten(d, m);
  }

  /** Every step but a post brings the queues nearer to being drained. */
  lemma StepLightens(c: Client, a: Action)
    requires Enabled(c, a) && !a.Post? && !a.PullerStopped?
    ensures Weight(Apply(c, a)) < Weight(c)
  {
    match a
    case Handle => HandleLightens(c);
    case Pull(i, status) => QueueCounts(c.queue, HaveData(status, c.sources[i].pulls[0]));
    case PullerJoined =>
  }

  ghost predicate Drained(c: Client) {
    c.queue == [] && forall i | i in c.sources :: c.sources[i].pulls == []
  }

  /** And while they are not, such a step can be taken. */
  lemma SomeStepEnabled(c: Client)
    requires Inv(c) && (c.backend.Stopped? ==> c.queue == []) && !Drained(c)
    ensures exists a :: Enabled(c, a) && !a.Post? && !a.PullerStopped?
  {
    if c.backend.Ready? && c.queue != [] {
      assert Enabled(c, Handle);
    } else if (c.backend.StoppingPuller? || c.backend.RemovingSource?) && c.sources[c.backend.source].pulls == [] {
      assert Enabled(c, PullerJoined);
    } else {
      var i :| i in c.sources && c.sources[i].pulls != [];
      assert Enabled(c, Pull(i, OK));
    }
  }

  /** Once the server and the clients stop posting, only a bounded number of steps is left, fixed
      by what is queued; and when none of them can be taken, everything has drained, so that
      EveryRequestAnswered applies. */
  lemma {:induction false} QueuesDrain(before: seq<Action>, c: Client, acts: seq<Action>, d: Client)
    requires Execution(Init(), before, c) && Execution(c, acts, d)
    requires forall a | a in acts :: !a.Post? && !a.PullerStopped?
    ensures |acts| <= Weight(c)
    ensures (forall a | Enabled(d, a) :: a.Post? || a.PullerStopped?) ==> Drained(d)
  {
    RequestsConserved(before, c);
    ReachableInv(Init(), before, c);
    DrainBound(c, acts, d);
    ReachableInv(c, acts, d);
    StoppedQueueEmpty(Init(), before, c);
    StoppedQueueEmpty(c, acts, d);
    if forall a | Enabled(d, a) :: a.Post? || a.PullerStopped? {
      if !Drained(d) {
        SomeStepEnabled(d);
      }
    }
  }

  lemma {:induction false} DrainBound(c: Client, acts: seq<Action>, d: Client)
    requires Inv(c) && Conserved(c) && Execution(c, acts, d)
    requires forall a | a in acts :: !a.Post? && !a.PullerStopped?
    ensures Weight(d) >= 0 && |acts| + Weight(d) <= Weight(c)
    decreases |acts|
  {
    if acts == [] {
      WeightBound(c);
    } else {
      assert acts[0] in acts;
      StepLightens(c, acts[0]);
      StepInv(c, acts[0]);
      StepConserved(c, acts[0]);
      DrainBound(Apply(c, acts[0]), acts[1..], d);
    }
  }
}
