/** What the server is told about each request (source/GStreamerMSEMediaPlayerClient.cpp): the status
    that the pull came to, or ERROR for a refused request, in the order in which they came about. */
module RequestReplies {
  import opened Common
  import opened MediaPlayerClients

  datatype Answer = Answer(status: MediaSourceStatus, req: Request)

  /** The answer a step brings about: a puller's status for the request at the front of its pulls,
      or ERROR for a NeedData that finds no pulling source. */
  function AnswerOf(c: Client, a: Action): seq<Answer>
    requires Enabled(c, a)
  {
    match a
    case Pull(i, status) => if c.backend.Stopped? then [] else [Answer(status, c.sources[i].pulls[0])]
    case Handle =>
      if c.queue[0].NeedData? && !Pulling(c, c.queue[0].req.source) then [Answer(ERROR, c.queue[0].req)] else []
    case _ => []
  }

  /** The source is attached, and neither it nor the server is in a seek. */
  predicate Pulling(c: Client, i: int) {
    i in c.sources && c.server == IDLE && c.sources[i].seeking == IDLE
  }

  function Answers(c: Client, acts: seq<Action>): seq<Answer>
    decreases |acts|
  {
    if acts == [] || !Enabled(c, acts[0]) then []
    else AnswerOf(c, acts[0]) + Answers(Apply(c, acts[0]), acts[1..])
  }

  /** The answers on the backend's queue. */
  function Queued(q: seq<Message>): seq<Answer> {
    if q == [] then []
    else Queued(q[..|q| - 1]) + AnswerIn(q[|q| - 1])
  }

  function AnswerIn(m: Message): seq<Answer> {
    if m.HaveData? then [Answer(m.status, m.req)] else []
  }

  function Given(replies: seq<Reply>): (r: seq<Answer>)
    ensures |r| == |replies|
    ensures forall k | 0 <= k < |r| :: r[k] == Answer(replies[k].status, replies[k].req)
  {
    seq(|replies|, k requires 0 <= k < |replies| => Answer(replies[k].status, replies[k].req))
  }

  lemma QueuedAppend(q: seq<Message>, m: Message)
    ensures Queued(q + [m]) == Queued(q) + AnswerIn(m)
  {
    assert (q + [m])[..|q|] == q;
  }

  lemma {:induction false} QueuedFront(q: seq<Message>)
    requires q != []
    ensures Queued(q) == AnswerIn(q[0]) + Queued(q[1..])
    decreases |q|
  {
    if |q| == 1 {
      assert q[..0] == [] && q[1..] == [];
    } else {
      var n := |q| - 1;
      QueuedFront(q[..n]);
      var rest := q[1..];
      assert q[..n][1..] == rest[..n - 1] && rest[n - 1] == q[n] && q[..n][0] == q[0];
      Associate(AnswerIn(q[0]), Queued(rest[..n - 1]), AnswerIn(q[n]));
    }
  }

  /** Those given to the server and those on their way. */
  function Sent(c: Client): seq<Answer> {
    Given(c.replies) + Queued(c.queue)
  }

  lemma GivenAppend(replies: seq<Reply>, r: Reply)
    ensures Given(replies + [r]) == Given(replies) + [Answer(r.status, r.req)]
  {
  }

  lemma NeedDataSent(c: Client, r: Request)
    requires Inv(c) && c.backend.Ready?
    ensures Sent(HandleNeedData(c, r)) == Sent(c) + if Pulling(c, r.source) then [] else [Answer(ERROR, r)]
  {
    NeedDataRunning(c, r);
    if !AcceptsPull(c, r) {
      QueuedAppend(c.queue, HaveData(ERROR, r));
      Associate(Given(c.replies), Queued(c.queue), [Answer(ERROR, r)]);
    }
  }

  /** A source that does not seek has a running puller. */
  lemma NeedDataRunning(c: Client, r: Request)
    requires Inv(c) && c.backend.Ready?
    ensures AcceptsPull(c, r) <==> Pulling(c, r.source)
    ensures AcceptsPull(c, r) ==> HandleNeedData(c, r).queue == c.queue && HandleNeedData(c, r).replies == c.replies
    ensures !AcceptsPull(c, r) ==>
      HandleNeedData(c, r).queue == c.queue + [HaveData(ERROR, r)] && HandleNeedData(c, r).replies == c.replies
  {
    assert r.source in c.sources ==> SourceInv(c, r.source);
  }

  lemma HaveDataSent(c: Client, status: MediaSourceStatus, r: Request)
    ensures Given(HandleHaveData(c, status, r).replies) == Given(c.replies) + [Answer(status, r)]
    ensures HandleHaveData(c, status, r).queue == c.queue
  {
    GivenAppend(c.replies, Reply(status, r, r.source in c.sources));
  }

  lemma OtherHandlers(c: Client, m: Message)
    requires !m.NeedData? && !m.HaveData? && !m.StopCall?
    ensures HandleMessage(c, m).queue == c.queue && HandleMessage(c, m).replies == c.replies
  {
  }

  lemma TailInv(c: Client)
    requires Inv(c) && c.queue != []
    ensures Inv(c.(queue := c.queue[1..]))
  {
    var b := c.(queue := c.queue[1..]);
    forall i | i in b.sources && !b.backend.Stopped? ensures SourceInv(b, i) {
      assert SourceInv(c, i);
    }
  }

  lemma HandleNeedDataSent(c: Client, r: Request)
    requires Inv(c) && Enabled(c, Handle) && c.queue[0] == NeedData(r)
    ensures Sent(Apply(c, Handle)) == Sent(c) + AnswerOf(c, Handle)
  {
    var b := c.(queue := c.queue[1..]);
    QueuedFront(c.queue);
    TailInv(c);
    NeedDataSent(b, r);
    assert Queued(c.queue) == Queued(b.queue);
    assert Sent(b) == Sent(c) && Pulling(b, r.source) == Pulling(c, r.source);
    assert Apply(c, Handle) == HandleNeedData(b, r);
  }

  lemma HandleHaveDataSent(c: Client, status: MediaSourceStatus, r: Request)
    requires Enabled(c, Handle) && c.queue[0] == HaveData(status, r)
    ensures Sent(Apply(c, Handle)) == Sent(c)
  {
    QueuedFront(c.queue);
    HaveDataSent(c.(queue := c.queue[1..]), status, r);
    Associate(Given(c.replies), [Answer(status, r)], Queued(c.queue[1..]));
  }

  lemma HandleOtherSent(c: Client)
    requires Enabled(c, Handle) && !c.queue[0].NeedData? && !c.queue[0].HaveData? && !c.queue[0].StopCall?
    ensures Sent(Apply(c, Handle)) == Sent(c)
  {
    QueuedFront(c.queue);
    OtherHandlers(c.(queue := c.queue[1..]), c.queue[0]);
  }

  lemma HandleSent(c: Client)
    requires Inv(c) && Enabled(c, Handle) && !c.queue[0].StopCall?
    ensures Sent(Apply(c, Handle)) == Sent(c) + AnswerOf(c, Handle)
  {
    match c.queue[0]
    case NeedData(r) => HandleNeedDataSent(c, r);
    case HaveData(status, r) => HandleHaveDataSent(c, status, r);
    case _ => HandleOtherSent(c);
  }

  lemma PostSent(c: Client, m: Message)
    requires Enabled(c, Post(m))
    ensures Sent(Apply(c, Post(m))) == Sent(c)
  {
    QueuedAppend(c.queue, m);
  }

  lemma PullSent(c: Client, i: int, status: MediaSourceStatus)
    requires Enabled(c, Pull(i, status)) && !c.backend.Stopped?
    ensures Sent(Apply(c, Pull(i, status))) == Sent(c) + [Answer(status, c.sources[i].pulls[0])]
  {
    QueuedAppend(c.queue, HaveData(status, c.sources[i].pulls[0]));
    Associate(Given(c.replies), Queued(c.queue), [Answer(status, c.sources[i].pulls[0])]);
  }

  lemma JoinSent(c: Client)
    requires Enabled(c, PullerJoined)
    ensures Apply(c, PullerJoined).queue == c.queue && Apply(c, PullerJoined).replies == c.replies
    ensures !Apply(c, PullerJoined).backend.Stopped?
  {
  }

  lemma StepSent(c: Client, a: Action)
    requires Inv(c) && Enabled(c, a) && !c.backend.Stopped?
    ensures if Apply(c, a).backend.Stopped? then Apply(c, a).replies == c.replies && Apply(c, a).queue == []
            else Sent(Apply(c, a)) == Sent(c) + AnswerOf(c, a)
  {
    match a
    case Post(m) => PostSent(c, m);
    case Handle =>
      if !c.queue[0].StopCall? {
        HandleSent(c);
      }
    case Pull(i, status) => PullSent(c, i, status);
    case PullerJoined => JoinSent(c);
    case PullerStopped(_) =>
  }

  /** Nothing is answered any more once the backend has stopped. */
  lemma {:induction false} StoppedSent(c: Client, acts: seq<Action>, d: Client)
    requires Execution(c, acts, d) && c.backend.Stopped? && c.queue == []
    ensures d.backend.Stopped? && d.replies == c.replies
    decreases |acts|
  {
    if acts != [] {
      StoppedSent(Apply(c, acts[0]), acts[1..], d);
    }
  }

  predicate AnswersGiven(d: Client, all: seq<Answer>) {
    if d.backend.Stopped? then Given(d.replies) <= all else Sent(d) == all
  }

  lemma {:induction false} RunSent(c: Client, acts: seq<Action>, d: Client)
    requires Inv(c) && Execution(c, acts, d) && !c.backend.Stopped?
    ensures AnswersGiven(d, Sent(c) + Answers(c, acts))
    decreases |acts|
  {
    if acts != [] {
      var a, b := acts[0], Apply(c, acts[0]);
      StepInv(c, a);
      StepSent(c, a);
      if b.backend.Stopped? {
        StoppedSent(b, acts[1..], d);
        PrefixOf(Given(c.replies), Queued(c.queue), Answers(c, acts));
      } else {
        RunSent(b, acts[1..], d);
        Associate(Sent(c), AnswerOf(c, a), Answers(b, acts[1..]));
      }
    }
  }

  lemma PrefixOf<T>(x: seq<T>, y: seq<T>, z: seq<T>)
    ensures x <= (x + y) + z
  {
  }

  /** In every run the server hears, in order and each with the status that it came to, of the
      requests whose pulls are finished and of those that were refused; what it has not heard yet is
      queued, until the backend stops. Of each answer it hears exactly if the source is attached when
      the answer's turn comes. */
  lemma RepliesInOrder(acts: seq<Action>, c: Client)
    requires Execution(Init(), acts, c)
    ensures if c.backend.Stopped? then Given(c.replies) <= Answers(Init(), acts)
            else Given(c.replies) + Queued(c.queue) == Answers(Init(), acts)
    ensures c.answered == multiset(Called(c.replies))
  {
    RunSent(Init(), acts, c);
    assert Sent(Init()) == [];
    RunCalled(Init(), acts, c);
  }

  function Called(replies: seq<Reply>): seq<Request> {
    if replies == [] then []
    else Called(replies[..|replies| - 1]) + CalledWith(replies[|replies| - 1])
  }

  function CalledWith(r: Reply): seq<Request> {
    if r.called then [r.req] else []
  }

  lemma CalledAppend(replies: seq<Reply>, r: Reply)
    ensures Called(replies + [r]) == Called(replies) + CalledWith(r)
  {
    assert (replies + [r])[..|replies|] == replies;
  }

  lemma HaveDataCalled(c: Client, status: MediaSourceStatus, r: Request)
    requires c.answered == multiset(Called(c.replies))
    ensures var d := HandleHaveData(c, status, r); d.answered == multiset(Called(d.replies))
  {
    CalledAppend(c.replies, Reply(status, r, r.source in c.sources));
  }

  lemma OthersCalled(c: Client, m: Message)
    requires !m.HaveData?
    ensures HandleMessage(c, m).answered == c.answered && HandleMessage(c, m).replies == c.replies
  {
  }

  lemma StepCalled(c: Client, a: Action)
    requires Enabled(c, a) && c.answered == multiset(Called(c.replies))
    ensures Apply(c, a).answered == multiset(Called(Apply(c, a).replies))
  {
    if a.Handle? {
      var m, b := c.queue[0], c.(queue := c.queue[1..]);
      if m.HaveData? {
        HaveDataCalled(b, m.status, m.req);
      } else {
        OthersCalled(b, m);
      }
    }
  }

  lemma {:induction false} RunCalled(c: Client, acts: seq<Action>, d: Client)
    requires Execution(c, acts, d) && c.answered == multiset(Called(c.replies))
    ensures d.answered == multiset(Called(d.replies))
    decreases |acts|
  {
    if acts != [] {
      StepCalled(c, acts[0]);
      RunCalled(Apply(c, acts[0]), acts[1..], d);
    }
  }

  /** The requests that source `i` accepted, and those whose pulls it has finished, in order. */
  function Accepted(c: Client, acts: seq<Action>, i: int): seq<Request>
    decreases |acts|
  {
    if acts == [] || !Enabled(c, acts[0]) then []
    else AcceptedBy(c, acts[0], i) + Accepted(Apply(c, acts[0]), acts[1..], i)
  }

  function AcceptedBy(c: Client, a: Action, i: int): seq<Request>
    requires Enabled(c, a)
  {
    if a.Handle? && c.queue[0].NeedData? && c.queue[0].req.source == i && Pulling(c, i)
    then [c.queue[0].req] else []
  }

  function Finished(c: Client, acts: seq<Action>, i: int): seq<Request>
    decreases |acts|
  {
    if acts == [] || !Enabled(c, acts[0]) then []
    else FinishedBy(c, acts[0], i) + Finished(Apply(c, acts[0]), acts[1..], i)
  }

  function FinishedBy(c: Client, a: Action, i: int): seq<Request>
    requires Enabled(c, a)
  {
    if a.Pull? && a.source == i then [c.sources[i].pulls[0]] else []
  }

  function PullsOf(c: Client, i: int): seq<Request> {
    if i in c.sources then c.sources[i].pulls else []
  }

  lemma StepPulls(c: Client, a: Action, i: int)
    requires Inv(c) && Enabled(c, a)
    ensures PullsOf(c, i) + AcceptedBy(c, a, i) == FinishedBy(c, a, i) + PullsOf(Apply(c, a), i)
  {
    if i in c.sources && !c.backend.Stopped? {
      assert SourceInv(c, i);
    }
    if a.Handle? {
      HandlePulls(c, i);
    }
  }

  lemma HandlePulls(c: Client, i: int)
    requires Inv(c) && Enabled(c, Handle)
    ensures PullsOf(c, i) + AcceptedBy(c, Handle, i) == PullsOf(Apply(c, Handle), i)
  {
    if i in c.sources {
      assert SourceInv(c, i);
    }
  }

  /** A source's pulls are finished in the order in which its requests were accepted, and none is
      forgotten: not by seeks, failures or the source's removal. */
  lemma {:induction false} PullsInOrder(c: Client, acts: seq<Action>, d: Client, i: int)
    requires Inv(c) && Execution(c, acts, d)
    ensures PullsOf(c, i) + Accepted(c, acts, i) == Finished(c, acts, i) + PullsOf(d, i)
    decreases |acts|
  {
    if acts != [] {
      var b := Apply(c, acts[0]);
      StepInv(c, acts[0]);
      StepPulls(c, acts[0], i);
      PullsInOrder(b, acts[1..], d, i);
      Interleave(PullsOf(c, i), AcceptedBy(c, acts[0], i), Accepted(b, acts[1..], i),
                 FinishedBy(c, acts[0], i), PullsOf(b, i), Finished(b, acts[1..], i), PullsOf(d, i));
    }
  }

  lemma Interleave<T>(p: seq<T>, a: seq<T>, more: seq<T>, f: seq<T>, q: seq<T>, g: seq<T>, r: seq<T>)
    requires p + a == f + q && q + more == g + r
    ensures p + (a + more) == (f + g) + r
  {
    calc {
      p + (a + more);
      (p + a) + more;
      (f + q) + more;
      f + (q + more);
      f + (g + r);
      (f + g) + r;
    }
  }
}
