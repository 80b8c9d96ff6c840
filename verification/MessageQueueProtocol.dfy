/** The message queue used by any number of posting threads, one worker and one stopper
    (source/MessageQueue.cpp). A poster holds m_mutex between seeing m_running set and
    pushing its message, while the worker clears m_running without that mutex. */
module MessageQueueProtocol {
  import opened Common
  import opened MessageQueues

  /** Where the worker thread is: in waitForMessage, in handle() before and after its
      function has run, at the loop's condition, or gone. */
  datatype Worker = NoThread | Idle | Handling(m: Message) | Ran(m: Message) | Checking | Exited

  /** Where the stopping thread is. `Returned`: no session (before start and after doStop);
      `Away`: a session and no stop yet; `Entered`: doStop saw m_running set. */
  datatype Stopper =
    | Returned | Away | Entered | Posting | Waiting(m: Message) | Joining | Clearing

  datatype State = State(
    log: Log,
    worker: Worker,
    stopper: Stopper,
    poster: Option<Message>,  // the message about to be pushed by the holder of m_mutex
    used: set<nat>)           // ids of all messages created so far

  datatype Action =
    | Start
    | PostBegin(m: Message) | PostEnd
    | StopEnter | StopPost(id: nat) | StopReleased | Join | Clear
    | Take | RunHandler | SetDone | Check

  function Init(): State {
    State(Log(false, [], [], [], [], {}), NoThread, Returned, None, {})
  }

  predicate Enabled(s: State, a: Action) {
    match a
    case Start => s.stopper.Returned?
    case PostBegin(m) =>
      s.poster.None? && s.log.running && m.id !in s.used && !m.kind.Stop?
    case PostEnd => s.poster.Some?
    case StopEnter => s.stopper.Away? && s.log.running
    case StopPost(id) => s.stopper.Entered? && s.poster.None? && s.log.running && id !in s.used
    case StopReleased => s.stopper.Waiting? && s.stopper.m.id in s.log.done
    case Join => s.stopper.Joining? && s.worker.Exited?
    case Clear => s.stopper.Clearing? && s.poster.None?
    case Take => s.worker.Idle? && s.poster.None? && s.log.queue != []
    case RunHandler => s.worker.Handling?
    case SetDone => s.worker.Ran?
    case Check => s.worker.Checking?
  }

  function Apply(s: State, a: Action): State
    requires Enabled(s, a)
  {
    match a
    case Start =>
      s.(log := s.log.Restarted(), worker := Idle, stopper := Away)
    case PostBegin(m) =>
      s.(poster := Some(m), used := s.used + {m.id})
    case PostEnd =>
      var m := s.poster.value;
      s.(log := s.log.Accept(m), poster := None,
         stopper := if m.kind.Stop? then Waiting(m) else s.stopper)
    case StopEnter => s.(stopper := Entered)
    case StopPost(id) =>
      s.(poster := Some(Message(id, Stop)), used := s.used + {id}, stopper := Posting)
    case StopReleased => s.(stopper := Joining)
    case Join => s.(worker := NoThread, stopper := Clearing)
    case Clear => s.(log := s.log.SkipAll(), stopper := Returned)
    case Take => s.(log := s.log.TakeFront(), worker := Handling(s.log.queue[0]))
    case RunHandler => s.(log := s.log.Run(s.worker.m), worker := Ran(s.worker.m))
    case SetDone => s.(log := s.log.Release(s.worker.m), worker := Checking)
    case Check => s.(worker := if s.log.running then Idle else Exited)
  }

  /** `acts` leads from `s` to `t`. */
  ghost predicate Execution(s: State, acts: seq<Action>, t: State)
    decreases |acts|
  {
    if acts == [] then s == t
    else Enabled(s, acts[0]) && Execution(Apply(s, acts[0]), acts[1..], t)
  }

  // ----- what every step keeps

  function InHand(w: Worker): seq<Message> {
    if w.Handling? then [w.m] else []
  }

  predicate EndsWithStop(s: seq<Message>) {
    s != [] && s[|s| - 1].kind.Stop?
  }

  /** Accepted messages are, in order, those handled, in hand, skipped and queued. */
  ghost predicate Accounted(s: State) {
    s.log.accepted == s.log.handled + InHand(s.worker) + s.log.skipped + s.log.queue
  }

  ghost predicate DistinctIds(s: State) {
    && (forall i, j | 0 <= i < j < |s.log.accepted| :: s.log.accepted[i].id != s.log.accepted[j].id)
    && (forall m | m in s.log.accepted :: m.id in s.used)
    && s.log.done <= s.used
    && (s.poster.Some? ==>
          s.poster.value.id in s.used && s.poster.value.id !in s.log.done
          && forall m | m in s.log.accepted :: m.id != s.poster.value.id)
  }

  /** The session's one stop message, and how far stopper and worker are with it. */
  ghost predicate StopPhase(s: State) {
    && (s.poster.Some? && s.poster.value.kind.Stop? <==> s.stopper.Posting?)
    && (s.stopper.Away? || s.stopper.Entered? || s.stopper.Posting? ==>
          FirstStop(s.log.accepted) == |s.log.accepted| && s.log.running)
    && (s.stopper.Waiting? || s.stopper.Joining? || s.stopper.Clearing? ==>
          FirstStop(s.log.accepted) < |s.log.accepted|)
    && (s.stopper.Waiting? ==> s.log.accepted[FirstStop(s.log.accepted)] == s.stopper.m)
    && (forall i | FirstStop(s.log.accepted) < i < |s.log.accepted| :: !s.log.accepted[i].kind.Stop?)
    && (s.stopper.Joining? || s.stopper.Clearing? || s.stopper.Returned? ==> !s.log.running)
    && (s.stopper.Clearing? || s.stopper.Returned? <==> s.worker.NoThread?)
    && (s.stopper.Returned? ==> s.log.queue == [] && s.poster.None?)
    && (!s.stopper.Returned? ==> s.log.skipped == [])
  }

  ghost predicate WorkerPhase(s: State) {
    && (s.worker.Idle? || s.worker.Handling? ==> s.log.running)
    && (s.worker.Ran? ==> s.log.handled != [] && s.log.handled[|s.log.handled| - 1] == s.worker.m)
    && (s.worker.Exited? ==> !s.log.running)
    && (s.log.running ==> |s.log.handled| <= FirstStop(s.log.accepted))
    && (!s.log.running ==>
          s.log.accepted == [] || |s.log.handled| == FirstStop(s.log.accepted) + 1)
  }

  ghost predicate Released(s: State) {
    && (forall m | m in s.log.handled :: m.id in s.log.done || s.worker == Ran(m))
    && (forall m | m in s.log.skipped :: m.id in s.log.done)
    && (forall m | m in s.log.accepted && m.id in s.log.done :: m in s.log.handled || m in s.log.skipped)
  }

  ghost predicate Inv(s: State) {
    Accounted(s) && DistinctIds(s) && StopPhase(s) && WorkerPhase(s) && Released(s)
  }

  lemma StepAccounted(s: State, a: Action)
    requires Inv(s) && Enabled(s, a)
    ensures Accounted(Apply(s, a))
  {
  }

  lemma StepDistinct(s: State, a: Action)
    requires Inv(s) && Enabled(s, a)
    ensures DistinctIds(Apply(s, a))
  {
  }

  /** The message in hand is the first accepted one not handled yet. */
  lemma InHandPosition(s: State)
    requires Inv(s) && s.worker.Handling?
    ensures |s.log.handled| < |s.log.accepted| && s.log.accepted[|s.log.handled|] == s.worker.m
    ensures s.worker.m.kind.Stop? <==> |s.log.handled| == FirstStop(s.log.accepted)
  {
    assert s.log.accepted[|s.log.handled|] == (s.log.handled + InHand(s.worker))[|s.log.handled|];
  }

  /** A stopper whose message is done finds the worker past it. */
  lemma StopHandled(s: State)
    requires Inv(s) && s.stopper.Waiting? && s.stopper.m.id in s.log.done
    ensures !s.log.running
  {
    assert s.stopper.m in s.log.handled;
    var i :| 0 <= i < |s.log.handled| && s.log.handled[i] == s.stopper.m;
    assert s.log.accepted[i] == s.log.handled[i];
  }

  lemma StepStopPhase(s: State, a: Action)
    requires Inv(s) && Enabled(s, a)
    ensures StopPhase(Apply(s, a))
  {
    match a
    case PostEnd => FirstStopAppend(s.log.accepted, s.poster.value);
    case RunHandler => InHandPosition(s);
    case StopReleased => StopHandled(s);
    case _ =>
  }

  lemma StepWorkerPhase(s: State, a: Action)
    requires Inv(s) && Enabled(s, a)
    ensures WorkerPhase(Apply(s, a))
  {
    match a
    case PostEnd => FirstStopAppend(s.log.accepted, s.poster.value);
    case RunHandler => InHandPosition(s);
    case _ =>
  }

  lemma SameIdSameMessage(s: State, m: Message, x: Message)
    requires DistinctIds(s) && m in s.log.accepted && x in s.log.accepted && m.id == x.id
    ensures m == x
  {
    var i :| 0 <= i < |s.log.accepted| && s.log.accepted[i] == m;
    var j :| 0 <= j < |s.log.accepted| && s.log.accepted[j] == x;
    assert !(i < j) && !(j < i);
  }

  lemma StepReleased(s: State, a: Action)
    requires Inv(s) && Enabled(s, a)
    ensures Released(Apply(s, a))
  {
    var t := Apply(s, a);
    forall x | x in t.log.accepted && x.id in t.log.done ensures x in t.log.handled || x in t.log.skipped {
      if a.SetDone? && x.id == s.worker.m.id {
        assert s.worker.m in s.log.handled;
        SameIdSameMessage(s, s.worker.m, x);
      } else if a.Clear? && x.id in Ids(s.log.queue) {
        var m :| m in s.log.queue && m.id == x.id;
        SameIdSameMessage(s, m, x);
      }
    }
  }

  lemma StepInv(s: State, a: Action)
    requires Inv(s) && Enabled(s, a)
    ensures Inv(Apply(s, a))
  {
    StepAccounted(s, a);
    StepDistinct(s, a);
    StepStopPhase(s, a);
    StepWorkerPhase(s, a);
    StepReleased(s, a);
  }

  lemma {:induction false} ReachableInv(s: State, acts: seq<Action>, t: State)
    requires Inv(s) && Execution(s, acts, t)
    ensures Inv(t)
    decreases |acts|
  {
    if acts != [] {
      StepInv(s, acts[0]);
      ReachableInv(Apply(s, acts[0]), acts[1..], t);
    }
  }

  // ----- what a returned stop means

  /** Message accounting: when stop has returned, in any execution with any number of posters,
      nothing is queued, the handled messages are the accepted ones up to and including the
      only stop message, the rest were skipped, and no message is in the two twice. */
  lemma StopAccounting(acts: seq<Action>, t: State)
    requires Execution(Init(), acts, t) && t.stopper.Returned? && t.log.accepted != []
    ensures t.log.queue == [] && t.log.accepted == t.log.handled + t.log.skipped
    ensures EndsWithStop(t.log.handled)
    ensures forall i | 0 <= i < |t.log.accepted| :: t.log.accepted[i].kind.Stop? <==> i == |t.log.handled| - 1
    ensures forall i, j | 0 <= i < j < |t.log.accepted| :: t.log.accepted[i].id != t.log.accepted[j].id
  {
    ReachableInv(Init(), acts, t);
    assert t.log.accepted == t.log.handled + t.log.skipped;
    var k := FirstStop(t.log.accepted);
    assert t.log.accepted[k] == t.log.handled[k];
  }

  lemma CountsOnce(s: seq<Message>, m: Message)
    requires m in s && forall i, j | 0 <= i < j < |s| :: s[i].id != s[j].id
    ensures multiset(s)[m] == 1
  {
    var i :| 0 <= i < |s| && s[i] == m;
    var a, b := s[..i], s[i + 1..];
    assert s == a + [m] + b;
    assert m !in a && m !in b;
  }

  /** No stranded callers: whoever posted a call of this session has been released, after its
      function ran exactly once (handled) or without its ever running (skipped). */
  lemma NoStrandedCallers(acts: seq<Action>, t: State, m: Message)
    requires Execution(Init(), acts, t) && t.stopper.Returned? && m in t.log.accepted
    ensures m.id in t.log.done
    ensures multiset(t.log.handled)[m] + multiset(t.log.skipped)[m] == 1
  {
    ReachableInv(Init(), acts, t);
    CountsOnce(t.log.accepted, m);
    SplitCount(t.log.handled, t.log.skipped, m);
  }

  lemma SplitCount(x: seq<Message>, y: seq<Message>, m: Message)
    ensures multiset(x + y)[m] == multiset(x)[m] + multiset(y)[m]
    ensures m in x + y <==> m in x || m in y
  {
  }

  /** When nobody gets a message accepted behind the stop, nothing is skipped: a puller's
      queue, which only the backend's event loop posts to, is drained by stop. */
  lemma SolePosterDrained(acts: seq<Action>, t: State)
    requires Execution(Init(), acts, t) && t.stopper.Returned? && EndsWithStop(t.log.accepted)
    ensures t.log.skipped == [] && t.log.handled == t.log.accepted
  {
    StopAccounting(acts, t);
  }

  // ----- stop always returns

  function WorkerRank(w: Worker): nat {
    match w
    case Ran(_) => 4 case Checking => 3 case Idle => 2 case Handling(_) => 1
    case Exited => 0 case NoThread => 0
  }

  /** How many worker and stopper steps are still needed before a posted stop returns. */
  function Rank(s: State): int {
    5 * (FirstStop(s.log.accepted) + 1 - |s.log.handled|) + WorkerRank(s.worker)
    + if s.stopper.Waiting? then 3 else if s.stopper.Joining? then 2 else if s.stopper.Clearing? then 1 else 0
  }

  ghost predicate StopPosted(s: State) {
    s.stopper.Waiting? || s.stopper.Joining? || s.stopper.Clearing?
  }

  function NextStep(s: State): Action
    requires StopPosted(s)
  {
    if s.poster.Some? then PostEnd
    else if s.stopper.Clearing? then Clear
    else match s.worker
      case Idle => Take
      case Handling(_) => RunHandler
      case Ran(_) => SetDone
      case Checking => Check
      case _ => if s.stopper.Waiting? then StopReleased else Join
  }

  /** From a posted stop on, some step of a poster leaving its critical section, of the worker
      or of the stopper can always be taken; posting never raises the rank, and every other
      step lowers it, so stop returns after finitely many steps whatever the posters do. */
  lemma StopProgress(s: State)
    requires Inv(s) && StopPosted(s)
    ensures Rank(s) > 0 && Enabled(s, NextStep(s))
    ensures forall a | Enabled(s, a) ::
      if a.PostBegin? || a.PostEnd? then Rank(Apply(s, a)) == Rank(s) && StopPosted(Apply(s, a))
      else Rank(Apply(s, a)) < Rank(s)
  {
    if s.worker.Idle? {
      assert s.log.accepted == s.log.handled + s.log.queue;
    }
    if s.worker.Exited? && s.stopper.Waiting? {
      var k := FirstStop(s.log.accepted);
      assert s.log.accepted[k] == s.log.handled[k];
    }
    forall a | Enabled(s, a)
      ensures if a.PostBegin? || a.PostEnd? then Rank(Apply(s, a)) == Rank(s) && StopPosted(Apply(s, a))
              else Rank(Apply(s, a)) < Rank(s)
    {
      if a.PostEnd? {
        FirstStopAppend(s.log.accepted, s.poster.value);
      }
    }
  }

  function StepsOfWorkerAndStopper(acts: seq<Action>): nat {
    if acts == [] then 0
    else (if acts[0].PostBegin? || acts[0].PostEnd? then 0 else 1) + StepsOfWorkerAndStopper(acts[1..])
  }

  /** Until a later start, an execution from a posted stop has either returned it, or has
      used up one unit of the rank at every worker or stopper step. */
  lemma {:induction false} StopReturns(s: State, acts: seq<Action>, t: State)
    requires Inv(s) && (StopPosted(s) || s.stopper.Returned?)
    requires Execution(s, acts, t) && Start !in acts
    ensures t.stopper.Returned? ||
      (StopPosted(s) && StopPosted(t) && StepsOfWorkerAndStopper(acts) + Rank(t) <= Rank(s))
    decreases |acts|
  {
    if acts != [] {
      StepInv(s, acts[0]);
      if StopPosted(s) {
        StopProgress(s);
      }
      StopReturns(Apply(s, acts[0]), acts[1..], t);
    }
  }
}
