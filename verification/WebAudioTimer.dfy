/** The retry timer and the web-audio event loop (source/Timer.cpp,
    source/GStreamerWebAudioPlayerClient.cpp). The timer's thread calls pushSamples through the
    event loop and waits for it; the event loop joins that thread when it cancels, resets or
    replaces the timer. */
module WebAudioTimer {
  import opened Common

  /** In wait_until; past its last look at m_active, about to call; waiting for its call;
      cancelled or called back, on its way out; ended. */
  datatype Thread = Sleeping | Due | Calling | Ending | Finished

  datatype Call = Expiry(timer: nat) | NewSample | SetEos | Close

  /** The event loop waits for a message, is in pushSamples, or joins the thread of a timer, after
      which pushSamples may still have to come. */
  datatype Loop =
    | Waiting
    | Pushing(call: Call)
    | Joining(timer: nat, call: Call, pushes: bool)

  /** `threads[k]` is the thread of the k-th timer made, `current` is m_pushSamplesTimer. */
  datatype State = State(loop: Loop, queue: seq<Call>, threads: seq<Thread>, current: Option<nat>)

  function Init(): State {
    State(Waiting, [], [], None)
  }

  /** `rest` says that pushSamples, run on an open player, leaves audio queued. */
  datatype Action =
    | Post(call: Call)
    | Take | EndPush(rest: bool) | Joined
    | Expires(timer: nat) | Calls(timer: nat) | Ends(timer: nat)

  predicate ThreadIs(s: State, k: nat, t: Thread) {
    k < |s.threads| && s.threads[k] == t
  }

  predicate Enabled(s: State, a: Action) {
    match a
    case Post(call) => !call.Expiry?
    case Take => s.loop.Waiting? && s.queue != []
    case EndPush(_) => s.loop.Pushing?
    case Joined => s.loop.Joining? && ThreadIs(s, s.loop.timer, Finished)
    case Expires(k) => ThreadIs(s, k, Sleeping)
    case Calls(k) => ThreadIs(s, k, Due)
    case Ends(k) => ThreadIs(s, k, Ending)
  }

  function Moved(s: State, k: nat, t: Thread): State {
    if k < |s.threads| then s.(threads := s.threads[k := t]) else s
  }

  /** doCancel of timer `k` up to the join: only a sleeping thread takes notice. */
  function Cancel(s: State, k: nat, call: Call, pushes: bool): State {
    (if ThreadIs(s, k, Sleeping) then Moved(s, k, Ending) else s).(loop := Joining(k, call, pushes))
  }

  /** A handler returns, and with it the caller's wait. */
  function Done(s: State, call: Call): State {
    (if call.Expiry? then Moved(s, call.timer, Ending) else s).(loop := Waiting)
  }

  function Begin(s: State, call: Call): State {
    if (call.NewSample? || call.Close?) && s.current.Some? then
      Cancel(s.(current := None), s.current.value, call, call.NewSample?)
    else if call.Close? then Done(s, call)
    else s.(loop := Pushing(call))
  }

  /** A new timer takes the place of the old one, which is then destroyed. */
  function Rearm(s: State, call: Call): State {
    var t := s.(threads := s.threads + [Sleeping], current := Some(|s.threads|));
    if s.current.Some? then Cancel(t, s.current.value, call, false) else Done(t, call)
  }

  function Apply(s: State, a: Action): State
    requires Enabled(s, a)
  {
    match a
    case Post(call) => s.(queue := s.queue + [call])
    case Take => Begin(s.(queue := s.queue[1..]), s.queue[0])
    case EndPush(rest) => if rest then Rearm(s, s.loop.call) else Done(s, s.loop.call)
    case Joined => if s.loop.pushes then s.(loop := Pushing(s.loop.call)) else Done(s, s.loop.call)
    case Expires(k) => Moved(s, k, Due)
    case Calls(k) => Moved(s, k, Calling).(queue := s.queue + [Expiry(k)])
    case Ends(k) => Moved(s, k, Finished)
  }

  ghost predicate Execution(s: State, acts: seq<Action>, t: State)
    decreases |acts|
  {
    if acts == [] then s == t
    else Enabled(s, acts[0]) && Execution(Apply(s, acts[0]), acts[1..], t)
  }

  /** Past its last look at m_active: the thread ends only after a handler has run for it. */
  predicate Committed(s: State, k: nat) {
    ThreadIs(s, k, Due) || ThreadIs(s, k, Calling)
  }

  /** The event loop joins a thread that waits, or is going to wait, for the event loop. */
  predicate Deadlocked(s: State) {
    s.loop.Joining? && Committed(s, s.loop.timer)
  }

  predicate Handles(l: Loop, call: Call) {
    !l.Waiting? && l.call == call
  }

  /** A thread that has not begun to end is that of the current timer, or joined. */
  ghost predicate ThreadsInv(s: State) {
    && (s.current.Some? ==> s.current.value < |s.threads|)
    && (s.loop.Joining? ==>
          s.loop.timer < |s.threads| && s.threads[s.loop.timer] != Sleeping && s.current != Some(s.loop.timer))
    && (forall k | 0 <= k < |s.threads| && (s.threads[k].Sleeping? || Committed(s, k)) ::
          s.current == Some(k) || (s.loop.Joining? && s.loop.timer == k))
  }

  /** Each call of a timer is queued or being handled once, and its thread waits for it. */
  ghost predicate CallsInv(s: State) {
    && (forall c | c in s.queue && c.Expiry? :: ThreadIs(s, c.timer, Calling) && !Handles(s.loop, c))
    && (forall i, j | 0 <= i < j < |s.queue| && s.queue[i].Expiry? :: s.queue[i] != s.queue[j])
    && (!s.loop.Waiting? && s.loop.call.Expiry? ==> ThreadIs(s, s.loop.call.timer, Calling))
    && (s.loop.Joining? && s.loop.pushes ==> !s.loop.call.Expiry?)
  }

  ghost predicate Inv(s: State) {
    ThreadsInv(s) && CallsInv(s)
  }

  /** The call in front is queued no more than once. */
  lemma FrontOnce(queue: seq<Call>, d: Call)
    requires queue != [] && d in queue[1..] && d.Expiry?
    requires forall i, j | 0 <= i < j < |queue| && queue[i].Expiry? :: queue[i] != queue[j]
    ensures d in queue && d != queue[0]
  {
    var j :| 0 <= j < |queue[1..]| && queue[1..][j] == d;
    assert queue[j + 1] == d;
  }

  lemma TakeCalls(s: State)
    requires Inv(s) && Enabled(s, Take)
    ensures CallsInv(Apply(s, Take))
  {
    forall d | d in s.queue[1..] && d.Expiry? ensures d in s.queue && d != s.queue[0] {
      FrontOnce(s.queue, d);
    }
  }

  lemma RearmInv(s: State)
    requires Inv(s) && Enabled(s, EndPush(true))
    ensures Inv(Apply(s, EndPush(true)))
  {
  }

  lemma StepThreads(s: State, a: Action)
    requires Inv(s) && Enabled(s, a) && a != EndPush(true)
    ensures ThreadsInv(Apply(s, a))
  {
  }

  lemma StepCalls(s: State, a: Action)
    requires Inv(s) && Enabled(s, a) && a != EndPush(true) && !a.Take?
    ensures CallsInv(Apply(s, a))
  {
  }

  lemma StepInv(s: State, a: Action)
    requires Inv(s) && Enabled(s, a)
    ensures Inv(Apply(s, a))
  {
    match a
    case Take => StepThreads(s, a); TakeCalls(s);
    case EndPush(true) => RearmInv(s);
    case _ => StepThreads(s, a); StepCalls(s, a);
  }

  lemma {:induction false} ReachableInv(s: State, acts: seq<Action>, t: State)
    requires Inv(s) && Execution(s, acts, t)
    ensures Inv(t)
    decreases |acts|
  {
    if acts != [] {
      StepInv(s, acts[0]);
      ReachableInv(Apply(s, acts[0]), acts[1..], t);
    }
  }

  /** The step cancels, resets or replaces a timer whose thread is past its last look at m_active. */
  predicate JoinsCommitted(s: State, a: Action) {
    && s.current.Some? && Committed(s, s.current.value) && Enabled(s, a)
    && (match a
        case Take => s.queue[0].NewSample? || s.queue[0].Close?
        case EndPush(rest) => rest
        case _ => false)
  }

  lemma StepDeadlocks(s: State, a: Action)
    requires Inv(s) && Enabled(s, a)
    ensures Deadlocked(Apply(s, a)) <==> Deadlocked(s) || JoinsCommitted(s, a)
  {
  }

  ghost predicate SomeJoinsCommitted(s: State, acts: seq<Action>)
    decreases |acts|
  {
    acts != [] && Enabled(s, acts[0])
    && (JoinsCommitted(s, acts[0]) || SomeJoinsCommitted(Apply(s, acts[0]), acts[1..]))
  }

  lemma {:induction false} RunDeadlocks(s: State, acts: seq<Action>, t: State)
    requires Inv(s) && Execution(s, acts, t)
    ensures Deadlocked(t) <==> Deadlocked(s) || SomeJoinsCommitted(s, acts)
    decreases |acts|
  {
    if acts != [] {
      StepInv(s, acts[0]);
      StepDeadlocks(s, acts[0]);
      RunDeadlocks(Apply(s, acts[0]), acts[1..], t);
    }
  }

  /** In every run the event loop and a timer's thread wait for each other exactly when some step
      has cancelled, reset or replaced a timer that had already decided to call. */
  lemma TimerDeadlockExactly(acts: seq<Action>, s: State)
    requires Execution(Init(), acts, s)
    ensures Deadlocked(s) <==> SomeJoinsCommitted(Init(), acts)
  {
    RunDeadlocks(Init(), acts, s);
  }

  /** It is for good: the event loop handles nothing any more. */
  lemma {:induction false} DeadlockedForever(s: State, acts: seq<Action>, t: State)
    requires Inv(s) && Deadlocked(s) && Execution(s, acts, t)
    ensures Deadlocked(t) && t.loop == s.loop && s.queue <= t.queue
    decreases |acts|
  {
    if acts != [] {
      StepInv(s, acts[0]);
      StepDeadlocks(s, acts[0]);
      DeadlockedForever(Apply(s, acts[0]), acts[1..], t);
    }
  }

  /** How many steps the handler still needs. */
  function Rank(s: State): nat {
    match s.loop
    case Waiting => 0
    case Joining(k, _, pushes) => (if pushes then 3 else 0) + if ThreadIs(s, k, Finished) then 1 else 2
    case Pushing(_) => 3
  }

  /** A step of the event loop, or of the thread that it joins. */
  predicate Advances(s: State, a: Action) {
    a.EndPush? || a.Joined? || (s.loop.Joining? && a == Ends(s.loop.timer))
  }

  lemma StepRank(s: State, a: Action)
    requires Inv(s) && Enabled(s, a) && !s.loop.Waiting?
    ensures if Advances(s, a) then Deadlocked(Apply(s, a)) || Rank(Apply(s, a)) < Rank(s)
            else Rank(Apply(s, a)) == Rank(s)
  {
  }

  /** Otherwise the event loop has nothing to do, or it, or the thread it joins, can go on; and a
      handler, once begun, returns within five such steps, whatever the other threads do, or enters
      the deadlock. */
  lemma TimerProgress(acts: seq<Action>, s: State)
    requires Execution(Init(), acts, s) && !Deadlocked(s)
    ensures (s.loop.Waiting? && s.queue == []) || Enabled(s, Take) || Enabled(s, EndPush(true))
      || Enabled(s, Joined) || (s.loop.Joining? && Enabled(s, Ends(s.loop.timer)))
    ensures Rank(s) <= 5 && (Rank(s) == 0 <==> s.loop.Waiting?)
    ensures !s.loop.Waiting? ==> forall a | Enabled(s, a) ::
      if Advances(s, a) then Deadlocked(Apply(s, a)) || Rank(Apply(s, a)) < Rank(s)
      else Rank(Apply(s, a)) == Rank(s)
  {
    ReachableInv(Init(), acts, s);
    if !s.loop.Waiting? {
      forall a | Enabled(s, a)
        ensures if Advances(s, a) then Deadlocked(Apply(s, a)) || Rank(Apply(s, a)) < Rank(s)
                else Rank(Apply(s, a)) == Rank(s)
      {
        StepRank(s, a);
      }
    }
  }

  /** The calls taken that have to push, and the pushSamples that have run. */
  function CallsToPush(s: State, acts: seq<Action>): nat
    decreases |acts|
  {
    if acts == [] || !Enabled(s, acts[0]) then 0
    else (if acts[0].Take? && !s.queue[0].Close? then 1 else 0) + CallsToPush(Apply(s, acts[0]), acts[1..])
  }

  function Pushes(acts: seq<Action>): nat {
    if acts == [] then 0 else (if acts[0].EndPush? then 1 else 0) + Pushes(acts[1..])
  }

  function InProgress(s: State): nat {
    if s.loop.Pushing? || (s.loop.Joining? && s.loop.pushes) then 1 else 0
  }

  /** In every run each sample, EOS request and expiry that is taken pushes once, a close never;
      at most the one in progress has not done so yet. */
  lemma {:induction false} EachCallPushesOnce(s: State, acts: seq<Action>, t: State)
    requires Execution(s, acts, t)
    ensures InProgress(s) + CallsToPush(s, acts) == Pushes(acts) + InProgress(t)
    decreases |acts|
  {
    if acts != [] {
      EachCallPushesOnce(Apply(s, acts[0]), acts[1..], t);
    }
  }

  /** The retry after a timer's expiry comes back exactly when it leaves no audio queued: otherwise
      pushSamples replaces the very timer whose thread waits for this pushSamples. */
  lemma RetryExactly(acts: seq<Action>, s: State, rest: bool)
    requires Execution(Init(), acts, s) && s.loop.Pushing? && s.loop.call.Expiry?
    ensures s.current == Some(s.loop.call.timer)
    ensures Deadlocked(Apply(s, EndPush(rest))) <==> rest
  {
    ReachableInv(Init(), acts, s);
    StepDeadlocks(s, EndPush(rest));
  }

  /** In every run a timer's thread that waits for its call has the call queued or handled right now,
      so that no thread is left waiting when the event loop has nothing to do. */
  ghost predicate CallsWait(s: State) {
    forall k | 0 <= k < |s.threads| && s.threads[k].Calling? ::
      Expiry(k) in s.queue || Handles(s.loop, Expiry(k))
  }

  lemma TakeCallsWait(s: State)
    requires Inv(s) && CallsWait(s) && Enabled(s, Take)
    ensures CallsWait(Apply(s, Take))
  {
    var t := Apply(s, Take);
    forall k | 0 <= k < |t.threads| && t.threads[k].Calling?
      ensures Expiry(k) in t.queue || Handles(t.loop, Expiry(k))
    {
      assert s.threads[k].Calling?;
      assert s.queue == [s.queue[0]] + s.queue[1..];
    }
  }

  lemma StepCallsWait(s: State, a: Action)
    requires Inv(s) && CallsWait(s) && Enabled(s, a)
    ensures CallsWait(Apply(s, a))
  {
    if a.Take? {
      TakeCallsWait(s);
    }
  }

  lemma {:induction false} RunCallsWait(s: State, acts: seq<Action>, t: State)
    requires Inv(s) && CallsWait(s) && Execution(s, acts, t)
    ensures CallsWait(t)
    decreases |acts|
  {
    if acts != [] {
      StepInv(s, acts[0]);
      StepCallsWait(s, acts[0]);
      RunCallsWait(Apply(s, acts[0]), acts[1..], t);
    }
  }

  lemma ThreadsReturn(acts: seq<Action>, s: State)
    requires Execution(Init(), acts, s) && s.loop.Waiting? && s.queue == []
    ensures forall k | 0 <= k < |s.threads| :: !s.threads[k].Calling?
  {
    RunCallsWait(Init(), acts, s);
  }

  ghost predicate Reachable(s: State) {
    exists acts :: Execution(Init(), acts, s)
  }

  lemma {:induction false} Append(s: State, acts: seq<Action>, t: State, a: Action)
    requires Execution(s, acts, t) && Enabled(t, a)
    ensures Execution(s, acts + [a], Apply(t, a))
    decreases |acts|
  {
    if acts == [] {
      assert Execution(Apply(s, a), [], Apply(s, a));
      assert [a][1..] == [];
    } else {
      assert (acts + [a])[1..] == acts[1..] + [a];
      Append(Apply(s, acts[0]), acts[1..], t, a);
    }
  }

  lemma Then(s: State, a: Action) returns (t: State)
    requires Reachable(s) && Enabled(s, a)
    ensures Reachable(t) && t == Apply(s, a)
  {
    var acts :| Execution(Init(), acts, s);
    Append(Init(), acts, s, a);
    t := Apply(s, a);
  }

  /** A sample is left over, and the timer armed for it has expired. */
  lemma FirstExpiry() returns (s: State)
    ensures Reachable(s) && s == State(Waiting, [], [Due], Some(0))
  {
    assert Execution(Init(), [], Init());
    s := Then(Init(), Post(NewSample));
    assert s.queue == [NewSample] && s.queue[1..] == [];
    s := Then(s, Take);
    s := Then(s, EndPush(true));
    assert s.threads == [Sleeping];
    s := Then(s, Expires(0));
  }

  /** Both ways into the deadlock are reachable: the retry finds the server still without space
      for everything, or a sample arrives just as the timer expires. */
  lemma TimerDeadlocks() returns (retry: State, sample: State)
    ensures Reachable(retry) && Deadlocked(retry) && retry.loop == Joining(0, Expiry(0), false)
    ensures Reachable(sample) && Deadlocked(sample) && sample.loop == Joining(0, NewSample, true)
  {
    var s := FirstExpiry();
    retry := Then(s, Calls(0));
    assert retry.queue == [Expiry(0)] && retry.queue[1..] == [];
    retry := Then(retry, Take);
    retry := Then(retry, EndPush(true));
    sample := Then(s, Post(NewSample));
    assert sample.queue[0] == NewSample;
    sample := Then(sample, Take);
  }
}
