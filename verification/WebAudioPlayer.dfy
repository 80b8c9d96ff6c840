/** The web-audio client (source/GStreamerWebAudioPlayerClient.cpp): its handlers, run one
    after the other on its event loop, with the retry timer and deferred end-of-stream. */
module WebAudioPlayers {
  import opened Common
  import opened WebAudioPush

  datatype Timer = Unset | Armed | Expired

  datatype Player = Player(
    isOpen: bool, isEos: bool, frameSize: nat, timer: Timer, queue: seq<Bytes>,
    // history
    log: seq<Event>,
    received: Bytes,
    eosSent: bool)    // since isEos was last set

  function Init(): Player {
    Player(false, false, 0, Unset, [], [], [], false)
  }

  /** `answers` are the server's answers in the handler's pushSamples, as many as it asks for. */
  datatype Action =
    | Open(frameSize: nat, created: bool)  // with a configuration that is new, or when closed
    | Close
    | NewSample(buffer: Bytes, answers: seq<Answer>)
    | SetEos(answers: seq<Answer>)
    | TimerExpires(answers: seq<Answer>)
    | EndOfStream                          // notifyState

  function PushOf(p: Player): Push {
    Push(p.queue, [], false)
  }

  predicate Pushes(p: Player) {
    p.isOpen && p.queue != []
  }

  /** The loop comes to its end with these answers. */
  predicate PushReturns(p: Player, answers: seq<Answer>) {
    Pushes(p) ==> p.frameSize > 0 && Loop(PushOf(p), p.frameSize, answers).done
  }

  function SendEos(p: Player): Player {
    p.(log := p.log + [EosSent(|p.received|)], eosSent := true)
  }

  function PushSamples(p: Player, answers: seq<Answer>): Player
    requires PushReturns(p, answers)
  {
    if !Pushes(p) then p
    else
      var done := Loop(PushOf(p), p.frameSize, answers);
      var p' := p.(queue := done.queue, log := p.log + done.log);
      if p'.queue != [] then p'.(timer := Armed)
      else if p'.isEos then SendEos(p')
      else p'
  }

  function Queued(p: Player, buffer: Bytes): Player {
    p.(timer := Unset, queue := p.queue + [buffer], received := p.received + buffer)
  }

  function EosRequested(p: Player): Player {
    p.(isEos := true, eosSent := false)
  }

  predicate Enabled(p: Player, a: Action) {
    match a
    case Open(frameSize, _) => frameSize > 0
    case NewSample(buffer, answers) => PushReturns(Queued(p, buffer), answers)
    case SetEos(answers) => p.isOpen && !p.isEos ==> PushReturns(EosRequested(p), answers)
    case TimerExpires(answers) => p.timer.Armed? && PushReturns(p.(timer := Expired), answers)
    case _ => true
  }

  function Apply(p: Player, a: Action): Player
    requires Enabled(p, a)
  {
    match a
    case Open(frameSize, created) =>
      if created then p.(isOpen := true, frameSize := frameSize)
      else p.(isOpen := false)
    case Close => p.(isOpen := false, timer := Unset)
    case NewSample(buffer, answers) => PushSamples(Queued(p, buffer), answers)
    case SetEos(answers) =>
      if p.isOpen && !p.isEos then
        if p.queue == [] then SendEos(EosRequested(p)) else PushSamples(EosRequested(p), answers)
      else p
    case TimerExpires(answers) => PushSamples(p.(timer := Expired), answers)
    case EndOfStream => p.(isEos := false)
  }

  ghost predicate Execution(p: Player, acts: seq<Action>, q: Player)
    decreases |acts|
  {
    if acts == [] then p == q
    else Enabled(p, acts[0]) && Execution(Apply(p, acts[0]), acts[1..], q)
  }

  /** The server's answers are Safe for the buffers that the action's pushSamples meets. */
  predicate SafeStep(p: Player, a: Action)
    requires Enabled(p, a)
  {
    match a
    case NewSample(buffer, answers) => SafePush(Queued(p, buffer), answers)
    case SetEos(answers) => p.isOpen && !p.isEos ==> SafePush(EosRequested(p), answers)
    case TimerExpires(answers) => SafePush(p.(timer := Expired), answers)
    case _ => true
  }

  predicate SafePush(p: Player, answers: seq<Answer>)
    requires PushReturns(p, answers)
  {
    Pushes(p) ==> SafeRun(PushOf(p), p.frameSize, answers)
  }

  /** With buffers of whole frames this always holds (WholeFramesSafe). */
  ghost predicate SafeExecution(p: Player, acts: seq<Action>)
    decreases |acts|
  {
    acts == [] || !Enabled(p, acts[0])
    || (SafeStep(p, acts[0]) && SafeExecution(Apply(p, acts[0]), acts[1..]))
  }

  // ----- bytes

  ghost predicate Conserved(p: Player) {
    p.received == LogBytes(p.log) + Flat(p.queue)
  }

  lemma {:induction false} LogConcat(x: seq<Event>, y: seq<Event>)
    ensures LogBytes(x + y) == LogBytes(x) + LogBytes(y)
    decreases |y|
  {
    if y == [] {
      assert x + y == x;
    } else {
      var all, z := x + y, y[..|y| - 1];
      assert all[..|all| - 1] == x + z && all[|all| - 1] == y[|y| - 1];
      LogConcat(x, z);
      Associate(LogBytes(x), LogBytes(z), EventBytes(y[|y| - 1]));
    }
  }

  lemma {:induction false} FlatAppend(q: seq<Bytes>, b: Bytes)
    ensures Flat(q + [b]) == Flat(q) + b
  {
    if q == [] {
      assert q + [b] == [b] && [b][1..] == [];
      assert Flat([b]) == b + Flat([]);
    } else {
      assert (q + [b])[1..] == q[1..] + [b];
      FlatAppend(q[1..], b);
    }
  }

  lemma PushConserves(p: Player, answers: seq<Answer>)
    requires Conserved(p) && PushReturns(p, answers) && SafePush(p, answers)
    ensures Conserved(PushSamples(p, answers))
  {
    if Pushes(p) {
      var done := Loop(PushOf(p), p.frameSize, answers);
      LoopConserves(PushOf(p), p.frameSize, answers);
      LogConcat(p.log, done.log);
      LogAppend(p.log + done.log, EosSent(|p.received|));
      Regroup(LogBytes(p.log), LogBytes(done.log), Flat(done.queue), Flat(p.queue));
    }
  }

  lemma Regroup(x: Bytes, y: Bytes, z: Bytes, w: Bytes)
    requires y + z == w
    ensures (x + y) + z == x + w
  {
  }

  lemma StepConserves(p: Player, a: Action)
    requires Conserved(p) && Enabled(p, a) && SafeStep(p, a)
    ensures Conserved(Apply(p, a))
  {
    match a
    case NewSample(buffer, answers) =>
      FlatAppend(p.queue, buffer);
      PushConserves(Queued(p, buffer), answers);
    case SetEos(answers) =>
      LogAppend(p.log, EosSent(|p.received|));
      if p.isOpen && !p.isEos && p.queue != [] {
        PushConserves(EosRequested(p), answers);
      }
    case TimerExpires(answers) => PushConserves(p.(timer := Expired), answers);
    case _ =>
  }

  // ----- buffers of whole frames

  /** Every buffer is a whole number of frames of one size, that of every configuration. */
  ghost predicate WholeFrameActions(acts: seq<Action>, frameSize: nat)
    requires frameSize > 0
  {
    forall a | a in acts ::
      && (a.Open? ==> a.frameSize == frameSize)
      && (a.NewSample? ==> WholeFrames([a.buffer], frameSize))
  }

  predicate WholeFramePlayer(p: Player, frameSize: nat)
    requires frameSize > 0
  {
    WholeFrames(p.queue, frameSize) && (p.isOpen ==> p.frameSize == frameSize)
  }

  lemma {:induction false} LoopKeepsWholeFrames(p: Push, frameSize: nat, answers: seq<Answer>)
    requires frameSize > 0 && (p.queue != [] || p.done) && WholeFrames(p.queue, frameSize)
    ensures WholeFrames(Loop(p, frameSize, answers).queue, frameSize)
    decreases |answers|
  {
    if !p.done && answers != [] {
      IterateKeepsWholeFrames(p, frameSize, answers[0]);
      LoopKeepsWholeFrames(Iterate(p, frameSize, answers[0]), frameSize, answers[1..]);
    }
  }

  lemma PushWholeFrames(p: Player, frameSize: nat, answers: seq<Answer>)
    requires frameSize > 0 && WholeFramePlayer(p, frameSize) && PushReturns(p, answers)
    ensures SafePush(p, answers) && WholeFramePlayer(PushSamples(p, answers), frameSize)
  {
    if Pushes(p) {
      WholeFramesSafe(PushOf(p), frameSize, answers);
      LoopKeepsWholeFrames(PushOf(p), frameSize, answers);
    }
  }

  lemma StepWholeFrames(p: Player, a: Action, frameSize: nat)
    requires frameSize > 0 && WholeFramePlayer(p, frameSize) && Enabled(p, a) && WholeFrameActions([a], frameSize)
    ensures SafeStep(p, a) && WholeFramePlayer(Apply(p, a), frameSize)
  {
    assert a in [a];
    match a
    case NewSample(buffer, answers) =>
      assert [buffer][0] == buffer;
      PushWholeFrames(Queued(p, buffer), frameSize, answers);
    case SetEos(answers) =>
      if p.isOpen && !p.isEos {
        PushWholeFrames(EosRequested(p), frameSize, answers);
      }
    case TimerExpires(answers) => PushWholeFrames(p.(timer := Expired), frameSize, answers);
    case _ =>
  }

  /** With buffers of whole frames nothing needs to be asked of the server's answers: every run
      meets the condition of the theorems above and below. */
  lemma {:induction false} WholeFramesRunSafe(p: Player, acts: seq<Action>, frameSize: nat)
    requires frameSize > 0 && WholeFramePlayer(p, frameSize) && WholeFrameActions(acts, frameSize)
    ensures SafeExecution(p, acts)
    decreases |acts|
  {
    if acts != [] && Enabled(p, acts[0]) {
      assert acts[0] in acts;
      StepWholeFrames(p, acts[0], frameSize);
      WholeFramesRunSafe(Apply(p, acts[0]), acts[1..], frameSize);
    }
  }

  lemma {:induction false} WholeFramesKept(p: Player, acts: seq<Action>, q: Player, frameSize: nat)
    requires frameSize > 0 && WholeFramePlayer(p, frameSize) && WholeFrameActions(acts, frameSize)
    requires Execution(p, acts, q)
    ensures WholeFramePlayer(q, frameSize)
    decreases |acts|
  {
    if acts != [] {
      assert acts[0] in acts;
      StepWholeFrames(p, acts[0], frameSize);
      WholeFramesKept(Apply(p, acts[0]), acts[1..], q, frameSize);
    }
  }

  lemma WholeFramesPushReturns(p: Player, answers: seq<Answer>, frameSize: nat)
    requires frameSize > 0 && WholeFramePlayer(p, frameSize)
    requires |answers| >= |Flat(p.queue)| + |p.queue|
    ensures PushReturns(p, answers)
  {
    if Pushes(p) {
      WholeFramesSafe(PushOf(p), frameSize, answers);
      LoopTerminates(PushOf(p), frameSize, answers);
    }
  }

  /** As many answers as the handler's pushSamples can ask for. */
  function MostAnswers(p: Player, a: Action): nat {
    |Flat(p.queue)| + |p.queue| + if a.NewSample? then |a.buffer| + 1 else 0
  }

  /** And in every run each handler that pushes returns, however the server answers. */
  lemma WholeFramesHandlersReturn(acts: seq<Action>, p: Player, a: Action, frameSize: nat)
    requires frameSize > 0 && WholeFrameActions(acts, frameSize) && WholeFrameActions([a], frameSize)
    requires Execution(Init(), acts, p)
    requires a.NewSample? || a.SetEos? || (a.TimerExpires? && p.timer.Armed?)
    requires |a.answers| >= MostAnswers(p, a)
    ensures Enabled(p, a)
  {
    WholeFramesKept(Init(), acts, p, frameSize);
    match a
    case NewSample(buffer, answers) =>
      assert a in [a];
      assert [buffer][0] == buffer;
      FlatAppend(p.queue, buffer);
      WholeFramesPushReturns(Queued(p, buffer), answers, frameSize);
    case SetEos(answers) => WholeFramesPushReturns(EosRequested(p), answers, frameSize);
    case TimerExpires(answers) => WholeFramesPushReturns(p.(timer := Expired), answers, frameSize);
  }

  // ----- end of stream

  /** Whenever setEos was called, every byte received until then had been written or dropped. */
  ghost predicate EosInOrder(log: seq<Event>) {
    forall i | 0 <= i < |log| && log[i].EosSent? :: |LogBytes(log[..i])| == log[i].received
  }

  lemma {:induction false} LoopSendsNoEos(p: Push, frameSize: nat, answers: seq<Answer>)
    requires frameSize > 0 && (p.queue != [] || p.done)
    requires forall e | e in p.log :: !e.EosSent?
    ensures forall e | e in Loop(p, frameSize, answers).log :: !e.EosSent?
    decreases |answers|
  {
    if !p.done && answers != [] {
      var d := Iterate(p, frameSize, answers[0]);
      assert forall e | e in d.log :: !e.EosSent?;
      LoopSendsNoEos(d, frameSize, answers[1..]);
    }
  }

  lemma EosInOrderExtends(log: seq<Event>, more: seq<Event>)
    requires EosInOrder(log) && forall e | e in more :: !e.EosSent?
    ensures EosInOrder(log + more)
  {
    var all := log + more;
    forall i | 0 <= i < |all| && all[i].EosSent? ensures |LogBytes(all[..i])| == all[i].received {
      if i < |log| {
        assert all[..i] == log[..i];
      }
    }
  }

  lemma EosInOrderSent(log: seq<Event>, n: nat)
    requires EosInOrder(log) && |LogBytes(log)| == n
    ensures EosInOrder(log + [EosSent(n)])
  {
    var all := log + [EosSent(n)];
    forall i | 0 <= i < |all| && all[i].EosSent? ensures |LogBytes(all[..i])| == all[i].received {
      assert all[..i] == log[..i];
      assert log[..|log|] == log;
    }
  }

  lemma PushKeepsEosInOrder(p: Player, answers: seq<Answer>)
    requires Conserved(p) && EosInOrder(p.log) && PushReturns(p, answers) && SafePush(p, answers)
    ensures EosInOrder(PushSamples(p, answers).log)
  {
    if Pushes(p) {
      var done := Loop(PushOf(p), p.frameSize, answers);
      LoopSendsNoEos(PushOf(p), p.frameSize, answers);
      EosInOrderExtends(p.log, done.log);
      PushConserves(p, answers);
      if done.queue == [] && p.isEos {
        LogAppend(p.log + done.log, EosSent(|p.received|));
        EosInOrderSent(p.log + done.log, |p.received|);
      }
    }
  }

  lemma StepKeepsEosInOrder(p: Player, a: Action)
    requires Conserved(p) && EosInOrder(p.log) && Enabled(p, a) && SafeStep(p, a)
    ensures EosInOrder(Apply(p, a).log)
  {
    match a
    case NewSample(buffer, answers) =>
      FlatAppend(p.queue, buffer);
      PushKeepsEosInOrder(Queued(p, buffer), answers);
    case SetEos(answers) =>
      if p.isOpen && !p.isEos {
        if p.queue == [] {
          EosInOrderSent(p.log, |p.received|);
        } else {
          PushKeepsEosInOrder(EosRequested(p), answers);
        }
      }
    case TimerExpires(answers) => PushKeepsEosInOrder(p.(timer := Expired), answers);
    case _ =>
  }

  lemma {:induction false} ReachableInv(p: Player, acts: seq<Action>, q: Player)
    requires Execution(p, acts, q) && SafeExecution(p, acts) && Conserved(p) && EosInOrder(p.log)
    ensures Conserved(q) && EosInOrder(q.log)
    decreases |acts|
  {
    if acts != [] {
      StepConserves(p, acts[0]);
      StepKeepsEosInOrder(p, acts[0]);
      ReachableInv(Apply(p, acts[0]), acts[1..], q);
    }
  }

  /** Byte conservation over whole runs, through opening, closing, failures and retries: the
      stream received is, in order and without repetition, what was written or dropped and
      then what is still queued. */
  lemma BytesConserved(acts: seq<Action>, p: Player)
    requires Execution(Init(), acts, p) && SafeExecution(Init(), acts)
    ensures p.received == LogBytes(p.log) + Flat(p.queue)
  {
    ReachableInv(Init(), acts, p);
  }

  /** End-of-stream never overtakes audio: at each call of setEos, all that had been received
      by then had already been written or dropped. */
  lemma EosNeverOvertakes(acts: seq<Action>, p: Player, i: nat)
    requires Execution(Init(), acts, p) && SafeExecution(Init(), acts)
    requires i < |p.log| && p.log[i].EosSent?
    ensures p.log[i].received <= |p.received|
    ensures LogBytes(p.log[..i]) == p.received[..p.log[i].received]
  {
    ReachableInv(Init(), acts, p);
    LogConcat(p.log[..i], p.log[i..]);
    assert p.log == p.log[..i] + p.log[i..];
    TakePrefix(LogBytes(p.log[..i]), LogBytes(p.log[i..]), Flat(p.queue));
  }

  lemma TakePrefix(x: Bytes, y: Bytes, z: Bytes)
    ensures |x| <= |(x + y) + z| && ((x + y) + z)[..|x|] == x
  {
  }

  /** In every run, unaligned buffers included: setEos is called last in its handler, with an empty
      data queue and end-of-stream requested. */
  lemma EosOnlyWhenEmpty(p: Player, a: Action, i: nat)
    requires Enabled(p, a) && |p.log| <= i < |Apply(p, a).log| && Apply(p, a).log[i].EosSent?
    ensures var q := Apply(p, a);
      q.queue == [] && q.isEos && i == |q.log| - 1 && q.log[i].received == |q.received|
  {
    match a
    case NewSample(buffer, answers) => PushSendsEosLast(Queued(p, buffer), answers, i);
    case SetEos(answers) =>
      if p.isOpen && !p.isEos && p.queue != [] {
        PushSendsEosLast(EosRequested(p), answers, i);
      }
    case TimerExpires(answers) => PushSendsEosLast(p.(timer := Expired), answers, i);
    case _ =>
  }

  lemma PushSendsEosLast(p: Player, answers: seq<Answer>, i: nat)
    requires PushReturns(p, answers)
    requires |p.log| <= i < |PushSamples(p, answers).log| && PushSamples(p, answers).log[i].EosSent?
    ensures var q := PushSamples(p, answers);
      q.queue == [] && q.isEos && i == |q.log| - 1 && q.log[i].received == |q.received|
  {
    var done := Loop(PushOf(p), p.frameSize, answers);
    LoopSendsNoEos(PushOf(p), p.frameSize, answers);
  }

  // ----- nothing is forgotten, but for what was queued before opening

  /** Audio waits in an open player, and no timer will try it again. */
  predicate Unserved(p: Player) {
    p.isOpen && p.queue != [] && !p.timer.Armed?
  }

  /** The player is opened over audio left in its queue. */
  predicate OpensBacklog(p: Player, a: Action) {
    a.Open? && a.created && !p.isOpen && p.queue != [] && !p.timer.Armed?
  }

  /** The action does nothing for the audio that waits. */
  predicate Ignores(p: Player, a: Action) {
    match a
    case Open(_, created) => created
    case SetEos(_) => p.isEos
    case EndOfStream => true
    case _ => false
  }

  /** Exactly the opening of a closed player over queued audio leaves it unserved, and exactly
      these actions leave it so. */
  lemma UnservedStep(p: Player, a: Action)
    requires Enabled(p, a)
    ensures Unserved(Apply(p, a)) <==> if Unserved(p) then Ignores(p, a) else OpensBacklog(p, a)
  {
  }

  ghost predicate IgnoresAll(p: Player, acts: seq<Action>)
    decreases |acts|
  {
    acts == []
    || (Enabled(p, acts[0]) && Ignores(p, acts[0]) && IgnoresAll(Apply(p, acts[0]), acts[1..]))
  }

  /** At some point of the run the player is opened over queued audio, and everything after that
      ignores it. */
  ghost predicate LeavesBacklog(p: Player, acts: seq<Action>)
    decreases |acts|
  {
    && acts != [] && Enabled(p, acts[0])
    && ((OpensBacklog(p, acts[0]) && IgnoresAll(Apply(p, acts[0]), acts[1..]))
        || LeavesBacklog(Apply(p, acts[0]), acts[1..]))
  }

  lemma {:induction false} UnservedRun(p: Player, acts: seq<Action>, q: Player)
    requires Execution(p, acts, q)
    ensures Unserved(q) <==> LeavesBacklog(p, acts) || (Unserved(p) && IgnoresAll(p, acts))
    decreases |acts|
  {
    if acts != [] {
      UnservedStep(p, acts[0]);
      UnservedRun(Apply(p, acts[0]), acts[1..], q);
    }
  }

  lemma {:induction false} EosPending(p: Player, acts: seq<Action>, q: Player)
    requires Execution(p, acts, q) && (p.isEos ==> p.eosSent || p.queue != [])
    ensures q.isEos ==> q.eosSent || q.queue != []
    decreases |acts|
  {
    if acts != [] {
      EosPending(Apply(p, acts[0]), acts[1..], q);
    }
  }

  /** In every run, even one with unaligned buffers, whatever the server answers: audio in an open
      player has a timer that will try it again, unless, and only unless, the player was opened
      over it and nothing since has pushed; and a requested end-of-stream has been sent or has
      audio before it. */
  lemma NothingForgotten(acts: seq<Action>, p: Player)
    requires Execution(Init(), acts, p)
    ensures Unserved(p) <==> LeavesBacklog(Init(), acts)
    ensures p.isEos ==> p.eosSent || p.queue != []
  {
    UnservedRun(Init(), acts, p);
    EosPending(Init(), acts, p);
  }

  /** The exception is real: open does not push what was queued while the player was closed. */
  lemma BacklogWaits(buffer: Bytes, frameSize: nat) returns (p: Player)
    requires frameSize > 0
    ensures Execution(Init(), [NewSample(buffer, []), Open(frameSize, true)], p)
    ensures Unserved(p) && p.queue == [buffer]
  {
    var acts := [NewSample(buffer, []), Open(frameSize, true)];
    var closed := Apply(Init(), acts[0]);
    assert [] + [buffer] == [buffer];
    p := Apply(closed, acts[1]);
    assert acts[1..] == [acts[1]] && acts[1..][1..] == [];
    assert Execution(p, [], p);
    assert Execution(closed, acts[1..], p);
  }

  // ----- the object that runs on the event loop

  class WebAudioPlayerClient {
    var isOpen: bool
    var isEos: bool
    var frameSize: nat
    var pushSamplesTimer: Timer
    var dataBuffers: seq<Bytes>
    ghost var history: Player  // only its history fields are used

    ghost function View(): Player
      reads this
    {
      history.(isOpen := isOpen, isEos := isEos, frameSize := frameSize,
               timer := pushSamplesTimer, queue := dataBuffers)
    }

    constructor ()
      ensures View() == Init()
    {
      isOpen, isEos, frameSize, pushSamplesTimer, dataBuffers := false, false, 0, Unset, [];
      history := Init();
    }

    /** Lines 338-355: the buffer in front, of which `framesToWrite` frames have been written,
        is popped, trimmed to the leftover data, or joined with the next one. */
    method KeepLeftover(framesToWrite: nat, availableFrames: nat)
      requires frameSize > 0 && dataBuffers != [] && framesToWrite * frameSize <= |dataBuffers[0]|
      modifies this`dataBuffers
      ensures var q := old(dataBuffers);
        dataBuffers == AfterWrite(Push(q, [], false), frameSize, framesToWrite,
                                    LeftoverData(q[0], availableFrames, frameSize)).queue
    {
      var buffer := dataBuffers[0];
      if U32(framesToWrite * frameSize) < |buffer| {
        var leftoverData := U32(|buffer| - U32(availableFrames * frameSize));
        buffer := Resize(buffer, U32(framesToWrite * frameSize), leftoverData);
        if leftoverData / frameSize == 0 && |dataBuffers| > 1 {
          dataBuffers := dataBuffers[1..];
          dataBuffers := [buffer + dataBuffers[0]] + dataBuffers[1..];
        } else {
          dataBuffers := [buffer] + dataBuffers[1..];
        }
      } else {
        dataBuffers := dataBuffers[1..];
      }
    }

    /** One iteration of the do-while loop; `more` is its condition. */
    method PushOnce(a: Answer) returns (more: bool, ghost log: seq<Event>)
      requires frameSize > 0 && dataBuffers != []
      modifies this`dataBuffers
      ensures var d := Iterate(Push(old(dataBuffers), [], false), frameSize, a);
        dataBuffers == d.queue && log == d.log && more == !d.done
    {
      log := [];
      if a.Unavailable? {
        log := [Dropped(Flat(dataBuffers))];
        dataBuffers := [];
        return false, log;
      }
      if a.frames == 0 {
        return false, log;
      }
      var buffer := dataBuffers[0];
      var framesToWrite := FramesToWrite(buffer, a.frames, frameSize);
      FramesFit(buffer, a.frames, frameSize);
      var writeFailure := false;
      if framesToWrite > 0 {
        if a.mapped && a.written {
          log := [Written(buffer[..framesToWrite * frameSize])];
        } else {
          writeFailure := true;
          log := [Dropped(buffer)];
        }
      }
      if writeFailure {
        dataBuffers := dataBuffers[1..];
      } else {
        KeepLeftover(framesToWrite, a.frames);
      }
      more := dataBuffers != [];
    }

    /** pushSamples as far as the server's answers last; `returned` says whether they last until
        its loop ends. */
    method PushSamplesNow(answers: seq<Answer>) returns (returned: bool)
      requires Pushes(View()) ==> frameSize > 0
      modifies this
      ensures returned <==> PushReturns(old(View()), answers)
      ensures returned ==> View() == PushSamples(old(View()), answers)
      ensures !returned ==>
        var d := Loop(PushOf(old(View())), old(frameSize), answers);
        View() == old(View()).(queue := d.queue, log := old(View()).log + d.log)
    {
      if !isOpen || dataBuffers == [] {
        return true;
      }
      ghost var start := PushOf(View());
      ghost var log: seq<Event> := [];
      var k := 0;
      var more := true;
      while more && k < |answers|
        invariant k <= |answers| && (more ==> dataBuffers != [])
        invariant isOpen && frameSize == old(frameSize) > 0
        invariant isEos == old(isEos) && pushSamplesTimer == old(pushSamplesTimer) && history == old(history)
        invariant Loop(Push(dataBuffers, log, !more), frameSize, answers[k..]) == Loop(start, frameSize, answers)
        decreases |answers| - k
      {
        ghost var before := Push(dataBuffers, log, false);
        ghost var added;
        more, added := PushOnce(answers[k]);
        IterateAppends(before, frameSize, answers[k]);
        log := log + added;
        assert answers[k..][1..] == answers[k + 1..];
        k := k + 1;
      }
      history := history.(log := history.log + log);
      if more {
        return false;
      }
      if dataBuffers != [] {
        pushSamplesTimer := Armed;
      } else if isEos {
        history := SendEos(View());
      }
      return true;
    }

    method NotifyNewSample(buffer: Bytes, answers: seq<Answer>)
      requires Enabled(View(), NewSample(buffer, answers))
      modifies this
      ensures View() == Apply(old(View()), NewSample(buffer, answers))
    {
      pushSamplesTimer := Unset;
      dataBuffers := dataBuffers + [buffer];
      history := history.(received := history.received + buffer);
      var returned := PushSamplesNow(answers);
    }

    method RequestEos(answers: seq<Answer>)
      requires Enabled(View(), SetEos(answers))
      modifies this
      ensures View() == Apply(old(View()), SetEos(answers))
    {
      if isOpen && !isEos {
        isEos := true;
        history := history.(eosSent := false);
        if dataBuffers == [] {
          history := SendEos(View());
        } else {
          var returned := PushSamplesNow(answers);
        }
      }
    }

    method NotifyPushSamplesTimerExpired(answers: seq<Answer>)
      requires Enabled(View(), TimerExpires(answers))
      modifies this
      ensures View() == Apply(old(View()), TimerExpires(answers))
    {
      pushSamplesTimer := Expired;
      var returned := PushSamplesNow(answers);
    }

    method OpenBackend(frameSize: nat, created: bool)
      requires frameSize > 0
      modifies this
      ensures View() == Apply(old(View()), Open(frameSize, created))
    {
      if created {
        this.frameSize := frameSize;
        isOpen := true;
      } else {
        isOpen := false;
      }
    }

    method CloseBackend()
      modifies this
      ensures View() == Apply(old(View()), Close)
    {
      pushSamplesTimer := Unset;
      isOpen := false;
    }
  }

  lemma IterateAppends(p: Push, frameSize: nat, a: Answer)
    requires frameSize > 0 && p.queue != []
    ensures var d := Iterate(p.(log := []), frameSize, a);
      Iterate(p, frameSize, a) == d.(log := p.log + d.log)
  {
  }
}
