/** What pushSamples does with the audio (source/GStreamerWebAudioPlayerClient.cpp): which answer
    of the server writes, drops or leaves which bytes. */
module WebAudioLog {
  import opened Common
  import opened WebAudioPush
  import opened WebAudioPlayers

  /** The only answers that bring an event about, with `q` queued. Bytes are written when the front
      buffer has been mapped and written, as many frames of it as are available. They are dropped
      when the server gives no answer, the whole queue then, or when the front buffer could not be
      mapped or written, exactly that buffer then. */
  predicate Caused(e: Event, q: seq<Bytes>, frameSize: nat, a: Answer)
    requires frameSize > 0 && q != []
  {
    match e
    case Written(bytes) =>
      && a.Available? && a.mapped && a.written && bytes <= q[0] && 0 < |bytes| <= a.frames * frameSize
      && (|q[0]| < TWO_TO_THE_32 ==> |bytes| == Min(a.frames, |q[0]| / frameSize) * frameSize)
    case Dropped(bytes) =>
      || (a.Unavailable? && bytes == Flat(q))
      || (a.Available? && a.frames > 0 && !(a.mapped && a.written) && |q[0]| >= frameSize && bytes == q[0])
    case EosSent(_) => false
  }

  lemma WrittenBytes(b: Bytes, frames: nat, frameSize: nat)
    requires frameSize > 0 && FramesToWrite(b, frames, frameSize) > 0
    ensures var n := FramesToWrite(b, frames, frameSize);
      0 < n * frameSize <= |b| && n * frameSize <= frames * frameSize && |b| >= frameSize
  {
    var n := FramesToWrite(b, frames, frameSize);
    FramesFit(b, frames, frameSize);
    MulMonotone(n, frames, frameSize);
    MulMonotone(1, n, frameSize);
  }

  /** One iteration logs at most one event, caused by its answer, and none exactly if there is no
      space or not a whole frame. */
  lemma IterateLogs(p: Push, frameSize: nat, a: Answer)
    requires frameSize > 0 && p.queue != []
    ensures var d := Iterate(p, frameSize, a);
      && (d.log == p.log || (d.log == p.log + [d.log[|p.log|]] && Caused(d.log[|p.log|], p.queue, frameSize, a)))
      && (|p.queue[0]| < TWO_TO_THE_32 ==>
            (d.log == p.log <==> a.Available? && (a.frames == 0 || |p.queue[0]| < frameSize)))
  {
    var b := p.queue[0];
    if a.Available? {
      var n := FramesToWrite(b, a.frames, frameSize);
      if n > 0 {
        WrittenBytes(b, a.frames, frameSize);
      } else if |b| < TWO_TO_THE_32 && |b| >= frameSize {
        QuotientPositive(|b|, frameSize);
      }
      if |b| < frameSize {
        ShortQuotient(|b|, frameSize);
      }
    }
  }

  /** The loop goes on exactly as long as there is space and something queued; what is dropped leaves
      the queue, and nothing else does with it. */
  lemma IterateEnds(p: Push, frameSize: nat, a: Answer)
    requires frameSize > 0 && p.queue != []
    ensures var d := Iterate(p, frameSize, a);
      && (d.done <==> d.queue == [] || (a.Available? && a.frames == 0))
      && (d.log == p.log + [Dropped(p.queue[0])] && a.Available? ==> d.queue == p.queue[1..])
      && (a.Available? && a.frames == 0 ==> d.queue == p.queue)
  {
    IterateLogs(p, frameSize, a);
    if a.Available? && Iterate(p, frameSize, a).log == p.log + [Dropped(p.queue[0])] {
      assert Iterate(p, frameSize, a).log[|p.log|] == Dropped(p.queue[0]);
    }
  }

  lemma ShortQuotient(size: nat, frameSize: nat)
    requires size < frameSize
    ensures size / frameSize == 0
  {
  }

  lemma {:induction false} LoopSplits(p: Push, frameSize: nat, x: seq<Answer>, y: seq<Answer>)
    requires frameSize > 0 && (p.queue != [] || p.done)
    ensures var d := Loop(p, frameSize, x);
      (d.queue != [] || d.done) && Loop(p, frameSize, x + y) == Loop(d, frameSize, y)
    decreases |x|
  {
    if p.done || x == [] {
      assert [] + y == y;
    } else {
      assert (x + y)[1..] == x[1..] + y;
      LoopSplits(Iterate(p, frameSize, x[0]), frameSize, x[1..], y);
    }
  }

  lemma {:induction false} LogGrows(p: Push, frameSize: nat, answers: seq<Answer>)
    requires frameSize > 0 && (p.queue != [] || p.done)
    ensures p.log <= Loop(p, frameSize, answers).log
    decreases |answers|
  {
    if !p.done && answers != [] {
      IterateLogs(p, frameSize, answers[0]);
      LogGrows(Iterate(p, frameSize, answers[0]), frameSize, answers[1..]);
    }
  }

  /** Every event that the loop logs is caused by one of its answers, with what was queued when that
      answer came. */
  lemma {:induction false} EveryEventCaused(p: Push, frameSize: nat, answers: seq<Answer>, i: nat) returns (k: nat)
    requires frameSize > 0 && (p.queue != [] || p.done)
    requires |p.log| <= i < |Loop(p, frameSize, answers).log|
    ensures k < |answers|
    ensures var m := Loop(p, frameSize, answers[..k]);
      var log := Loop(p, frameSize, answers).log;
      !m.done && m.queue != [] && m.log == log[..i] && Caused(log[i], m.queue, frameSize, answers[k])
    decreases |answers|
  {
    var d, rest := Iterate(p, frameSize, answers[0]), answers[1..];
    IterateLogs(p, frameSize, answers[0]);
    LogGrows(d, frameSize, rest);
    if i < |d.log| {
      k := 0;
      assert answers[..0] == [];
    } else {
      k := EveryEventCaused(d, frameSize, rest, i);
      assert answers[..k + 1][1..] == rest[..k];
      k := k + 1;
    }
  }

  /** A server that is full ends the loop, with everything queued and nothing logged that was not
      before. */
  lemma FullServerEnds(p: Push, frameSize: nat, before: seq<Answer>, full: Answer, more: seq<Answer>)
    requires frameSize > 0 && (p.queue != [] || p.done) && full.Available? && full.frames == 0
    ensures Loop(p, frameSize, before + ([full] + more)) == Loop(p, frameSize, before).(done := true)
  {
    LoopSplits(p, frameSize, before, [full] + more);
    assert ([full] + more)[1..] == more;
  }

  predicate Succeeds(a: Answer) {
    a.Available? && a.mapped && a.written
  }

  lemma {:induction false} LoopDropsNothing(p: Push, frameSize: nat, answers: seq<Answer>)
    requires frameSize > 0 && (p.queue != [] || p.done)
    requires forall a | a in answers :: Succeeds(a)
    requires forall e | e in p.log :: !e.Dropped?
    ensures forall e | e in Loop(p, frameSize, answers).log :: !e.Dropped?
    decreases |answers|
  {
    if !p.done && answers != [] {
      assert answers[0] in answers;
      IterateLogs(p, frameSize, answers[0]);
      LoopDropsNothing(Iterate(p, frameSize, answers[0]), frameSize, answers[1..]);
    }
  }

  /** What a safe answer leaves queued: nothing changes without space or success (but for the buffer
      dropped); a buffer written entirely goes; a remainder of a frame or more stays a buffer of its
      own; a shorter one goes in front of the next buffer, if there is one. */
  function Remaining(q: seq<Bytes>, frameSize: nat, rest: Bytes): seq<Bytes>
    requires q != []
  {
    if rest == [] then q[1..]
    else if |rest| < frameSize && |q| > 1 then [rest + q[1]] + q[2..]
    else [rest] + q[1..]
  }

  lemma AfterWriteRemaining(p: Push, frameSize: nat, n: nat, left: nat)
    requires frameSize > 0 && p.queue != [] && n * frameSize <= |p.queue[0]| < TWO_TO_THE_32
    requires n * frameSize < |p.queue[0]| ==> left == |p.queue[0]| - n * frameSize
    ensures var d := AfterWrite(p, frameSize, n, left);
      d.queue == Remaining(p.queue, frameSize, p.queue[0][n * frameSize..]) && (d.done <==> d.queue == [])
  {
    FrameOrMore(left, frameSize);
    var b, k := p.queue[0], n * frameSize;
    if k < |b| {
      assert U32(k) == k && b[k..k + left] == b[k..];
    } else {
      assert b[k..] == [];
    }
  }

  lemma SafeQueue(p: Push, frameSize: nat, a: Answer)
    requires frameSize > 0 && p.queue != [] && a.Available? && a.frames > 0 && Safe(p.queue[0], frameSize, a)
    requires (a.mapped && a.written) || |p.queue[0]| < frameSize
    ensures var b := p.queue[0];
      var k := Min(a.frames, |b| / frameSize) * frameSize;
      var d := Iterate(p, frameSize, a);
      0 <= k <= |b| && d.queue == Remaining(p.queue, frameSize, b[k..]) && (d.done <==> d.queue == [])
  {
    var b := p.queue[0];
    var n := FramesToWrite(b, a.frames, frameSize);
    FramesFit(b, a.frames, frameSize);
    if a.frames <= |b| / frameSize {
      LeftoverExact(b, a.frames, frameSize);
    } else {
      WholeBufferExact(b, a.frames, frameSize);
    }
    FrameOrMore(|b|, frameSize);
    AfterWriteRemaining(p, frameSize, n, LeftoverData(b, a.frames, frameSize));
  }

  lemma FrameOrMore(size: nat, frameSize: nat)
    requires frameSize > 0
    ensures size / frameSize == 0 <==> size < frameSize
  {
  }

  // ----- over runs

  predicate SuccessfulAction(a: Action) {
    a.NewSample? || a.SetEos? || a.TimerExpires? ==> forall b | b in a.answers :: Succeeds(b)
  }

  lemma PushDropsNothing(p: Player, answers: seq<Answer>)
    requires PushReturns(p, answers) && (forall a | a in answers :: Succeeds(a))
    requires forall e | e in p.log :: !e.Dropped?
    ensures forall e | e in PushSamples(p, answers).log :: !e.Dropped?
  {
    if Pushes(p) {
      LoopDropsNothing(PushOf(p), p.frameSize, answers);
    }
  }

  lemma {:induction false} RunDropsNothing(p: Player, acts: seq<Action>, q: Player)
    requires Execution(p, acts, q) && (forall a | a in acts :: SuccessfulAction(a))
    requires forall e | e in p.log :: !e.Dropped?
    ensures forall e | e in q.log :: !e.Dropped?
    decreases |acts|
  {
    if acts != [] {
      assert acts[0] in acts;
      match acts[0] {
        case NewSample(buffer, answers) => PushDropsNothing(Queued(p, buffer), answers);
        case SetEos(answers) =>
          if p.isOpen && !p.isEos {
            PushDropsNothing(EosRequested(p), answers);
          }
        case TimerExpires(answers) => PushDropsNothing(p.(timer := Expired), answers);
        case _ =>
      }
      RunDropsNothing(Apply(p, acts[0]), acts[1..], q);
    }
  }

  function WrittenBytesOf(log: seq<Event>): Bytes {
    if log == [] then []
    else WrittenBytesOf(log[..|log| - 1]) + if log[|log| - 1].Written? then log[|log| - 1].bytes else []
  }

  lemma {:induction false} AllWritten(log: seq<Event>)
    requires forall e | e in log :: !e.Dropped?
    ensures LogBytes(log) == WrittenBytesOf(log)
    decreases |log|
  {
    if log != [] {
      assert log[|log| - 1] in log;
      AllWritten(log[..|log| - 1]);
    }
  }

  /** In every run, however full the server is and however often the player is opened and closed:
      as long as the server answers and takes what it is given, no audio is lost. What was received
      has been written, or is still queued. */
  lemma NothingDropped(acts: seq<Action>, p: Player)
    requires Execution(Init(), acts, p) && SafeExecution(Init(), acts)
    requires forall a | a in acts :: SuccessfulAction(a)
    ensures p.received == WrittenBytesOf(p.log) + Flat(p.queue)
  {
    RunDropsNothing(Init(), acts, p);
    AllWritten(p.log);
    BytesConserved(acts, p);
  }

  /** A sample that finds the server full is queued behind the others, and a timer armed. */
  lemma FullServerKeepsSample(p: Player, buffer: Bytes, full: Answer, more: seq<Answer>)
    requires p.isOpen && p.frameSize > 0 && full.Available? && full.frames == 0
    ensures var a := NewSample(buffer, [full] + more);
      Enabled(p, a) && Apply(p, a).queue == p.queue + [buffer] && Apply(p, a).log == p.log
      && Apply(p, a).timer.Armed? && Apply(p, a).eosSent == p.eosSent
  {
    var q := Queued(p, buffer);
    FullServerEnds(PushOf(q), q.frameSize, [], full, more);
    assert [] + ([full] + more) == [full] + more;
  }
}
