/** When pushSamples comes to its end (source/GStreamerWebAudioPlayerClient.cpp): a buffer that is
    not a whole number of frames makes its loop spin, writing the same frames again and again, for
    as long as the server reports more frames than the buffer holds. */
module WebAudioSpin {
  import opened Common
  import opened WebAudioPush

  /** An answer with more frames than any queued buffer holds, and success in mapping and writing
      what a buffer that is not whole frames has of them. The bytes of those frames fit 32 bits,
      with a frame to spare unless there is only one buffer. */
  ghost predicate Ample(q: seq<Bytes>, frameSize: nat, a: Answer)
    requires frameSize > 0
  {
    && a.Available?
    && (forall i | 0 <= i < |q| && |q[i]| % frameSize != 0 :: |q[i]| < frameSize || (a.mapped && a.written))
    && a.frames * frameSize < TWO_TO_THE_32
    && (|q| > 1 ==> a.frames * frameSize + frameSize <= TWO_TO_THE_32)
    && forall i | 0 <= i < |q| :: a.frames > |q[i]| / frameSize
  }

  ghost predicate Short(q: seq<Bytes>) {
    forall i | 0 <= i < |q| :: |q[i]| < TWO_TO_THE_32
  }

  /** What is counted as left over is at least a frame, so that no buffers are joined. */
  lemma LeftoverLarge(b: Bytes, frames: nat, frameSize: nat)
    requires frameSize > 0 && |b| < TWO_TO_THE_32 && |b| % frameSize != 0 && frames > |b| / frameSize
    requires frames * frameSize + frameSize <= TWO_TO_THE_32
    ensures LeftoverData(b, frames, frameSize) / frameSize > 0
  {
    var n := |b| / frameSize;
    MulMonotone(n + 1, frames, frameSize);
    assert (n + 1) * frameSize == n * frameSize + frameSize;
    WrapsNegative(|b| - frames * frameSize);
    QuotientPositive(LeftoverData(b, frames, frameSize), frameSize);
  }

  /** The whole frames in front have been written, and nothing else has changed. */
  predicate Spun(p: Push, d: Push, frameSize: nat)
    requires frameSize > 0 && p.queue != []
  {
    var b := p.queue[0];
    var n := |b| / frameSize;
    && !d.done && d.queue == p.queue && 0 <= n * frameSize < |b|
    && d.log == if n > 0 then p.log + [Written(b[..n * frameSize])] else p.log
  }

  /** The answer makes the front buffer spin: what is counted as left neither fits behind the
      frames written nor is so little that it would be joined with the next buffer. */
  predicate SpinAnswer(q: seq<Bytes>, frameSize: nat, a: Answer)
    requires frameSize > 0 && q != []
  {
    var b := q[0];
    var n := |b| / frameSize;
    && a.Available? && a.frames > n && (n == 0 || (a.mapped && a.written))
    && n * frameSize + LeftoverData(b, a.frames, frameSize) > |b|
    && (|q| > 1 ==> LeftoverData(b, a.frames, frameSize) / frameSize > 0)
  }

  lemma SpinTurn(p: Push, frameSize: nat, a: Answer)
    requires frameSize > 0 && p.queue != [] && |p.queue[0]| < TWO_TO_THE_32
    requires |p.queue[0]| % frameSize != 0 && SpinAnswer(p.queue, frameSize, a)
    ensures Spun(p, Iterate(p, frameSize, a), frameSize)
  {
    var b := p.queue[0];
    var n := |b| / frameSize;
    QuotientFits(|b|, frameSize);
    assert n * frameSize + |b| % frameSize == |b|;
    assert FramesToWrite(b, a.frames, frameSize) == n;
    SpinAfterWrite(p, frameSize, n, LeftoverData(b, a.frames, frameSize));
  }

  /** One turn under an ample answer over a buffer that is not whole frames. */
  lemma SpinOnce(p: Push, frameSize: nat, a: Answer)
    requires frameSize > 0 && p.queue != [] && Short(p.queue) && Ample(p.queue, frameSize, a)
    requires |p.queue[0]| % frameSize != 0
    ensures Spun(p, Iterate(p, frameSize, a), frameSize)
  {
    var b := p.queue[0];
    ResizeRefused(b, a.frames, frameSize);
    if |p.queue| > 1 {
      LeftoverLarge(b, a.frames, frameSize);
    }
    if |b| >= frameSize {
      assert a.mapped && a.written;
    } else {
      ShortQuotient(|b|, frameSize);
    }
    SpinTurn(p, frameSize, a);
  }

  lemma ShortQuotient(size: nat, frameSize: nat)
    requires size < frameSize
    ensures size / frameSize == 0
  {
  }

  lemma SpinAfterWrite(p: Push, frameSize: nat, n: nat, left: nat)
    requires frameSize > 0 && p.queue != [] && n * frameSize < |p.queue[0]| < TWO_TO_THE_32
    requires n * frameSize + left > |p.queue[0]| && (left / frameSize > 0 || |p.queue| == 1)
    ensures var d := AfterWrite(p, frameSize, n, left);
      !d.done && d.queue == p.queue
      && d.log == if n > 0 then p.log + [Written(p.queue[0][..n * frameSize])] else p.log
  {
    assert [p.queue[0]] + p.queue[1..] == p.queue;
  }

  /** The front buffer is written entirely when it is whole frames. */
  lemma PopOnce(p: Push, frameSize: nat, a: Answer)
    requires frameSize > 0 && p.queue != [] && Short(p.queue) && Ample(p.queue, frameSize, a)
    requires |p.queue[0]| % frameSize == 0
    ensures var d := Iterate(p, frameSize, a);
      d.queue == p.queue[1..] && (d.done <==> p.queue[1..] == [])
  {
    WholeBufferExact(p.queue[0], a.frames, frameSize);
  }

  lemma {:induction false} Spins(p: Push, frameSize: nat, answers: seq<Answer>)
    requires frameSize > 0 && p.queue != [] && !p.done && Short(p.queue) && |p.queue[0]| % frameSize != 0
    requires forall a | a in answers :: Ample(p.queue, frameSize, a)
    ensures Loop(p, frameSize, answers).queue == p.queue && !Loop(p, frameSize, answers).done
    decreases |answers|
  {
    if answers != [] {
      SpinOnce(p, frameSize, answers[0]);
      Spins(Iterate(p, frameSize, answers[0]), frameSize, answers[1..]);
    }
  }

  /** Under answers that go on being successful and ample, the loop ends exactly when every queued
      buffer is a whole number of frames, and then within one iteration a buffer. */
  lemma {:induction false} AmpleEndsExactly(p: Push, frameSize: nat, answers: seq<Answer>)
    requires frameSize > 0 && p.queue != [] && !p.done && Short(p.queue)
    requires |answers| >= |p.queue| && forall a | a in answers :: Ample(p.queue, frameSize, a)
    ensures Loop(p, frameSize, answers).done <==> WholeFrames(p.queue, frameSize)
    decreases |answers|
  {
    var q, a := p.queue, answers[0];
    assert a in answers;
    if |q[0]| % frameSize != 0 {
      Spins(p, frameSize, answers);
      assert !WholeFrames(q, frameSize);
    } else {
      PopOnce(p, frameSize, a);
      var d := Iterate(p, frameSize, a);
      assert q == [q[0]] + q[1..];
      if q[1..] != [] {
        forall b | b in answers[1..] ensures Ample(d.queue, frameSize, b) {
          assert b in answers;
          AmpleTail(q, frameSize, b);
        }
        AmpleEndsExactly(d, frameSize, answers[1..]);
      }
    }
  }

  lemma AmpleTail(q: seq<Bytes>, frameSize: nat, a: Answer)
    requires frameSize > 0 && q != [] && Ample(q, frameSize, a)
    ensures Ample(q[1..], frameSize, a)
  {
    forall i | 0 <= i < |q[1..]| ensures a.frames > |q[1..][i]| / frameSize {
      assert q[1..][i] == q[i + 1];
    }
  }

  /** pushSamples returns after boundedly many of the server's answers, whatever they are. */
  ghost predicate AlwaysEnds(p: Push, frameSize: nat)
    requires frameSize > 0 && p.queue != []
  {
    forall answers | |answers| >= |Flat(p.queue)| + |p.queue| :: Loop(p, frameSize, answers).done
  }

  /** One frame more than the buffer holds makes it spin, whatever its size. */
  lemma NextFrameSpins(q: seq<Bytes>, frameSize: nat)
    requires frameSize > 0 && q != [] && |q[0]| < TWO_TO_THE_32 && |q[0]| % frameSize != 0
    requires 8 * frameSize <= TWO_TO_THE_32
    ensures SpinAnswer(q, frameSize, Available(|q[0]| / frameSize + 1, true, true))
  {
    var b := q[0];
    var n, r := |b| / frameSize, |b| % frameSize;
    QuotientFits(|b|, frameSize);
    assert n * frameSize + r == |b| && (n + 1) * frameSize == n * frameSize + frameSize;
    DifferenceWraps(|b|, (n + 1) * frameSize);
    WrapsNegative(r - frameSize);
    assert LeftoverData(b, n + 1, frameSize) == TWO_TO_THE_32 + r - frameSize;
    if |q| > 1 {
      QuotientPositive(LeftoverData(b, n + 1, frameSize), frameSize);
    }
  }

  lemma DifferenceWraps(x: int, y: int)
    ensures U32(x - U32(y)) == U32(x - y)
  {
  }

  function Repeat(a: Answer, n: nat): (answers: seq<Answer>)
    ensures |answers| == n && forall b | b in answers :: b == a
  {
    if n == 0 then [] else [a] + Repeat(a, n - 1)
  }

  lemma LoopOnce(p: Push, frameSize: nat, a: Answer, more: seq<Answer>)
    requires frameSize > 0 && p.queue != [] && !p.done
    ensures Loop(p, frameSize, [a] + more) == Loop(Iterate(p, frameSize, a), frameSize, more)
  {
    assert ([a] + more)[1..] == more;
  }

  lemma {:induction false} SpinsOn(p: Push, frameSize: nat, a: Answer, k: nat)
    requires frameSize > 0 && p.queue != [] && !p.done && |p.queue[0]| < TWO_TO_THE_32
    requires |p.queue[0]| % frameSize != 0 && SpinAnswer(p.queue, frameSize, a)
    ensures !Loop(p, frameSize, Repeat(a, k)).done
    decreases k
  {
    if k > 0 {
      SpinTurn(p, frameSize, a);
      LoopOnce(p, frameSize, a, Repeat(a, k - 1));
      SpinsOn(Iterate(p, frameSize, a), frameSize, a, k - 1);
    }
  }

  lemma PopFront(p: Push, frameSize: nat)
    requires frameSize > 0 && p.queue != [] && Short(p.queue) && !WholeFrames(p.queue, frameSize)
    requires |p.queue[0]| % frameSize == 0
    ensures var q := p.queue[1..];
      var d := Iterate(p, frameSize, Available(|p.queue[0]| / frameSize + 1, true, true));
      q != [] && Short(q) && !WholeFrames(q, frameSize) && d.queue == q && !d.done
  {
    var b, q := p.queue[0], p.queue[1..];
    WholeBufferExact(b, |b| / frameSize + 1, frameSize);
    var i :| 0 <= i < |p.queue| && |p.queue[i]| % frameSize != 0;
    assert p.queue[i] == q[i - 1];
    assert Short(q) by {
      forall j | 0 <= j < |q| ensures |q[j]| < TWO_TO_THE_32 {
        assert q[j] == p.queue[j + 1];
      }
    }
  }

  lemma FrontSpins(p: Push, frameSize: nat, k: nat) returns (answers: seq<Answer>)
    requires frameSize > 0 && p.queue != [] && !p.done && Short(p.queue) && |p.queue[0]| % frameSize != 0
    requires 8 * frameSize <= TWO_TO_THE_32
    ensures |answers| >= k && !Loop(p, frameSize, answers).done
  {
    QuotientFits(|p.queue[0]|, frameSize);
    var a := Available(|p.queue[0]| / frameSize + 1, true, true);
    NextFrameSpins(p.queue, frameSize);
    SpinsOn(p, frameSize, a, k);
    answers := Repeat(a, k);
  }

  /** With a buffer that is not whole frames in the queue, the server can keep the loop going for
      any number of turns: it takes the buffers before it, and then reports one frame too many. */
  lemma {:induction false} KeepsGoing(p: Push, frameSize: nat, k: nat) returns (answers: seq<Answer>)
    requires frameSize > 0 && p.queue != [] && !p.done && Short(p.queue) && !WholeFrames(p.queue, frameSize)
    requires 8 * frameSize <= TWO_TO_THE_32
    ensures |answers| >= k && !Loop(p, frameSize, answers).done
    decreases |p.queue|
  {
    var b := p.queue[0];
    if |b| % frameSize != 0 {
      answers := FrontSpins(p, frameSize, k);
    } else {
      QuotientFits(|b|, frameSize);
      var a := Available(|b| / frameSize + 1, true, true);
      PopFront(p, frameSize);
      var more := KeepsGoing(Iterate(p, frameSize, a), frameSize, k);
      LoopOnce(p, frameSize, a, more);
      answers := [a] + more;
    }
  }

  /** The exact condition of termination, which a caller can see in the queue: pushSamples returns
      against every server if and only if each queued buffer is a whole number of frames. (The frame
      size is a number of bits that fits 32 bits, divided by 8.) */
  lemma AlwaysEndsExactly(p: Push, frameSize: nat)
    requires frameSize > 0 && p.queue != [] && !p.done && Short(p.queue)
    requires 8 * frameSize <= TWO_TO_THE_32
    ensures AlwaysEnds(p, frameSize) <==> WholeFrames(p.queue, frameSize)
  {
    if WholeFrames(p.queue, frameSize) {
      forall answers | |answers| >= |Flat(p.queue)| + |p.queue| ensures Loop(p, frameSize, answers).done {
        WholeFramesSafe(p, frameSize, answers);
        LoopTerminates(p, frameSize, answers);
      }
    } else {
      var answers := KeepsGoing(p, frameSize, |Flat(p.queue)| + |p.queue|);
    }
  }
}
