/** The loop of pushSamples (source/GStreamerWebAudioPlayerClient.cpp), which cuts and joins
    buffers into whole frames under back-pressure, with its 32-bit arithmetic. */
module WebAudioPush {
  import opened Common

  type Bytes = seq<bv8>

  /** The server's answers in one iteration: getBufferAvailable fails, or reports `frames`;
      then whether the buffer can be mapped and written. */
  datatype Answer = Unavailable | Available(frames: nat, mapped: bool, written: bool)

  /** What becomes of received bytes, and the calls of setEos: `EosSent(n)` is sent when `n`
      bytes have been received. */
  datatype Event = Written(bytes: Bytes) | Dropped(bytes: Bytes) | EosSent(received: nat)

  datatype Push = Push(queue: seq<Bytes>, log: seq<Event>, done: bool)

  function Flat(q: seq<Bytes>): Bytes {
    if q == [] then [] else q[0] + Flat(q[1..])
  }

  function EventBytes(e: Event): Bytes {
    if e.EosSent? then [] else e.bytes
  }

  function LogBytes(log: seq<Event>): Bytes {
    if log == [] then [] else LogBytes(log[..|log| - 1]) + EventBytes(log[|log| - 1])
  }

  /** gst_buffer_resize, which refuses a range that is not inside the buffer. */
  function Resize(b: Bytes, offset: nat, size: nat): Bytes {
    if offset + size <= |b| then b[offset..offset + size] else b
  }

  /** The frames line 318 decides to write; the quotient is cast to 32 bits. */
  function FramesToWrite(b: Bytes, frames: nat, frameSize: nat): (n: nat)
    requires frameSize > 0
    ensures n <= frames && n <= |b| / frameSize
    ensures |b| < TWO_TO_THE_32 ==> n == Min(frames, |b| / frameSize)
  {
    QuotientFits(|b|, frameSize);
    Min(frames, U32(|b| / frameSize))
  }

  lemma QuotientFits(size: nat, frameSize: nat)
    requires frameSize > 0
    ensures 0 <= size / frameSize <= size
  {
    var q := size / frameSize;
    MulMonotone(1, frameSize, q);
  }

  lemma MulMonotone(x: nat, y: nat, z: nat)
    requires x <= y
    ensures x * z <= y * z
  {
  }

  /** line 341: what is left according to the code, which subtracts the frames available. */
  function LeftoverData(b: Bytes, frames: nat, frameSize: nat): nat {
    U32(|b| - U32(frames * frameSize))
  }

  /** Lines 338-355 after `n` frames have been written, `left` being the leftover data. */
  function AfterWrite(p: Push, frameSize: nat, n: nat, left: nat): Push
    requires frameSize > 0 && p.queue != [] && n * frameSize <= |p.queue[0]|
  {
    var b := p.queue[0];
    var log := if n > 0 then p.log + [Written(b[..n * frameSize])] else p.log;
    if U32(n * frameSize) < |b| then
      var rest := Resize(b, U32(n * frameSize), left);
      if left / frameSize == 0 && |p.queue| > 1
      then Push([rest + p.queue[1]] + p.queue[2..], log, false)
      else Push([rest] + p.queue[1..], log, false)
    else
      Push(p.queue[1..], log, p.queue[1..] == [])
  }

  function Iterate(p: Push, frameSize: nat, a: Answer): (r: Push)
    requires frameSize > 0 && p.queue != []
    ensures r.queue != [] || r.done
  {
    match a
    case Unavailable => Push([], p.log + [Dropped(Flat(p.queue))], true)
    case Available(frames, mapped, written) =>
      if frames == 0 then p.(done := true)
      else
        var b := p.queue[0];
        var n := FramesToWrite(b, frames, frameSize);
        FramesFit(b, frames, frameSize);
        if n > 0 && !(mapped && written)
        then Push(p.queue[1..], p.log + [Dropped(b)], p.queue[1..] == [])
        else AfterWrite(p, frameSize, n, LeftoverData(b, frames, frameSize))
  }

  lemma FramesFit(b: Bytes, frames: nat, frameSize: nat)
    requires frameSize > 0
    ensures FramesToWrite(b, frames, frameSize) * frameSize <= |b|
  {
    var n := FramesToWrite(b, frames, frameSize);
    MulMonotone(n, |b| / frameSize, frameSize);
  }

  /** The loop, as far as the answers last. */
  function Loop(p: Push, frameSize: nat, answers: seq<Answer>): Push
    requires frameSize > 0 && (p.queue != [] || p.done)
    decreases |answers|
  {
    if p.done || answers == [] then p
    else Loop(Iterate(p, frameSize, answers[0]), frameSize, answers[1..])
  }

  // ----- conservation

  /** All bytes, in order: those accounted for and those still queued. */
  function Content(p: Push): Bytes {
    LogBytes(p.log) + Flat(p.queue)
  }

  /** Under this answer the bytes that line 341 counts as left are the ones not written: the
      buffer is a whole number of frames, or no more frames are available than it has. */
  predicate Safe(b: Bytes, frameSize: nat, a: Answer)
    requires frameSize > 0
  {
    |b| < TWO_TO_THE_32 && (a.Available? ==> |b| % frameSize == 0 || a.frames <= |b| / frameSize)
  }

  lemma LogAppend(log: seq<Event>, e: Event)
    ensures LogBytes(log + [e]) == LogBytes(log) + EventBytes(e)
  {
    assert (log + [e])[..|log|] == log;
  }

  lemma LeftoverExact(b: Bytes, frames: nat, frameSize: nat)
    requires frameSize > 0 && |b| < TWO_TO_THE_32 && frames <= |b| / frameSize
    ensures FramesToWrite(b, frames, frameSize) == frames
    ensures frames * frameSize <= |b| && LeftoverData(b, frames, frameSize) == |b| - frames * frameSize
  {
    MulMonotone(frames, |b| / frameSize, frameSize);
  }

  /** A whole number of frames, with at least as many frames available, is written entirely. */
  lemma WholeBufferExact(b: Bytes, frames: nat, frameSize: nat)
    requires frameSize > 0 && |b| < TWO_TO_THE_32 && |b| % frameSize == 0 && frames >= |b| / frameSize
    ensures FramesToWrite(b, frames, frameSize) * frameSize == |b|
  {
  }

  lemma FlatCons(x: Bytes, q: seq<Bytes>)
    ensures Flat([x] + q) == x + Flat(q)
  {
    assert ([x] + q)[1..] == q;
  }

  lemma FlatJoin(x: Bytes, q: seq<Bytes>)
    requires q != []
    ensures Flat([x + q[0]] + q[1..]) == x + Flat(q)
  {
    var joined := [x + q[0]] + q[1..];
    assert joined[0] == x + q[0] && joined[1..] == q[1..];
    Associate(x, q[0], Flat(q[1..]));
  }

  lemma AfterWriteQueue(p: Push, frameSize: nat, n: nat, left: nat)
    requires frameSize > 0 && p.queue != [] && n * frameSize <= |p.queue[0]| < TWO_TO_THE_32
    requires n * frameSize < |p.queue[0]| ==> left == |p.queue[0]| - n * frameSize
    ensures Flat(AfterWrite(p, frameSize, n, left).queue) == p.queue[0][n * frameSize..] + Flat(p.queue[1..])
  {
    var rest := p.queue[0][n * frameSize..];
    FlatCons(rest, p.queue[1..]);
    if |p.queue| > 1 {
      FlatJoin(rest, p.queue[1..]);
      assert p.queue[1..][1..] == p.queue[2..];
    }
  }

  lemma AfterWriteLog(p: Push, frameSize: nat, n: nat, left: nat)
    requires frameSize > 0 && p.queue != [] && n * frameSize <= |p.queue[0]|
    ensures LogBytes(AfterWrite(p, frameSize, n, left).log) == LogBytes(p.log) + p.queue[0][..n * frameSize]
  {
    LogAppend(p.log, Written(p.queue[0][..n * frameSize]));
    if n == 0 {
      assert n * frameSize == 0;
    }
  }

  lemma CutAndJoin(x: Bytes, b: Bytes, k: nat, y: Bytes)
    requires k <= |b|
    ensures (x + b[..k]) + (b[k..] + y) == x + (b + y)
  {
    assert b == b[..k] + b[k..];
  }

  lemma AfterWriteConserves(p: Push, frameSize: nat, n: nat, left: nat)
    requires frameSize > 0 && p.queue != [] && n * frameSize <= |p.queue[0]| < TWO_TO_THE_32
    requires n * frameSize < |p.queue[0]| ==> left == |p.queue[0]| - n * frameSize
    ensures Content(AfterWrite(p, frameSize, n, left)) == Content(p)
  {
    AfterWriteQueue(p, frameSize, n, left);
    AfterWriteLog(p, frameSize, n, left);
    CutAndJoin(LogBytes(p.log), p.queue[0], n * frameSize, Flat(p.queue[1..]));
  }

  /** One iteration neither loses nor repeats nor reorders a byte. */
  lemma IterateConserves(p: Push, frameSize: nat, a: Answer)
    requires frameSize > 0 && p.queue != [] && Safe(p.queue[0], frameSize, a)
    ensures Content(Iterate(p, frameSize, a)) == Content(p)
  {
    var b := p.queue[0];
    match a
    case Unavailable => LogAppend(p.log, Dropped(Flat(p.queue)));
    case Available(frames, mapped, written) =>
      var n := FramesToWrite(b, frames, frameSize);
      if frames != 0 && n > 0 && !(mapped && written) {
        LogAppend(p.log, Dropped(b));
      } else if frames != 0 {
        FramesFit(b, frames, frameSize);
        if frames <= |b| / frameSize {
          LeftoverExact(b, frames, frameSize);
        } else {
          WholeBufferExact(b, frames, frameSize);
        }
        AfterWriteConserves(p, frameSize, n, LeftoverData(b, frames, frameSize));
      }
  }

  lemma RefusedQueue(p: Push, frameSize: nat, n: nat, left: nat)
    requires frameSize > 0 && p.queue != [] && n * frameSize < |p.queue[0]| < TWO_TO_THE_32
    requires n * frameSize + left > |p.queue[0]|
    ensures var d := AfterWrite(p, frameSize, n, left);
      Flat(d.queue) == Flat(p.queue) && (|p.queue| == 1 ==> d.queue == p.queue && !d.done)
  {
    var b := p.queue[0];
    assert Resize(b, U32(n * frameSize), left) == b;
    FlatCons(b, p.queue[1..]);
    assert [b] + p.queue[1..] == p.queue;
    if |p.queue| > 1 {
      FlatJoin(b, p.queue[1..]);
      assert p.queue[1..][1..] == p.queue[2..];
    }
  }

  /** Under an answer that is not Safe, the whole frames are written but the resize is refused:
      the bytes stay queued, to be written again. */
  lemma UnsafeWritesAgain(p: Push, frameSize: nat, frames: nat)
    requires frameSize > 0 && frames > 0 && p.queue != [] && |p.queue[0]| < TWO_TO_THE_32
    requires frames * frameSize < TWO_TO_THE_32
    requires !Safe(p.queue[0], frameSize, Available(frames, true, true))
    ensures var b := p.queue[0];
      var n := |b| / frameSize;
      var d := Iterate(p, frameSize, Available(frames, true, true));
      && n * frameSize <= |b| && Flat(d.queue) == Flat(p.queue)
      && LogBytes(d.log) == LogBytes(p.log) + b[..n * frameSize]
      && (|p.queue| == 1 ==> d.queue == p.queue && !d.done)
      && (n == 0 ==> d.log == p.log)
  {
    var b := p.queue[0];
    var n := FramesToWrite(b, frames, frameSize);
    ResizeRefused(b, frames, frameSize);
    RefusedQueue(p, frameSize, n, LeftoverData(b, frames, frameSize));
    AfterWriteLog(p, frameSize, n, LeftoverData(b, frames, frameSize));
  }

  /** For a mapped and written buffer of at least one frame, bytes are conserved exactly when
      the answer is Safe. */
  lemma ConservesExactly(p: Push, frameSize: nat, frames: nat)
    requires frameSize > 0 && frames > 0 && p.queue != [] && frameSize <= |p.queue[0]| < TWO_TO_THE_32
    requires frames * frameSize < TWO_TO_THE_32
    ensures var a := Available(frames, true, true);
      Content(Iterate(p, frameSize, a)) == Content(p) <==> Safe(p.queue[0], frameSize, a)
  {
    var a := Available(frames, true, true);
    var b := p.queue[0];
    if Safe(b, frameSize, a) {
      IterateConserves(p, frameSize, a);
    } else {
      UnsafeWritesAgain(p, frameSize, frames);
      QuotientPositive(|b|, frameSize);
      MulMonotone(1, |b| / frameSize, frameSize);
      assert |Content(Iterate(p, frameSize, a))| > |Content(p)|;
    }
  }

  lemma QuotientPositive(size: nat, frameSize: nat)
    requires 0 < frameSize <= size
    ensures size / frameSize >= 1
  {
  }

  lemma ResizeRefused(b: Bytes, frames: nat, frameSize: nat)
    requires frameSize > 0 && |b| < TWO_TO_THE_32 && frames * frameSize < TWO_TO_THE_32
    requires |b| % frameSize != 0 && frames > |b| / frameSize
    ensures var n := FramesToWrite(b, frames, frameSize);
      n == |b| / frameSize && n * frameSize < |b| && n * frameSize + LeftoverData(b, frames, frameSize) > |b|
  {
    var n := |b| / frameSize;
    MulMonotone(n + 1, frames, frameSize);
    assert (n + 1) * frameSize == n * frameSize + frameSize;
    WrapsNegative(|b| - frames * frameSize);
  }

  lemma WrapsNegative(x: int)
    requires -TWO_TO_THE_32 < x < 0
    ensures U32(x) == x + TWO_TO_THE_32
  {
  }

  /** Every answer the loop gets is Safe for the buffer in front. */
  predicate SafeRun(p: Push, frameSize: nat, answers: seq<Answer>)
    requires frameSize > 0 && (p.queue != [] || p.done)
    decreases |answers|
  {
    p.done || answers == []
    || (Safe(p.queue[0], frameSize, answers[0])
        && SafeRun(Iterate(p, frameSize, answers[0]), frameSize, answers[1..]))
  }

  /** Byte conservation over the whole loop, however far it gets: written, dropped and queued
      bytes are, in this order, the bytes there were, none twice. */
  lemma {:induction false} LoopConserves(p: Push, frameSize: nat, answers: seq<Answer>)
    requires frameSize > 0 && (p.queue != [] || p.done) && SafeRun(p, frameSize, answers)
    ensures Content(Loop(p, frameSize, answers)) == Content(p)
    decreases |answers|
  {
    if !p.done && answers != [] {
      IterateConserves(p, frameSize, answers[0]);
      LoopConserves(Iterate(p, frameSize, answers[0]), frameSize, answers[1..]);
    }
  }

  // ----- termination

  lemma SplitBytes(b: Bytes, k: nat, q: seq<Bytes>)
    requires k <= |b|
    ensures |b[k..] + Flat(q)| == |b| - k + |Flat(q)|
  {
  }

  /** An iteration that does not leave the loop makes (bytes queued, buffers queued) smaller. */
  lemma IterateDecreases(p: Push, frameSize: nat, a: Answer)
    requires frameSize > 0 && p.queue != [] && Safe(p.queue[0], frameSize, a)
    ensures var d := Iterate(p, frameSize, a);
      d.done
      || (|Flat(d.queue)| < |Flat(p.queue)| && |d.queue| <= |p.queue|)
      || (|Flat(d.queue)| == |Flat(p.queue)| && |d.queue| < |p.queue|)
  {
    var b := p.queue[0];
    if a.Available? && a.frames > 0 {
      var n := FramesToWrite(b, a.frames, frameSize);
      FramesFit(b, a.frames, frameSize);
      if !(n > 0 && !(a.mapped && a.written)) {
        if a.frames <= |b| / frameSize {
          LeftoverExact(b, a.frames, frameSize);
          MulMonotone(1, n, frameSize);
        } else {
          WholeBufferExact(b, a.frames, frameSize);
        }
        AfterWriteQueue(p, frameSize, n, LeftoverData(b, a.frames, frameSize));
        SplitBytes(b, n * frameSize, p.queue[1..]);
      }
    }
  }

  /** Against any answers that are Safe, the loop is over after at most as many iterations as
      there are bytes and buffers queued, and one more. */
  lemma {:induction false} LoopTerminates(p: Push, frameSize: nat, answers: seq<Answer>)
    requires frameSize > 0 && p.queue != [] && SafeRun(p, frameSize, answers)
    requires |answers| >= |Flat(p.queue)| + |p.queue|
    ensures Loop(p, frameSize, answers).done
    decreases |answers|
  {
    if !p.done {
      IterateDecreases(p, frameSize, answers[0]);
      var d := Iterate(p, frameSize, answers[0]);
      if !d.done {
        LoopTerminates(d, frameSize, answers[1..]);
      }
    }
  }

  predicate WholeFrames(q: seq<Bytes>, frameSize: nat)
    requires frameSize > 0
  {
    forall i | 0 <= i < |q| :: |q[i]| % frameSize == 0 && |q[i]| < TWO_TO_THE_32
  }

  lemma SubtractFrames(size: nat, frames: nat, frameSize: nat)
    requires frameSize > 0 && frames * frameSize <= size && size % frameSize == 0
    ensures (size - frames * frameSize) % frameSize == 0
  {
    var k := size / frameSize;
    assert size == k * frameSize;
    assert size - frames * frameSize == (k - frames) * frameSize;
    MultipleIsWhole(k - frames, frameSize);
  }

  lemma MultipleIsWhole(k: int, m: nat)
    requires m > 0
    ensures (k * m) % m == 0
  {
    var q, r := (k * m) / m, (k * m) % m;
    assert (k - q) * m == r;
    if k - q >= 1 {
      MulMonotone(1, k - q, m);
    } else if q - k >= 1 {
      MulMonotone(1, q - k, m);
    }
  }

  lemma IterateKeepsWholeFrames(p: Push, frameSize: nat, a: Answer)
    requires frameSize > 0 && p.queue != [] && WholeFrames(p.queue, frameSize)
    ensures WholeFrames(Iterate(p, frameSize, a).queue, frameSize)
  {
    var b := p.queue[0];
    if a.Available? && a.frames > 0 {
      if a.frames <= |b| / frameSize {
        LeftoverExact(b, a.frames, frameSize);
        SubtractFrames(|b|, a.frames, frameSize);
      } else {
        WholeBufferExact(b, a.frames, frameSize);
      }
    }
  }

  /** With buffers of whole frames every answer is Safe: nothing is asked of the server. */
  lemma {:induction false} WholeFramesSafe(p: Push, frameSize: nat, answers: seq<Answer>)
    requires frameSize > 0 && (p.queue != [] || p.done) && WholeFrames(p.queue, frameSize)
    ensures SafeRun(p, frameSize, answers)
    decreases |answers|
  {
    if !p.done && answers != [] {
      IterateKeepsWholeFrames(p, frameSize, answers[0]);
      WholeFramesSafe(Iterate(p, frameSize, answers[0]), frameSize, answers[1..]);
    }
  }
}
