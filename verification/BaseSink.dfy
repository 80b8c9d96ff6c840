/** The base sink's sample queue (source/RialtoGStreamerMSEBaseSink.cpp,
    source/RialtoGStreamerMSEBaseSinkPrivate.h) and the pull loop that drains it
    (PullBufferMessage::handle in source/GStreamerMSEMediaPlayerClient.cpp). */
module BaseSinks {
  import opened Common
  import opened MediaPlayerClients

  const MAX_INTERNAL_BUFFERS_QUEUE_SIZE := 24

  /** How it goes for one fetched sample: gst_buffer_map fails, the parser returns nothing,
      the server has no space, or the server takes the segment (or refuses it for another
      reason, which the loop treats alike). */
  datatype Outcome = MapFails | ParseFails | NoSpace | Added

  /** The samples of `s` whose segment the server has taken. */
  function Delivered<S>(s: seq<S>, outcomes: seq<Outcome>): (d: seq<S>)
    requires |s| <= |outcomes|
  {
    if s == [] then [] else Taken(s[0], outcomes[0]) + Delivered(s[1..], outcomes[1..])
  }

  function Taken<S>(x: S, outcome: Outcome): seq<S> {
    if outcome.Added? then [x] else []
  }

  lemma {:induction false} DeliveredConcat<S>(s: seq<S>, t: seq<S>, outcomes: seq<Outcome>)
    requires |s| + |t| <= |outcomes|
    ensures Delivered(s + t, outcomes) == Delivered(s, outcomes) + Delivered(t, outcomes[|s|..])
  {
    if s == [] {
      assert s + t == t;
    } else {
      var all, rest := s + t, outcomes[1..];
      assert all[0] == s[0] && all[1..] == s[1..] + t;
      assert rest[|s[1..]|..] == outcomes[|s|..];
      DeliveredConcat(s[1..], t, rest);
      Associate(Taken(s[0], outcomes[0]), Delivered(s[1..], rest), Delivered(t, outcomes[|s|..]));
    }
  }

  /** `segments` are the samples of `s` whose outcome is Added: those at `idx`, in order. */
  ghost predicate AddedAt<S(!new)>(s: seq<S>, outcomes: seq<Outcome>, segments: seq<S>, idx: seq<nat>) {
    && |s| <= |outcomes| && |idx| == |segments|
    && (forall k | 0 <= k < |idx| :: idx[k] < |s| && outcomes[idx[k]] == Added && segments[k] == s[idx[k]])
    && (forall k, l | 0 <= k < l < |idx| :: idx[k] < idx[l])
    && (forall j: nat | j < |s| && outcomes[j] == Added :: j in idx)
  }

  lemma {:induction false} DeliveredAt<S(!new)>(s: seq<S>, outcomes: seq<Outcome>) returns (idx: seq<nat>)
    requires |s| <= |outcomes|
    ensures AddedAt(s, outcomes, Delivered(s, outcomes), idx)
    decreases |s|
  {
    if s == [] {
      idx := [];
    } else {
      var n := |s| - 1;
      var before := DeliveredAt(s[..n], outcomes);
      assert s[..n + 1] == s;
      DeliverNext(s, n, outcomes);
      idx := before + if outcomes[n] == Added then [n] else [];
    }
  }

  function Flatten<S>(ss: seq<seq<S>>): seq<S> {
    if ss == [] then [] else Flatten(ss[..|ss| - 1]) + ss[|ss| - 1]
  }

  /** What m_sinkMutex protects: m_samples, m_isEos and m_isFlushOngoing. */
  datatype Store<S> = Store(samples: seq<S>, eos: bool, flush: bool) {
    function Cleared(): Store<S> {
      this.(samples := [], flush := true)
    }

    function FlushStarted(): Store<S> {
      if flush then this else Cleared().(eos := false)
    }

    function FlushStopped(): Store<S> {
      this.(flush := false)
    }

    function Chained(x: S): Store<S> {
      if flush then this else this.(samples := samples + [x])
    }

    function Popped(): Store<S> {
      if samples == [] then this else this.(samples := samples[1..])
    }
  }

  /** A pull loop has looked at the queue `looked` times and popped `popped` samples: they are a
      prefix of the stream of the samples queued before and those arriving meanwhile, the rest
      is queued, and `segments` are the good ones of the prefix. */
  ghost predicate Pulled<S>(
      queued: seq<S>, arrivals: seq<seq<S>>, outcomes: seq<Outcome>,
      looked: nat, popped: nat, samples: seq<S>, segments: seq<S>)
  {
    && popped <= looked <= |arrivals| <= |outcomes|
    && var stream := queued + Flatten(arrivals[..looked]);
    && popped <= |stream|
    && samples == stream[popped..]
    && segments == Delivered(stream[..popped], outcomes)
    && forall j | 0 <= j < popped :: !outcomes[j].NoSpace?
  }

  lemma PulledArrive<S>(
      queued: seq<S>, arrivals: seq<seq<S>>, outcomes: seq<Outcome>,
      looked: nat, popped: nat, samples: seq<S>, segments: seq<S>)
    requires Pulled(queued, arrivals, outcomes, looked, popped, samples, segments) && looked < |arrivals|
    ensures Pulled(queued, arrivals, outcomes, looked + 1, popped, samples + arrivals[looked], segments)
  {
    var stream, more := queued + Flatten(arrivals[..looked]), queued + Flatten(arrivals[..looked + 1]);
    assert arrivals[..looked + 1][..looked] == arrivals[..looked];
    Associate(queued, Flatten(arrivals[..looked]), arrivals[looked]);
    assert more == stream + arrivals[looked];
    assert more[..popped] == stream[..popped];
  }

  lemma PulledPop<S>(
      queued: seq<S>, arrivals: seq<seq<S>>, outcomes: seq<Outcome>,
      looked: nat, popped: nat, samples: seq<S>, segments: seq<S>)
    requires Pulled(queued, arrivals, outcomes, looked, popped, samples, segments)
    requires popped < looked && samples != [] && !outcomes[popped].NoSpace?
    ensures Pulled(queued, arrivals, outcomes, looked, popped + 1, samples[1..],
                   segments + Taken(samples[0], outcomes[popped]))
  {
    var stream := queued + Flatten(arrivals[..looked]);
    assert stream[popped] == samples[0];
    DeliverNext(stream, popped, outcomes);
  }

  lemma DeliverNext<S>(stream: seq<S>, k: nat, outcomes: seq<Outcome>)
    requires k < |stream| && k < |outcomes|
    ensures Delivered(stream[..k + 1], outcomes) == Delivered(stream[..k], outcomes) + Taken(stream[k], outcomes[k])
  {
    assert stream[..k + 1] == stream[..k] + [stream[k]];
    DeliveredConcat(stream[..k], [stream[k]], outcomes);
    DeliveredOne(stream[k], outcomes[k..]);
  }

  lemma DeliveredOne<S>(x: S, outcomes: seq<Outcome>)
    requires outcomes != []
    ensures Delivered([x], outcomes) == Taken(x, outcomes[0])
  {
    assert [x][1..] == [];
    assert Delivered([x][1..], outcomes[1..]) == [];
  }

  /** One request as `Pulled` describes it, and what arrived between its end and the next. */
  datatype PullRecord<S> = PullRecord(
    arrivals: seq<seq<S>>, outcomes: seq<Outcome>, looked: nat, popped: nat,
    left: seq<S>, segments: seq<S>, between: seq<S>)

  type PullRequest<S> = r: PullRecord<S> | r.looked <= |r.arrivals| && r.popped <= |r.outcomes|
    witness PullRecord([], [], 0, 0, [], [], [])

  /** Requests one after the other, each finding what its predecessor left and what arrived
      since; `samples` are queued at the end. */
  ghost predicate Session<S>(queued: seq<S>, rs: seq<PullRequest<S>>, samples: seq<S>)
    decreases |rs|
  {
    if rs == [] then samples == queued
    else
      && var r := rs[0];
      && Pulled(queued, r.arrivals, r.outcomes, r.looked, r.popped, r.left, r.segments)
      && Session(r.left + r.between, rs[1..], samples)
  }

  function Arrived<S>(rs: seq<PullRequest<S>>): seq<S> {
    if rs == [] then [] else Flatten(rs[0].arrivals[..rs[0].looked]) + rs[0].between + Arrived(rs[1..])
  }

  function Tried<S>(rs: seq<PullRequest<S>>): seq<Outcome> {
    if rs == [] then [] else rs[0].outcomes[..rs[0].popped] + Tried(rs[1..])
  }

  function Segments<S>(rs: seq<PullRequest<S>>): seq<S> {
    if rs == [] then [] else rs[0].segments + Segments(rs[1..])
  }

  /** One pass over `stream` has tried its front samples with these outcomes. */
  predicate Served<S(==)>(
      stream: seq<S>, popped: nat, tried: seq<Outcome>, samples: seq<S>, segments: seq<S>)
  {
    && popped == |tried| && popped <= |stream|
    && samples == stream[popped..]
    && segments == Delivered(stream[..popped], tried)
  }

  /** Any number of requests, wherever each of them stopped, deliver what one pass over the
      whole stream would: nothing twice, nothing out of order, and nothing left out but what
      could not be mapped or parsed. */
  lemma {:induction false} ConsecutiveRequests<S>(queued: seq<S>, rs: seq<PullRequest<S>>, samples: seq<S>)
    requires Session(queued, rs, samples)
    ensures Served(queued + Arrived(rs), |Tried(rs)|, Tried(rs), samples, Segments(rs))
    ensures NoSpace !in Tried(rs)
    decreases |rs|
  {
    if rs != [] {
      var r, rest := rs[0], rs[1..];
      var came := Flatten(r.arrivals[..r.looked]);
      ConsecutiveRequests(r.left + r.between, rest, samples);
      Split(queued, came, r.popped, r.between, Arrived(rest));
      ServeOn((queued + came)[..r.popped], r.outcomes, r.left + r.between + Arrived(rest), |Tried(rest)|, Tried(rest),
              samples, Segments(rest));
    }
  }

  lemma ServeOn<S>(
      x: seq<S>, outcomes: seq<Outcome>, tail: seq<S>, popped: nat, tried: seq<Outcome>,
      samples: seq<S>, segments: seq<S>)
    requires |x| <= |outcomes| && Served(tail, popped, tried, samples, segments)
    ensures Served(x + tail, |x| + popped, outcomes[..|x|] + tried, samples, Delivered(x, outcomes) + segments)
  {
    PrefixSplit(x, tail, popped);
    OneAfterAnother(x, tail[..popped], outcomes, tried);
  }

  lemma OneAfterAnother<S>(s: seq<S>, t: seq<S>, first: seq<Outcome>, rest: seq<Outcome>)
    requires |s| <= |first| && |t| <= |rest|
    ensures Delivered(s + t, first[..|s|] + rest) == Delivered(s, first) + Delivered(t, rest)
  {
    var all := first[..|s|] + rest;
    DeliveredConcat(s, t, all);
    OnlyTried(s, first);
    OnlyTried(s, all);
    assert all[..|s|] == first[..|s|] && all[|s|..] == rest;
  }

  lemma Regroup<S>(a: seq<S>, b: seq<S>, c: seq<S>, d: seq<S>)
    ensures a + (b + c + d) == a + b + c + d
  {
  }

  lemma Split<S>(queued: seq<S>, came: seq<S>, k: nat, c: seq<S>, d: seq<S>)
    requires k <= |queued + came|
    ensures queued + (came + c + d) == (queued + came)[..k] + ((queued + came)[k..] + c + d)
  {
    var now := queued + came;
    assert now == now[..k] + now[k..];
    Regroup(queued, came, c, d);
    Regroup(now[..k], now[k..], c, d);
  }

  lemma PrefixSplit<S>(x: seq<S>, y: seq<S>, m: nat)
    requires m <= |y|
    ensures (x + y)[..|x| + m] == x + y[..m] && (x + y)[|x| + m..] == y[m..]
  {
  }

  lemma {:induction false} OnlyTried<S>(s: seq<S>, outcomes: seq<Outcome>)
    requires |s| <= |outcomes|
    ensures Delivered(s, outcomes) == Delivered(s, outcomes[..|s|])
  {
    if s != [] {
      OnlyTried(s[1..], outcomes[1..]);
      assert outcomes[1..][..|s[1..]|] == outcomes[..|s|][1..];
    }
  }

  /** Of the first `popped` samples the segments are those with the outcome Added. */
  ghost predicate OnlyAdded<S(!new)>(stream: seq<S>, popped: nat, outcomes: seq<Outcome>, segments: seq<S>) {
    popped <= |stream| && exists idx: seq<nat> :: AddedAt(stream[..popped], outcomes, segments, idx)
  }

  lemma PulledAdded<S(!new)>(
      queued: seq<S>, arrivals: seq<seq<S>>, outcomes: seq<Outcome>,
      looked: nat, popped: nat, samples: seq<S>, segments: seq<S>)
    requires Pulled(queued, arrivals, outcomes, looked, popped, samples, segments)
    ensures OnlyAdded(queued + Flatten(arrivals[..looked]), popped, outcomes, segments)
  {
    var idx := DeliveredAt((queued + Flatten(arrivals[..looked]))[..popped], outcomes);
  }

  class BaseSink<S(==,!new)> {
    var samples: seq<S>
    var isEos: bool
    var isFlushOngoing: bool

    ghost function View(): Store<S>
      reads this
    {
      Store(samples, isEos, isFlushOngoing)
    }

    constructor ()
      ensures View() == Store([], false, false)
    {
      samples, isEos, isFlushOngoing := [], false, false;
    }

    /** clearBuffersUnlocked. */
    method ClearBuffers()
      modifies this
      ensures View() == old(View()).Cleared()
    {
      isFlushOngoing := true;
      while samples != []
        invariant isFlushOngoing && isEos == old(isEos)
        decreases |samples|
      {
        samples := samples[1..];
      }
    }

    method FlushStart()
      modifies this
      ensures View() == old(View()).FlushStarted()
    {
      if !isFlushOngoing {
        isEos := false;
        isFlushOngoing := true;
        ClearBuffers();
      }
    }

    method FlushStop()
      modifies this
      ensures View() == old(View()).FlushStopped()
    {
      isFlushOngoing := false;
    }

    /** chain, once it has found or waited for space; `ok` is the GST_FLOW_OK result. */
    method Chain(x: S) returns (ok: bool)
      modifies this
      ensures ok == !old(isFlushOngoing) && View() == old(View()).Chained(x)
    {
      if isFlushOngoing {
        return false;
      }
      samples := samples + [x];
      return true;
    }

    method GetFrontSample() returns (r: Option<S>)
      ensures r == if samples == [] then None else Some(samples[0])
    {
      if samples != [] {
        return Some(samples[0]);
      }
      return None;
    }

    method PopSample()
      modifies this
      ensures View() == old(View()).Popped()
    {
      if samples != [] {
        samples := samples[1..];
      }
    }

    method IsEos() returns (r: bool)
      ensures r == (samples == [] && isEos)
    {
      return samples == [] && isEos;
    }

    /** One iteration of the pull loop: the front sample, popped unless there is no space for it. */
    method TryFront(outcome: Outcome) returns (popped: Option<S>)
      modifies this
      ensures popped == if old(samples) == [] || outcome.NoSpace? then None else Some(old(samples)[0])
      ensures View() == if popped.None? then old(View()) else old(View()).Popped()
    {
      var sample := GetFrontSample();
      if sample.None? || outcome.NoSpace? {
        return None;
      }
      PopSample();
      return sample;
    }

    /** One pull request. `arrivals[k]` are the samples that the producer queues during
        iteration `k` before the loop looks at the queue, and `outcomes[j]` is how it goes for
        the j-th sample fetched. The request takes a prefix of the stream of queued and
        arriving samples; the server has been given exactly the good ones of that prefix, in
        order; the loop ends early only on an empty queue or on a sample refused for space,
        which stays in front. */
    method PullBuffer(frameCount: nat, arrivals: seq<seq<S>>, outcomes: seq<Outcome>)
      returns (status: MediaSourceStatus, segments: seq<S>, popped: nat, looked: nat)
      requires |arrivals| == frameCount && |outcomes| == frameCount
      modifies this
      ensures Pulled(old(samples), arrivals, outcomes, looked, popped, samples, segments)
      ensures OnlyAdded(old(samples) + Flatten(arrivals[..looked]), popped, outcomes, segments)
      ensures popped == looked == frameCount
        || (popped + 1 == looked && (samples == [] || outcomes[popped].NoSpace?))
      ensures status == EOS <==> popped < looked && samples == [] && isEos
      ensures status == NO_AVAILABLE_SAMPLES <==> status != EOS && segments == []
      ensures status == OK || status == EOS || status == NO_AVAILABLE_SAMPLES
      ensures isEos == old(isEos) && isFlushOngoing == old(isFlushOngoing)
    {
      var eosReached := false;
      segments, popped, looked := [], 0, 0;
      while looked < frameCount
        invariant popped == looked && !eosReached
        invariant Pulled(old(samples), arrivals, outcomes, looked, popped, samples, segments)
        invariant isEos == old(isEos) && isFlushOngoing == old(isFlushOngoing)
      {
        PulledArrive(old(samples), arrivals, outcomes, looked, popped, samples, segments);
        samples := samples + arrivals[looked];
        looked := looked + 1;

        ghost var before := samples;
        var sample := TryFront(outcomes[popped]);
        if sample.None? {
          eosReached := IsEos();
          break;
        }
        PulledPop(old(samples), arrivals, outcomes, looked, popped, before, segments);
        segments := segments + Taken(sample.value, outcomes[popped]);
        popped := popped + 1;
      }
      PulledAdded(old(samples), arrivals, outcomes, looked, popped, samples, segments);
      status := OK;
      if eosReached {
        status := EOS;
      } else if segments == [] {
        status := NO_AVAILABLE_SAMPLES;
      }
    }
  }
}
