/** What the fields of the web-audio client say about its run
    (source/GStreamerWebAudioPlayerClient.cpp). */
module WebAudioState {
  import opened Common
  import opened WebAudioPush
  import opened WebAudioPlayers

  ghost predicate Never(p: Player, acts: seq<Action>, clears: (Player, Action) -> bool)
    decreases |acts|
  {
    acts == [] || !Enabled(p, acts[0])
    || (!clears(p, acts[0]) && Never(Apply(p, acts[0]), acts[1..], clears))
  }

  /** Some action of the run sets a flag, and none after it clears it. */
  ghost predicate Since(
      p: Player, acts: seq<Action>, sets: (Player, Action) -> bool, clears: (Player, Action) -> bool)
    decreases |acts|
  {
    && acts != [] && Enabled(p, acts[0])
    && ((sets(p, acts[0]) && Never(Apply(p, acts[0]), acts[1..], clears))
        || Since(Apply(p, acts[0]), acts[1..], sets, clears))
  }

  lemma {:induction false} SinceExact(
      p: Player, acts: seq<Action>, q: Player, flag: Player -> bool,
      sets: (Player, Action) -> bool, clears: (Player, Action) -> bool)
    requires Execution(p, acts, q)
    requires forall s, a | Enabled(s, a) :: flag(Apply(s, a)) <==> sets(s, a) || (flag(s) && !clears(s, a))
    ensures flag(q) <==> Since(p, acts, sets, clears) || (flag(p) && Never(p, acts, clears))
    decreases |acts|
  {
    if acts != [] {
      SinceExact(Apply(p, acts[0]), acts[1..], q, flag, sets, clears);
    }
  }

  /** End-of-stream is pending exactly if it was requested, with the player open, since the server
      last reported the end of a stream. */
  lemma EosExactly(acts: seq<Action>, p: Player)
    requires Execution(Init(), acts, p)
    ensures p.isEos <==>
      Since(Init(), acts, (s: Player, a: Action) => a.SetEos? && s.isOpen, (s: Player, a: Action) => a.EndOfStream?)
  {
    SinceExact(Init(), acts, p, (s: Player) => s.isEos,
               (s: Player, a: Action) => a.SetEos? && s.isOpen, (s: Player, a: Action) => a.EndOfStream?);
  }

  /** The player is open exactly if it has been opened since it was last closed or failed to be
      created. */
  lemma OpenExactly(acts: seq<Action>, p: Player)
    requires Execution(Init(), acts, p)
    ensures p.isOpen <==>
      Since(Init(), acts, (s: Player, a: Action) => a.Open? && a.created,
            (s: Player, a: Action) => a.Close? || (a.Open? && !a.created))
  {
    SinceExact(Init(), acts, p, (s: Player) => s.isOpen, (s: Player, a: Action) => a.Open? && a.created,
               (s: Player, a: Action) => a.Close? || (a.Open? && !a.created));
  }

  /** The frame size is the one of the last configuration a player was created with. */
  lemma FrameSizeExactly(acts: seq<Action>, p: Player)
    requires Execution(Init(), acts, p) && p.frameSize > 0
    ensures Since(Init(), acts, (s: Player, a: Action) => a.Open? && a.created && a.frameSize == p.frameSize,
                  (s: Player, a: Action) => a.Open? && a.created && a.frameSize != p.frameSize)
  {
    SinceExact(Init(), acts, p, (s: Player) => s.frameSize == p.frameSize,
               (s: Player, a: Action) => a.Open? && a.created && a.frameSize == p.frameSize,
               (s: Player, a: Action) => a.Open? && a.created && a.frameSize != p.frameSize);
  }

  /** The action runs pushSamples, or setEos on an empty queue, in an open player. */
  predicate Pushing(p: Player, a: Action) {
    p.isOpen && (a.NewSample? || (a.SetEos? && !p.isEos) || (a.TimerExpires? && p.queue != []))
  }

  predicate LeavesAudio(p: Player, a: Action) {
    Enabled(p, a) && Pushing(p, a) && Apply(p, a).queue != []
  }

  predicate Disarms(p: Player, a: Action) {
    a.NewSample? || a.Close? || a.TimerExpires?
  }

  /** The timer is armed exactly if a push has left audio queued, and since then it has not expired,
      no sample has come and the player has not been closed. */
  lemma TimerExactly(acts: seq<Action>, p: Player)
    requires Execution(Init(), acts, p)
    ensures p.timer.Armed? <==> Since(Init(), acts, LeavesAudio, Disarms)
  {
    SinceExact(Init(), acts, p, (s: Player) => s.timer.Armed?, LeavesAudio, Disarms);
  }

  function EosCount(log: seq<Event>): nat {
    if log == [] then 0 else EosCount(log[..|log| - 1]) + if log[|log| - 1].EosSent? then 1 else 0
  }

  lemma EosCountAppend(log: seq<Event>, e: Event)
    ensures EosCount(log + [e]) == EosCount(log) + if e.EosSent? then 1 else 0
  {
    assert (log + [e])[..|log|] == log;
  }

  lemma {:induction false} EosCountNone(log: seq<Event>, more: seq<Event>)
    requires forall e | e in more :: !e.EosSent?
    ensures EosCount(log + more) == EosCount(log)
    decreases |more|
  {
    if more == [] {
      assert log + more == log;
    } else {
      var n := |more| - 1;
      assert log + more == (log + more[..n]) + [more[n]];
      assert more[n] in more;
      EosCountAppend(log + more[..n], more[n]);
      EosCountNone(log, more[..n]);
    }
  }

  predicate Finishes(p: Player, a: Action) {
    Enabled(p, a) && Pushing(p, a) && Apply(p, a).isEos && Apply(p, a).queue == []
  }

  lemma PushSendsEos(p: Player, answers: seq<Answer>)
    requires PushReturns(p, answers)
    ensures var q := PushSamples(p, answers);
      && q.isEos == p.isEos && q.isOpen == p.isOpen
      && EosCount(q.log) == EosCount(p.log) + if Pushes(p) && p.isEos && q.queue == [] then 1 else 0
  {
    if Pushes(p) {
      var done := Loop(PushOf(p), p.frameSize, answers);
      LoopSendsNoEos(PushOf(p), p.frameSize, answers);
      EosCountNone(p.log, done.log);
      EosCountAppend(p.log + done.log, EosSent(|p.received|));
    }
  }

  /** setEos is called by exactly those handlers that end with end-of-stream pending and nothing
      left of the audio they found, and once by each. */
  lemma EosSentExactly(p: Player, a: Action)
    requires Enabled(p, a)
    ensures EosCount(Apply(p, a).log) == EosCount(p.log) + if Finishes(p, a) then 1 else 0
  {
    match a
    case NewSample(buffer, answers) => PushSendsEos(Queued(p, buffer), answers);
    case SetEos(answers) =>
      EosCountAppend(p.log, EosSent(|p.received|));
      if p.isOpen && !p.isEos {
        PushSendsEos(EosRequested(p), answers);
      }
    case TimerExpires(answers) => PushSendsEos(p.(timer := Expired), answers);
    case _ =>
  }

  /** And `eosSent` says that one has done so since the pending request. */
  lemma EosSentSince(acts: seq<Action>, p: Player)
    requires Execution(Init(), acts, p)
    ensures p.eosSent <==>
      Since(Init(), acts, Finishes, (s: Player, a: Action) => a.SetEos? && s.isOpen && !s.isEos)
  {
    SinceExact(Init(), acts, p, (s: Player) => s.eosSent, Finishes,
               (s: Player, a: Action) => a.SetEos? && s.isOpen && !s.isEos);
  }
}
