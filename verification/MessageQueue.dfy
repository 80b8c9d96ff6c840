/** The event loop's queue (source/MessageQueue.cpp): what it stores, and its operations. */
module MessageQueues {

  /** `Plain` is any posted message, `Call` the message of callInEventLoop, and
      `Stop` the call whose function clears m_running. */
  datatype Kind = Plain | Call | Stop

  datatype Message = Message(id: nat, kind: Kind)

  /** The queue with the history of the current session, a session being the time from one
      start to the next. `done` holds the ids whose m_done flag is set. */
  datatype Log = Log(
    running: bool,
    queue: seq<Message>,
    accepted: seq<Message>,
    handled: seq<Message>,
    skipped: seq<Message>,
    done: set<nat>)
  {
    function Accept(m: Message): Log {
      this.(queue := queue + [m], accepted := accepted + [m])
    }

    function TakeFront(): Log
      requires queue != []
    {
      this.(queue := queue[1..])
    }

    function Run(m: Message): Log {
      this.(handled := handled + [m], running := running && !m.kind.Stop?)
    }

    function Release(m: Message): Log {
      this.(done := done + {m.id})
    }

    function SkipAll(): Log {
      this.(queue := [], skipped := skipped + queue, done := done + Ids(queue))
    }

    function Restarted(): Log {
      Log(true, queue, queue, [], [], done)
    }

    /** What handling the first `n` queued messages one after the other leaves. */
    ghost function HandleFirst(n: nat): Log
      requires n <= |queue|
    {
      Log(running && n <= FirstStop(queue),
          queue[n..], accepted, handled + queue[..n], skipped, done + Ids(queue[..n]))
    }
  }

  function Ids(s: seq<Message>): set<nat> {
    set m | m in s :: m.id
  }

  /** The index of the first stop message, or the length when there is none. */
  function FirstStop(s: seq<Message>): (k: nat)
    ensures k <= |s|
    ensures k < |s| ==> s[k].kind.Stop?
    ensures forall i | 0 <= i < k :: !s[i].kind.Stop?
  {
    if s == [] || s[0].kind.Stop? then 0 else 1 + FirstStop(s[1..])
  }

  lemma {:induction false} FirstStopAppend(s: seq<Message>, m: Message)
    ensures FirstStop(s + [m]) == if FirstStop(s) == |s| && !m.kind.Stop? then |s| + 1 else FirstStop(s)
  {
    if s == [] {
      assert s + [m] == [m];
    } else if !s[0].kind.Stop? {
      assert (s + [m])[1..] == s[1..] + [m];
      FirstStopAppend(s[1..], m);
    }
  }

  /** Handling one more message extends HandleFirst by that message. */
  lemma HandleNext(log: Log, k: nat)
    requires k < |log.queue| && k <= FirstStop(log.queue)
    ensures var m := log.queue[k];
            log.HandleFirst(k).TakeFront().Run(m).Release(m) == log.HandleFirst(k + 1)
  {
    assert log.queue[..k + 1] == log.queue[..k] + [log.queue[k]];
  }

  class MessageQueue {
    var queue: seq<Message>
    var running: bool
    ghost var accepted: seq<Message>
    ghost var handled: seq<Message>
    ghost var skipped: seq<Message>
    ghost var done: set<nat>

    ghost function View(): Log
      reads this
    {
      Log(running, queue, accepted, handled, skipped, done)
    }

    constructor ()
      ensures View() == Log(false, [], [], [], [], {})
    {
      queue, running := [], false;
      accepted, handled, skipped, done := [], [], [], {};
    }

    /** start(), whose worker thread is ProcessMessages. */
    method Start()
      modifies this
      ensures View() == if old(running) then old(View()) else old(View()).Restarted()
    {
      if running {
        return;
      }
      running := true;
      accepted, handled, skipped := queue, [], [];
    }

    method PostMessage(m: Message) returns (ok: bool)
      modifies this
      ensures ok == old(running)
      ensures View() == if ok then old(View()).Accept(m) else old(View())
    {
      if !running {
        return false;
      }
      queue := queue + [m];
      accepted := accepted + [m];
      return true;
    }

    /** The critical section of waitForMessage, once the queue is not empty. */
    method WaitForMessage() returns (m: Message)
      requires queue != []
      modifies this
      ensures m == old(queue)[0] && View() == old(View()).TakeFront()
    {
      m := queue[0];
      queue := queue[1..];
    }

    /** handle(): the function runs, then its waiter is released. */
    method Handle(m: Message)
      modifies this
      ensures View() == old(View()).Run(m).Release(m)
    {
      if m.kind.Stop? {
        running := false;
      }
      handled := handled + [m];
      done := done + {m.id};
    }

    /** doClear(): every queued message is skipped, which releases its waiter. */
    method DoClear()
      modifies this
      ensures View() == old(View()).SkipAll()
    {
      ghost var k := 0;
      while queue != []
        invariant k <= |old(queue)| && queue == old(queue)[k..]
        invariant skipped == old(skipped) + old(queue)[..k]
        invariant done == old(done) + Ids(old(queue)[..k])
        invariant running == old(running) && accepted == old(accepted) && handled == old(handled)
        decreases |queue|
      {
        assert old(queue)[..k + 1] == old(queue)[..k] + [queue[0]];
        skipped := skipped + [queue[0]];
        done := done + {queue[0].id};
        queue := queue[1..];
        k := k + 1;
      }
      assert old(queue)[..k] == old(queue);
    }

    /** The worker's loop, when nobody posts meanwhile: it handles the messages up to and
        including the first stop, and leaves the rest. */
    method ProcessMessages()
      requires running && FirstStop(queue) < |queue|
      modifies this
      ensures View() == old(View()).HandleFirst(FirstStop(old(queue)) + 1) && !running
    {
      ghost var start := View();
      ghost var stop := FirstStop(start.queue);
      ghost var k := 0;
      assert start.HandleFirst(0) == start;
      while true
        invariant k <= stop && running
        invariant View() == start.HandleFirst(k)
        decreases stop - k
      {
        assert queue == start.queue[k..];
        var m := WaitForMessage();
        assert m == start.queue[k];
        HandleNext(start, k);
        Handle(m);
        k := k + 1;
        if !running {
          break;
        }
      }
    }

    /** callInEventLoop. From another thread the message is posted (its `wait` ends once the
        worker has handled or skipped it); on the worker the function runs in place. */
    method CallInEventLoop(m: Message, onWorker: bool) returns (ok: bool)
      requires !m.kind.Stop?
      modifies this
      ensures ok == (onWorker || old(running))
      ensures View() == if onWorker then old(View()).Run(m)
                        else if ok then old(View()).Accept(m) else old(View())
    {
      if onWorker {
        handled := handled + [m];
        return true;
      }
      ok := PostMessage(m);
    }

    /** doStop() with no other poster: the messages accepted before the stop are handled
        in order, nothing is left and nothing is skipped. */
    method DoStop(id: nat)
      requires running ==> FirstStop(queue) == |queue|
      modifies this
      ensures !old(running) ==> View() == old(View())
      ensures old(running) ==>
        var all := old(queue) + [Message(id, Stop)];
        View() == Log(false, [], old(accepted) + [Message(id, Stop)], old(handled) + all,
                      old(skipped), old(done) + Ids(all))
    {
      if !running {
        return;
      }
      ghost var all := queue + [Message(id, Stop)];
      var ok := PostMessage(Message(id, Stop));
      FirstStopAppend(old(queue), Message(id, Stop));
      assert all[..|all|] == all;
      ProcessMessages();
      DoClear();
    }
  }
}
