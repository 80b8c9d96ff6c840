# Rialto GStreamer sinks: a verified model

The sinks of this plugin feed a remote media server. What can go wrong in them is not the
GStreamer plumbing but the small concurrent protocols below it, and one byte-stream loop. This
project models those and proves what they promise. The server, the parser and the scheduler
are adversaries: their answers and the interleaving are arbitrary.

| file | what it models |
|---|---|
| `MessageQueue.dfy`, `MessageQueueProtocol.dfy` | the event loop's queue: its operations, and any number of posters, one worker and one stopper around it |
| `MediaPlayerClient.dfy` | the MSE client: the backend's event loop, one puller loop per source, and the messages between them |
| `RequestTokens.dfy`, `RequestReplies.dfy`, `SeekBarrier.dfy`, `SeekOrder.dfy` | theorems about every run of that system: its requests and their answers, one round of a seek, any number of seeks |
| `BaseSink.dfy`, `SinkProtocol.dfy`, `SinkHistory.dfy`, `FlushOverlap.dfy` | the sink's sample queue and pull loop, the threads that use it, what its flags say of a run, and when ending a flush is safe |
| `SeekHandshake.dfy` | how the controlling sink waits for its seek |
| `WebAudioPush.dfy`, `WebAudioSpin.dfy`, `WebAudioPlayer.dfy`, `WebAudioLog.dfy`, `WebAudioState.dfy` | `pushSamples`, when it returns, the web-audio client around it, what becomes of its audio, and what its fields say of a run |
| `WebAudioTimer.dfy` | the retry timer's thread and the event loop that joins it |
| `MediaPlayerManager.dfy`, `RegistryControl.dfy` | the registry of shared clients, and who controls them |
| `SubSampleReader.dfy`, `VideoRectangle.dfy` | the two codecs |

An object that updates its fields is a class whose methods are proved equal, on a value that
`View()` takes of it, to functions; a system of threads is a state with an `Action` for each
atomic step, built from the same functions. `Execution(s, acts, t)` says that the steps `acts`
lead from `s` to `t`, so a lemma about it speaks of every run and every interleaving.

## Where the code does not keep its promise

* FLUSH_STOP and entering PAUSED clear the flush flag without looking at the pull loop. A later pop
  can drop a sample that was never fetched exactly if such a step ends a flush while a pull loop
  holds a sample (`FlushOverlap.FlushEndExact`). Alternating FLUSH_START and FLUSH_STOP events do not
  prevent it (`FlushOverlap.AlternatingEventsDrop`), nor does a run without any
  (`FlushOverlap.LateAttachDrops`). It is enough that no FLUSH_START is handled while a FLUSH_STOP is
  past joining the puller, and that no source is attached between `removeSource` and the next entry
  into PAUSED (`FlushOverlap.ApartEventsIsolate`). A flushing seek event sent to the element counts
  as a FLUSH_START.
* `pushSamples` counts what is left of a buffer by the frames available, not the frames written.
  For a buffer of at least one frame the bytes are conserved exactly when it is a whole number
  of frames or has at least as many as are available (`WebAudioPush.ConservesExactly`). When more
  frames go on being available than a buffer holds, the loop writes them over and over unless
  every buffer is whole frames, so whole frames are exactly what makes it return against every
  server (`WebAudioSpin.AlwaysEndsExactly`).
* A retry by the timer that leaves audio queued never returns: `pushSamples` replaces the very
  timer whose thread waits for it, and joins that thread (`WebAudioTimer.RetryExactly`). Cancelling,
  resetting or replacing a timer just after it has expired does the same, and nothing else does
  (`WebAudioTimer.TimerDeadlockExactly`).
* A server failure during a seek leaves a source stopped exactly when it had started seeking or
  does so afterwards (`SeekBarrier.FailureStrands`), until the next complete round of a seek, which
  does recover it (`SeekBarrier.SeekCompletes`).
* `removeSource` can leave the barrier shut (`SeekBarrier.RemoveSticks`). It stays shut for every
  waiting source (`SeekBarrier.StuckStays`) until a source starts seeking
  (`SeekBarrier.NextStartReopens`), a new seek is flushed (`SeekBarrier.NewSeekReopens`), or the
  server fails, which strands the sources as above.
* A seek begun while the server is still SEEKING, or the event loop about to notify, can deadlock,
  whatever is queued, and only such a seek (`SeekHandshake.DeadlockExactly`). One is reached when
  the sink seeks before its source is attached and again after (`SeekHandshake.SeekBeforeAttachDeadlocks`).
* `chain` waits for space in an `if`, not a loop: each spurious wakeup can add one to the 24 samples
  (`SinkProtocol.BackPressureTight`), and no more (`SinkProtocol.BackPressure`).
* `open` does not push what was queued while the player was closed, and that is the only way in
  which audio is left without a timer (`WebAudioPlayers.NothingForgotten`).

## Hypotheses

* Queue: one stopper, which is not the worker; `start` and `stop` of one queue do not overlap;
  reading `m_running` is atomic; `clear` is used through `stop` only; handlers return.
* Client: the rounds of the seek barrier contain no FAILURE, attach or removal; one may have gone
  before. A source left waiting, by a FAILURE or a stuck barrier, starts seeking again, if at
  all, before the next round is complete. A puller that is stopped finishes the pulls queued before its stop message, which is
  `MessageQueueProtocol.SolePosterDrained`: only the backend's event loop posts to it.
* Sink: caps, buffers, EOS and FLUSH_STOP come one after the other on the streaming thread; the
  element enters PAUSED when that thread is idle; the server accepts a source of a sink only while
  the sink has none attached; streaming has not been stopped.
* Seek handshake: an attached source stays attached; no spurious wakeup of the seek's condition.
* Web audio: `m_frameSize > 0`, and handlers run one after the other; what a handler computes is
  apart from whether the event loop comes back from joining the timer, which is `WebAudioTimer`.
  `gst_buffer_resize` is taken to refuse a range outside the buffer's current size; GStreamer
  compares with the size of the buffer's memory, so that a sub-buffer of a larger memory could
  also grow by bytes that were never received.
* Registry: fewer than 2^32 managers.

## Model

| member | source | states |
|---|---|---|
| MessageQueues.MessageQueue.PostMessage | source/MessageQueue.cpp:95-107 | a message is accepted exactly when the queue runs, and then goes to the end; otherwise nothing changes |
| MessageQueues.MessageQueue.DoClear | source/MessageQueue.cpp:152-160 | everything queued is skipped, in order, and every waiter released |
| MessageQueues.MessageQueue.ProcessMessages | source/MessageQueue.cpp:109-116 | the worker handles exactly the messages up to and including the first stop |
| MessageQueues.MessageQueue.CallInEventLoop | source/MessageQueue.cpp:118-135 | on the worker the function runs in place and nothing is enqueued; elsewhere the call is posted or refused |
| MessageQueues.MessageQueue.DoStop | source/MessageQueue.cpp:137-150 | with no other poster, all queued messages are handled and none skipped |
| MessageQueueProtocol.StopAccounting | source/MessageQueue.cpp:83-116 | when stop returns, the queue is empty, the accepted messages are those handled, a prefix ending with the only stop message, followed by those skipped, and none occurs twice |
| MessageQueueProtocol.NoStrandedCallers | source/MessageQueue.cpp:23-42 | when stop has returned, every accepted call has been released, and was handled once or skipped once, never both |
| MessageQueueProtocol.SolePosterDrained | source/MessageQueue.cpp:137-160 | if nothing is accepted behind the stop message, nothing is skipped |
| MessageQueueProtocol.StopProgress | source/MessageQueue.cpp:83-150 | a posted stop always has an enabled next step; posting never sets it back and every worker or stopper step brings it nearer |
| MessageQueueProtocol.StopReturns | source/MessageQueue.cpp:137-150 | a posted stop returns within a number of worker and stopper steps that is fixed when it is posted |
| MediaPlayerClients.PullersFollowSeeking | source/GStreamerMSEMediaPlayerClient.cpp:187-214 | in every state before stopStreaming a source is IDLE or SEEKING, and its puller runs exactly when it is IDLE, except for the one source whose puller is just being joined |
| MediaPlayerClients.PullAcceptance | source/GStreamerMSEMediaPlayerClient.cpp:541-560 | a pull is accepted exactly when source and server are IDLE; a refused one yields one ERROR HaveData and nothing else |
| MediaPlayerClients.MediaPlayerClient.StartPulling | source/GStreamerMSEMediaPlayerClient.cpp:288-313 | the barrier's loops restart all sources at once, exactly when the server is done and all are SEEKING |
| MediaPlayerClients.MediaPlayerClient.NotifySourceStartedSeeking | source/GStreamerMSEMediaPlayerClient.cpp:187-203 | an unknown source changes nothing; a known one is SEEKING, its pulls finished, its puller stopped, and the barrier evaluated |
| MediaPlayerClients.MediaPlayerClient.RemoveSource | source/GStreamerMSEMediaPlayerClient.cpp:275-286 | the source goes, after its puller has finished its pulls; the barrier is not looked at |
| MediaPlayerClients.StartedSeekingExecutes | source/GStreamerMSEMediaPlayerClient.cpp:187-203 | what the object's handler does in one go is a run of the system that the theorems speak of |
| MediaPlayerClients.RemoveExecutes | source/GStreamerMSEMediaPlayerClient.cpp:275-286 | so is the removal of a source |
| MediaPlayerClients.MediaPlayerClient.HandlePlaybackStateChange | source/GStreamerMSEMediaPlayerClient.cpp:315-379 | FLUSHED completes a seek only while the server is SEEKING; FAILURE resets the server's state only |
| MediaPlayerClients.MediaPlayerClient.AttachSource | source/GStreamerMSEMediaPlayerClient.cpp:221-273 | a source the server accepts is added, IDLE with a running puller, unless its id is known |
| MediaPlayerClients.MediaPlayerClient.HandleHaveDataMessage | source/GStreamerMSEMediaPlayerClient.cpp:641-650 | haveData is called exactly when the source is attached |
| RequestTokens.RequestsConserved | source/GStreamerMSEMediaPlayerClient.cpp:541-560 | in every reachable state each NeedData request is in exactly one of: backend queue, puller, answered, discarded; so it is answered at most once |
| RequestTokens.EveryRequestAnswered | source/GStreamerMSEMediaPlayerClient.cpp:660-745 | when the queues have drained, each request of a source that stayed attached has been answered exactly once, seeks included |
| RequestTokens.QueuesDrain | source/GStreamerMSEMediaPlayerClient.cpp:641-745 | once nothing more is posted, the number of steps left is bounded by what is queued, and when no step is left every queue is empty, so every such request is answered in the end |
| RequestTokens.StopLeavesNothing | source/GStreamerMSEMediaPlayerClient.cpp:54-67 | after stopStreaming every request has been answered or discarded, and none is left in a queue |
| RequestReplies.RepliesInOrder | source/GStreamerMSEMediaPlayerClient.cpp:641-728 | in every run the server is told, in order, the status that each finished pull came to and ERROR for each refused request; what it has not been told is queued until the backend stops; it is told exactly of those whose source is attached when their turn comes |
| RequestReplies.PullsInOrder | source/GStreamerMSEMediaPlayerClient.cpp:541-560 | in every run a source's pulls are finished in the order in which its requests were accepted, through seeks, failures and its removal, and none is forgotten |
| SeekBarrier.SeekBarrier | source/GStreamerMSEMediaPlayerClient.cpp:187-214 | from any reachable state in which the server is IDLE the barrier's state depends on the set of events so far only, not on their order: a source that waits or has started seeking stays stopped until the last event of the round, every other one keeps running |
| SeekBarrier.SeekCompletes | source/GStreamerMSEMediaPlayerClient.cpp:288-357 | after one seek, one later FLUSHED and one start per source that was not waiting, in any interleaving, everything is IDLE and running, sources stranded by an earlier failure included |
| SeekBarrier.FailureStrands | source/GStreamerMSEMediaPlayerClient.cpp:358-372 | in every run after FAILURE without a new seek a source that is not removed waits, stopped, if and only if it had started seeking before or does so afterwards |
| SeekBarrier.FailureStrandsAll | source/GStreamerMSEMediaPlayerClient.cpp:358-372 | a failure in the middle of a seek is reached after which every other event of the round comes and every source stays stopped |
| SeekBarrier.RemoveSticks | source/GStreamerMSEMediaPlayerClient.cpp:275-286 | in every run after a removal in which nothing but FLUSHED comes, the barrier is stuck if and only if the removed source was the last one waited for |
| SeekBarrier.StuckStays | source/GStreamerMSEMediaPlayerClient.cpp:288-313 | a stuck barrier stays shut for a waiting source in every run without a start, a seek, a failure or its own removal, whatever else is attached, removed or flushed |
| SeekBarrier.NextStartReopens | source/GStreamerMSEMediaPlayerClient.cpp:187-203 | the next source to start seeking opens it for all |
| SeekBarrier.NewSeekReopens | source/GStreamerMSEMediaPlayerClient.cpp:205-214 | in every run that begins with a new seek it opens with that seek's FLUSHED, whether or not any source starts again |
| SeekBarrier.RemoveSticksReached | source/GStreamerMSEMediaPlayerClient.cpp:275-286 | and such a removal is reached |
| SeekBarrier.OnlyRemoveSticks | source/GStreamerMSEMediaPlayerClient.cpp:288-313 | no other step leaves it stuck |
| SeekOrder.ServerEventsInOrder | source/GStreamerMSEMediaPlayerClient.cpp:205-214 | every posted seek, FLUSHED and FAILURE takes effect, in the order posted, and none is taken for another |
| SeekOrder.SeekingExactly | source/GStreamerMSEMediaPlayerClient.cpp:315-379 | in every run with any number of seeks the server is SEEKING if and only if neither FLUSHED nor FAILURE has followed the last seek |
| SeekOrder.ServerExactly | source/GStreamerMSEMediaPlayerClient.cpp:288-313 | from every state, which steps make the server SEEKING and SEEK_DONE and which end that; the barrier opens only when all sources wait and the FLUSHED or the last start comes |
| SeekOrder.SourcesExactly | source/GStreamerMSEMediaPlayerClient.cpp:187-286 | from every state, and whatever the server's, a source comes by an accepted attachment, goes by its removal, begins to wait by its start, and ends waiting, running, only when the barrier opens |
| SeekOrder.StoppedSources | source/GStreamerMSEMediaPlayerClient.cpp:54-67 | after stopStreaming nothing changes any more but that each puller ends, once it has finished its pulls |
| SeekOrder.NoRestartBeforeFlushed | source/GStreamerMSEMediaPlayerClient.cpp:205-214 | after a seek handled in any reachable state, an unfinished earlier seek included, a waiting source stays stopped in every run until a FLUSHED comes after it |
| SeekOrder.StartedStaysStopped | source/GStreamerMSEMediaPlayerClient.cpp:187-203 | so does a source that starts seeking later |
| BaseSinks.BaseSink.ClearBuffers | source/RialtoGStreamerMSEBaseSinkPrivate.h:47-57 | the flush flag is set and the queue empty |
| BaseSinks.BaseSink.FlushStart | source/RialtoGStreamerMSEBaseSink.cpp:303-313 | the queue and EOS are cleared, but only by the first FLUSH_START |
| BaseSinks.BaseSink.PullBuffer | source/GStreamerMSEMediaPlayerClient.cpp:660-728 | one request takes a prefix of the queued and arriving samples, gives the server exactly the good ones in order, keeps a sample refused for space, and reports EOS exactly on an empty queue with EOS set |
| BaseSinks.DeliveredAt | source/GStreamerMSEMediaPlayerClient.cpp:660-728 | the segments given to the server are, by their positions in the queue, exactly the popped samples that it took |
| BaseSinks.ConsecutiveRequests | source/GStreamerMSEMediaPlayerClient.cpp:660-728 | any number of requests, each finding what its predecessor left and what has arrived since, give the server what one pass over the whole stream would; a sample refused for space is tried again by the next one |
| SinkProtocol.FlushIsolation | source/RialtoGStreamerMSEBaseSink.cpp:764-789 | as long as no flush ends, by FLUSH_STOP or by entering PAUSED, while a sample is held: in every interleaving pop removes the sample last fetched, queued after the last flush, or nothing |
| SinkProtocol.StalePullsTakeNothing | source/RialtoGStreamerMSEBaseSink.cpp:764-789 | as long as no flush ends over a pull from before it, a pull whose queue was cleared since it began takes nothing any more |
| SinkProtocol.DeliveredInOrder | source/RialtoGStreamerMSEBaseSink.cpp:764-795 | under the condition of FlushIsolation, over any requests, flushes and seeks no sample is delivered twice or out of order |
| SinkProtocol.NoSampleLost | source/RialtoGStreamerMSEBaseSink.cpp:625-655 | under the same condition, every sample queued since the last flush is still queued, was delivered, or could not be mapped or parsed |
| FlushOverlap.FlushEndExact | source/RialtoGStreamerMSEBaseSink.cpp:315-326 | after any run within that condition, a later pop can drop a sample never fetched if and only if the FLUSH_STOP or the entry into PAUSED ends a flush while a pull loop holds one, which makes the condition exact |
| FlushOverlap.StalePullExact | source/RialtoGStreamerMSEBaseSink.cpp:494-501 | in the same way, a pull from before a flush can take a sample of after it if and only if one of the two ends the flush over that pull |
| FlushOverlap.ApartEventsIsolate | source/RialtoGStreamerMSEBaseSink.cpp:741-754 | isolation holds in every run in which no FLUSH_START is handled while a FLUSH_STOP is past joining the puller, and no source is attached between removeSource and the next entry into PAUSED |
| FlushOverlap.AlternatingEventsDrop | source/RialtoGStreamerMSEBaseSink.cpp:741-754 | strictly alternating flush events are not enough: a run of such events drops a sample that was never fetched |
| FlushOverlap.LateAttachDrops | source/RialtoGStreamerMSEBaseSink.cpp:538-558 | nor is a run without flush events: caps attach a source while the element leaves PAUSED, and its pull loop drops a sample after the next entry |
| SinkProtocol.BackPressure | source/RialtoGStreamerMSEBaseSink.cpp:625-655 | in every interleaving at most 24 samples are queued, and one more per spurious wakeup |
| SinkProtocol.BackPressureTight | source/RialtoGStreamerMSEBaseSink.cpp:625-655 | and for every number of spurious wakeups that many are reached |
| SinkHistory.EosExactly | source/RialtoGStreamerMSEBaseSink.cpp:303-313 | in every run EOS is set if and only if an EOS event has come since the last FLUSH_START that began a flush |
| SinkHistory.NoEosAfterFlush | source/RialtoGStreamerMSEBaseSink.cpp:791-795 | so after a flush begins no look at an empty queue is at the end of stream until the next EOS event |
| SinkHistory.FlushExactly | source/RialtoGStreamerMSEBaseSink.cpp:303-326 | a flush is under way if and only if it has been begun, by FLUSH_START or by leaving PAUSED, and not ended since |
| SinkHistory.PullerExactly | source/GStreamerMSEMediaPlayerClient.cpp:253-286 | the source has a puller's thread if and only if it was attached or restarted since it was last joined or removed |
| SinkHistory.QueuedExactly | source/RialtoGStreamerMSEBaseSink.cpp:639-652 | exactly the buffers for which a sample can be made, and which come without a flush under way, are queued |
| SinkHistory.QueueIsSuffix | source/RialtoGStreamerMSEBaseSink.cpp:649-652 | under the condition of FlushIsolation the queue holds the last of them, in order, and none of before the last clearing |
| SinkHistory.ProducerWoken | source/RialtoGStreamerMSEBaseSink.cpp:633-637 | the streaming thread waits only while the queue is full and no flush is under way, so every wakeup it needs is sent |
| SinkHistory.PullBound | source/GStreamerMSEMediaPlayerClient.cpp:660-728 | over any run one pull fetches no more samples than asked for |
| SeekHandshake.ServerExactly | source/GStreamerMSEMediaPlayerClient.cpp:205-214 | from every state, which steps make the server SEEKING and SEEK_DONE and which end that |
| SeekHandshake.NoLostWakeup | source/RialtoGStreamerMSEBaseSink.cpp:355-361 | the first FLUSHED or FAILURE handled after the seek notifies a sink that is already waiting, over any number of seeks |
| SeekHandshake.NoDeadlock | source/RialtoGStreamerMSEBaseSink.cpp:147-152 | if the server was not SEEKING, sink and event loop never wait for each other |
| SeekHandshake.DeadlockExactly | source/RialtoGStreamerMSEBaseSink.cpp:328-367 | at any moment before the sink takes the mutex, whatever is queued, a deadlock is reachable if and only if the server is SEEKING or the event loop is about to notify |
| SeekHandshake.SeekBeforeAttachDeadlocks | source/RialtoGStreamerMSEBaseSink.cpp:358-365 | from the initial state such a deadlock is reached by a seek before attaching the source, which does not wait, and one after |
| SeekHandshake.DeadlockedForever | source/RialtoGStreamerMSEBaseSink.cpp:355-361 | then in every run nothing changes any more but the messages that the server queues |
| WebAudioPush.IterateConserves | source/GStreamerWebAudioPlayerClient.cpp:306-356 | an iteration with a safe answer neither loses, repeats nor reorders a byte, carry-over included |
| WebAudioPush.ConservesExactly | source/GStreamerWebAudioPlayerClient.cpp:338-342 | without 32-bit wrap, bytes are conserved if and only if the buffer is whole frames or no more frames are available than it has |
| WebAudioPush.LoopConserves | source/GStreamerWebAudioPlayerClient.cpp:303-357 | the same over the whole loop: written, dropped and queued bytes partition the stream in order |
| WebAudioPush.IterateDecreases | source/GStreamerWebAudioPlayerClient.cpp:304-357 | an iteration that does not exit makes (bytes queued, buffers queued) smaller |
| WebAudioPush.LoopTerminates | source/GStreamerWebAudioPlayerClient.cpp:304-357 | hence the loop ends within that many iterations, whatever the server answers |
| WebAudioPush.WholeFramesSafe | source/GStreamerWebAudioPlayerClient.cpp:316-350 | with buffers of whole frames every answer is safe |
| WebAudioLog.IterateLogs | source/GStreamerWebAudioPlayerClient.cpp:304-356 | one iteration writes or drops at most one piece of audio, and none if and only if there is no space or not a whole frame |
| WebAudioLog.IterateEnds | source/GStreamerWebAudioPlayerClient.cpp:306-357 | whatever the buffers and answers, the loop goes on if and only if there is space and something queued, and a dropped buffer takes no other with it |
| WebAudioLog.EveryEventCaused | source/GStreamerWebAudioPlayerClient.cpp:306-337 | over the whole loop bytes are written only from a front buffer that was mapped and written, as many frames as available, and dropped only when the server does not answer, the whole queue, or fails to take the front buffer, that buffer |
| WebAudioLog.FullServerEnds | source/GStreamerWebAudioPlayerClient.cpp:313-357 | a server without space ends the loop and leaves queue and log as they were |
| WebAudioLog.SafeQueue | source/GStreamerWebAudioPlayerClient.cpp:338-355 | after a safe answer a buffer written entirely is gone, a remainder of a frame or more is still one buffer, and a shorter one precedes the next buffer; the loop ends if and only if nothing is queued |
| WebAudioSpin.SpinOnce | source/GStreamerWebAudioPlayerClient.cpp:338-350 | when more frames are available than a buffer of not whole frames has, its whole frames are written and the queue stays as it was |
| WebAudioSpin.AmpleEndsExactly | source/GStreamerWebAudioPlayerClient.cpp:303-357 | under answers that go on like this, the loop ends if and only if every queued buffer is whole frames |
| WebAudioSpin.AlwaysEndsExactly | source/GStreamerWebAudioPlayerClient.cpp:303-357 | pushSamples returns after boundedly many answers of every server if and only if every queued buffer is whole frames |
| WebAudioPlayers.BytesConserved | source/GStreamerWebAudioPlayerClient.cpp:271-371 | over whole runs with failures, retries, closing and re-opening, the stream received is what was written or dropped and then what is queued |
| WebAudioLog.NothingDropped | source/GStreamerWebAudioPlayerClient.cpp:271-371 | in every safe run in which the server answers and takes what it is given, what was received has been written or is queued, however full the server |
| WebAudioLog.FullServerKeepsSample | source/GStreamerWebAudioPlayerClient.cpp:271-293 | a sample that finds the server full is queued behind the others, with the timer armed |
| WebAudioPlayers.WholeFramesRunSafe | source/GStreamerWebAudioPlayerClient.cpp:271-357 | a run whose buffers are whole frames meets the condition of these theorems, whatever the server answers |
| WebAudioPlayers.WholeFramesHandlersReturn | source/GStreamerWebAudioPlayerClient.cpp:303-357 | and after each such run every handler that pushes returns, however the server answers |
| WebAudioPlayers.EosNeverOvertakes | source/GStreamerWebAudioPlayerClient.cpp:226-254 | at each setEos of a run with safe answers all bytes received before had been written or dropped |
| WebAudioPlayers.EosOnlyWhenEmpty | source/GStreamerWebAudioPlayerClient.cpp:226-254 | whatever the buffers and answers, setEos is called last in its handler, with an empty data queue and EOS requested |
| WebAudioState.EosSentExactly | source/GStreamerWebAudioPlayerClient.cpp:359-370 | from every state, a handler calls setEos once if and only if it pushes in an open player and ends with EOS pending and no audio left |
| WebAudioState.EosSentSince | source/GStreamerWebAudioPlayerClient.cpp:226-254 | in every run a pending EOS counts as sent if and only if such a handler has run since it was requested |
| WebAudioState.EosExactly | source/GStreamerWebAudioPlayerClient.cpp:226-254 | EOS is pending if and only if it has been requested, while open, since the server last reported the end of a stream, so that it can be requested again |
| WebAudioPlayers.UnservedStep | source/GStreamerWebAudioPlayerClient.cpp:129-164 | a step leaves audio in an open player without a timer if and only if it opens a closed player over queued audio, or finds it so and does not push |
| WebAudioPlayers.NothingForgotten | source/GStreamerWebAudioPlayerClient.cpp:359-370 | in every run audio queued in an open player has a timer armed, unless and only unless the player was opened over it and nothing has pushed since; a pending EOS has been sent or has audio before it |
| WebAudioPlayers.BacklogWaits | source/GStreamerWebAudioPlayerClient.cpp:129-164 | the exception is reached, for every buffer and frame size |
| WebAudioState.TimerExactly | source/GStreamerWebAudioPlayerClient.cpp:359-366 | in every run the timer is armed if and only if a push has left audio queued and since then it has not expired, no sample has come and the player was not closed |
| WebAudioState.OpenExactly | source/GStreamerWebAudioPlayerClient.cpp:129-185 | the player is open if and only if it was created since it was last closed or failed to be created |
| WebAudioState.FrameSizeExactly | source/GStreamerWebAudioPlayerClient.cpp:141-158 | the frame size is that of the last configuration a player was created with |
| WebAudioPlayers.WebAudioPlayerClient.PushSamplesNow | source/GStreamerWebAudioPlayerClient.cpp:295-371 | the loop over the real queue does what the theorems speak of, as far as the answers last; when it ends, it has armed the timer or sent a pending EOS |
| WebAudioPlayers.WebAudioPlayerClient.KeepLeftover | source/GStreamerWebAudioPlayerClient.cpp:338-355 | the buffer in front is popped, trimmed, or joined with the next |
| WebAudioTimer.TimerDeadlockExactly | source/Timer.cpp:88-97 | in every run the event loop and a timer's thread wait for each other if and only if some step cancelled, reset or replaced a timer that was past its last look at m_active |
| WebAudioTimer.DeadlockedForever | source/Timer.cpp:88-97 | then the event loop handles nothing any more, in any run |
| WebAudioTimer.RetryExactly | source/GStreamerWebAudioPlayerClient.cpp:266-269 | the pushSamples of a timer's expiry comes back if and only if it leaves no audio queued |
| WebAudioTimer.TimerProgress | source/Timer.cpp:58-75 | otherwise the event loop is idle, or it or the thread it joins can go on, and a handler returns within five of their steps, or deadlocks |
| WebAudioTimer.EachCallPushesOnce | source/GStreamerWebAudioPlayerClient.cpp:266-293 | in every run each sample, EOS request and expiry handled goes through pushSamples once, if only to find nothing to push, and a close never |
| WebAudioTimer.TimerDeadlocks | source/GStreamerWebAudioPlayerClient.cpp:271-293 | both ways into the deadlock are reached: a retry that leaves audio, and a sample that comes as the timer expires |
| WebAudioTimer.ThreadsReturn | source/GStreamerWebAudioPlayerClient.cpp:266-269 | in every run, when the event loop has nothing to do no timer's thread waits for it |
| MediaPlayerManagers.RegistryInvariant | source/MediaPlayerManager.cpp:94-176 | in every run an entry exists iff a manager is attached, its count is their number, its controller one of them or nobody, and no attached manager dangles |
| MediaPlayerManagers.AttachOutcome | source/MediaPlayerManager.cpp:33-56 | attaching succeeds iff the backend can be created or the parent has a client; then the manager is attached there, otherwise nowhere |
| MediaPlayerManagers.ControlExclusive | source/MediaPlayerManager.cpp:63-92 | the controller is told yes, every other manager of the parent no, and asking changes nothing |
| RegistryControl.AskExactly | source/MediaPlayerManager.cpp:63-92 | from every state, a manager is told yes if and only if it is attached and controls afterwards, which it does if it did or nobody did; only then anything changes |
| RegistryControl.CreatorControls | source/MediaPlayerManager.cpp:136-176 | attaching to a parent without a client makes a new client, controlled by its creator |
| RegistryControl.JoinKeepsController | source/MediaPlayerManager.cpp:33-56 | attaching to a parent with a client leaves client and controller as they were; to one's own parent it changes nothing |
| RegistryControl.AttachOther | source/MediaPlayerManager.cpp:33-56 | the entries of all parents but the one left and the one joined are untouched |
| RegistryControl.CreatorKeepsControl | source/MediaPlayerManager.cpp:63-92 | in every run from its creation of the entry until its release the creator is told yes and everybody else of the parent no |
| MediaPlayerManagers.ControlStable | source/MediaPlayerManager.cpp:94-134 | control lasts until its holder releases it, whatever the others do |
| MediaPlayerManagers.FirstToAskObtains | source/MediaPlayerManager.cpp:110-134 | after its release the first remaining manager to ask obtains it, however much later |
| RegistryControl.ReleaseOutcome | source/MediaPlayerManager.cpp:94-123 | a released manager is attached to nothing, all others as before; its control is free and only its; the client is destroyed with its last manager unless held elsewhere |
| RegistryControl.ClientObjects | source/MediaPlayerManager.cpp:94-176 | in every run different parents have different clients, and, if nobody else holds them, exactly the clients of parents with a manager exist |
| MediaPlayerManagers.MediaPlayerManager.ReleaseMediaPlayerClient | source/MediaPlayerManager.cpp:94-123 | the object's release is the one of the theorems |
| MediaPlayerManagers.MediaPlayerManager.CreateMediaPlayerClient | source/MediaPlayerManager.cpp:136-176 | so is its creation, which takes control only of a new entry |
| MediaPlayerManagers.MediaPlayerManager.HasControlOfClient | source/MediaPlayerManager.cpp:63-92 | so is its question for control |
| SubSampleReader.ReadEncoded | source/GStreamerEMEUtils.cpp:76-118 | reading what was encoded gives the list back, even with an incomplete record behind it |
| SubSampleReader.EncodeRead | source/GStreamerEMEUtils.cpp:101-113 | encoding what was read gives the buffer's first 6 * count bytes back |
| SubSampleReader.PairsOfEncoded | source/GStreamerEMEUtils.cpp:101-113 | the pairs kept for an encoded list are the list's own counts, record by record |
| SubSampleReader.AcceptsExactly | source/GStreamerEMEUtils.cpp:76-99 | a list is accepted if and only if it has as many whole records as counted, and less than one more |
| SubSampleReader.BufferProtectionMetadata.GetSubSamples | source/GStreamerEMEUtils.cpp:76-118 | the loop reads exactly the records of an accepted buffer, in bounds, and nothing on a count mismatch |
| VideoRectangles.PrintScan | source/GStreamerMSEMediaPlayerClient.cpp:391-419 | scanning the printed text of any 32-bit rectangle gives it back |
| VideoRectangles.ScanExactly | source/GStreamerMSEMediaPlayerClient.cpp:391-402 | exactly the texts of four numbers separated by commas are scanned, with scanf's spaces, signs and 32-bit values; all others are refused |
| VideoRectangles.PrintFits | source/GStreamerMSEMediaPlayerClient.cpp:411-419 | text and terminator fit the 64-byte buffer |
| VideoRectangles.RectangleClient.SetVideoRectangle | source/GStreamerMSEMediaPlayerClient.cpp:380-406 | the rectangle changes, and the server is told, exactly for a created backend and a text with four numbers |

## Left out

- GObject and GStreamer boilerplate, properties, pads, caps, codec data, plugin registration: plumbing.
- The wrappers of the server's interfaces: their answers are arguments of the actions.
- Volume, mute, QoS, underflow, position and duration, state commits and `areAllStreamsAttached`: simple assignments and callbacks.
- Lifetimes of GstBuffer and GstSample, which are values here.
- In `WebAudioPlayer.dfy` the timer is a flag and an expiry event; an expiry posted before a cancel is in `WebAudioTimer.dfy`, which has the threads but neither the bytes nor the client's destruction.
- MessageQueues.MessageQueue.CallInEventLoop: the caller's wait is not in its contract; it is the set of released calls in MessageQueueProtocol.
- MessageQueues.MessageQueue.DoStop: speaks of a stop with no concurrent poster; MessageQueueProtocol.StopAccounting covers the others.
- MessageQueueProtocol.StopReturns: says nothing about stops by the worker, concurrent stops or a start during a stop, which the code does not support.
- BaseSinks.BaseSink.PullBuffer: has no flush inside one request, which SinkProtocol covers, no EOS event during it and no arrival between the look at an empty queue and `is_eos`; the 32-bit loop counter is unbounded.
- MediaPlayerClients.MediaPlayerClient.NotifySourceStartedSeeking: lets only the joined puller run meanwhile; the interleaving with the others is in the actions.
- MediaPlayerClients.MediaPlayerClient.HandlePlaybackStateChange: leaves out the notifications to the sinks, of which SeekHandshake has the one that ends a seek, and m_position.
- WebAudioPush.ConservesExactly: leaves out answers whose byte count exceeds 32 bits, which can cut the buffer anywhere.
- WebAudioSpin.AlwaysEndsExactly: leaves out buffers of 2^32 bytes and more.
- Races of `notifyState` with the event loop: it is a step between two handlers.
