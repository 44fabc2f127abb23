# msspeech-gbridge: a verified model

msspeech-gbridge answers Google Speech calls by streaming their audio to Microsoft's speech service
over WebSocket connections that it pools and reuses. This project models that path and proves what
it promises: a call's audio reaches the service whole, in order and on a connection opened with the
call's own parameters; its results come back to it and to nobody else; connections are never shared;
callers that wait for one are woken. Where the code falls short of its promise, the project says
exactly when.

| file | what it models |
|---|---|
| `Bytes.dfy`, `Wrappers.dfy` | bytes and chunks of them; the optional value |
| `QueueSpec.dfy`, `AudioQueue.dfy` | the audio queue as a byte sequence, and the chunked queue on the heap that refines it |
| `QueueMachine.dfy` | the queue shared by producers, readers and one `blockingGet`, with its mutex and condition variable |
| `SessionSpec.dfy`, `MSSpeechSession.dfy` | one checkout: stream start, audio, end, completion, audio callback |
| `Handshake.dfy` | the pause and resume handshake: `sendAudio` as put, look, clear and resume, the callback as get, flag write and return |
| `RecoConfig.dfy` | from the client's configuration to the URL that keys the pool |
| `Handlers.dfy` | the streaming and the sync handler as folds of the service's messages |
| `PoolSpec.dfy`, `PoolInvariant.dfy`, `PoolHistory.dfy`, `PoolProgress.dfy` | the connection pool as a step machine, its invariant, the life of one connection and the counting argument |
| `SessionFactory.dfy` | the pool on the heap, each critical section proved to be a step of that machine |
| `SpeechService.dfy` | the request flow before and after a session is obtained |
| `Bridge.dfy`, `BridgeInvariant.dfy`, `BridgeTheorems.dfy` | everything together: any number of calls, the pool, the sessions and the service |
| `BridgeHistory.dfy`, `BridgeProgress.dfy` | the bridge told by the steps of its runs, and runs that serve a call to its end |

Step machines have a predicate `Enabled`, a function `After` and runs that are sequences of steps, so
a theorem about `Run` is about every interleaving. Classes have a function `View` that gives their
value; their methods say what the new value is twice, by the step of the machine that they perform and
by their fields, so that neither can change without the other.

## Assumptions

- Code that runs under a lock is one step. `getSession` is cut where it waits, `blockingGet` where it
  tests and waits, `markEnd` and `terminate` (which take no lock) between flag and `notify_all`.
  Condition variables may wake spuriously.
- A failed assertion or the use of a null session ends the process (the build type is Debug). In the
  audio queue and the pool assertions are preconditions of the method. In the bridge the assertions
  of `putSession` and of the message callbacks are crashes; those of `client_ready` and
  `connection_closed` (`src/msspeechsessionfactory.cpp:231` and `:249`) say when the library may call
  them, and are conditions of the steps `Ready` and `Close`.
- A resume sent before the audio callback has returned its -EAGAIN is not remembered by the library.
  `sendAudio` is called by one thread at a time for each session. That a paused stream makes no
  callback is assumed only where a lemma says so (`Handshake.TooEarlyAfterFlag`).
- The speech library calls `client_ready` at most once for each connection
  (`PoolInvariant.SecondReadyExactly` says why), sends messages only between the start of a stream and
  its one turn end, and makes no callback on a closed connection. The audio callback may be called at
  any time on a connection that carries a stream, late calls included, with a positive buffer length.
- Request ids are unique. Lengths are not negative, and integers do not overflow.
- `connection_closed` does its three erases after releasing the lock; here it is one step.
- `processPendingSessions` takes a snapshot and then walks the live set while erasing from it; here
  each pending session connects, or fails and stays pending, in a step of its own. The code locks
  the mutex again at `src/msspeechsessionfactory.cpp:153` without unlocking it, so a second session
  that connects in the same pass throws there; that throw is not part of the model.

## Where the code and its documentation differ

The model follows the code.

- The header says `get` returns -1 on a terminated queue (`src/audioqueue.h:59-60`); `get` does not
  look at `terminating`, and returns -1 exactly when the queue is ended and drained.
- The header describes `maxSessions` as a cap (`src/msspeechsessionfactory.h:56-58`); it is stored and
  never used, so nothing about a cap is stated.

## What does not hold, and exactly when

- A `notify_all` of `markEnd` or `terminate` that falls between the consumer's test and its wait is
  lost, and strands the consumer exactly when it is the last one outstanding:
  `QueueMachine.StrandedExactly` for every run, `QueueMachine.MissStrands` for the harm,
  `QueueMachine.LostEnd` for an example.
- An early return of `blockingGet` leaves the queue busy for ever: `QueueMachine.BusyExactly`,
  `QueueMachine.BusyForever`, `QueueMachine.BusyHappens`.
- Bytes can sit behind a paused stream when `sendAudio` looks at `pendingAudio` between the callback's
  `get` and its write of the flag, and also when it sends its resume before the callback has returned;
  in the second case later sends do not resume either. The handshake is safe after every prefix of a
  run exactly when no step comes too early in this sense: `Handshake.StuckExactly`,
  `Handshake.TooEarlyBeforeFlag`, `Handshake.TooEarlyAfterFlag`, `Handshake.SplitCallbackGetsStuck`.
- `endAudio` does not resume a paused stream, and an ended stream is paused exactly when it was, or
  when a callback that had already found nothing returns: `Handshake.EndedNeverResumes`,
  `Handshake.EndedWhilePaused`.
- A turn end that arrives before `recognizeStream` has taken `completionLock` is lost, and the call
  never completes: `BridgeTheorems.EarlyExactly`, `BridgeTheorems.EarlyPossible`,
  `BridgeTheorems.EarlyTurnEndStrands`.
- Returning a session whose connection has closed fails an assertion: `BridgeTheorems.CrashExactly`,
  `BridgeTheorems.CrashPossible`.
- A second `client_ready` on a connection that is checked out lets `getSession` hand it to a second
  caller: `PoolInvariant.SecondReadyExactly`, `PoolInvariant.SecondReadyShares`.
- A caller whose URI has only closed connections waits until somebody else asks for that URI:
  `PoolProgress.OpenSessionCanServe`, `PoolProgress.AllClosedNeverServes`,
  `PoolProgress.AllClosedHappens`.

## Model

| member | source | states |
|---|---|---|
| AudioQueueModule.AudioQueueEntry.constructor | src/audioqueue.cpp:34-38 | a chunk copies its bytes and starts with all of them unread |
| AudioQueueModule.AudioQueue.constructor | src/audioqueue.cpp:6-14 | a new queue is empty, open and idle |
| AudioQueueModule.AudioQueue.Put | src/audioqueue.cpp:28-47 | appends exactly the given bytes; signals exactly when a waiting request can now be met |
| AudioQueueModule.AudioQueue.Get | src/audioqueue.cpp:49-64 | a positive return value counts exactly the bytes that leave the front of the queue for the buffer, fewer than asked for only when that is all; -1 says ended and empty, 0 empty and not ended, or nothing asked for; then nothing changes |
| AudioQueueModule.AudioQueue.BlockingBegin | src/audioqueue.cpp:66-77 | records the request, and waits exactly while too little is there and the queue is neither ended nor terminated |
| AudioQueueModule.AudioQueue.BlockingResume | src/audioqueue.cpp:75-98 | waits again exactly while too little is there and neither flag is up; else returns 0 and leaves the queue busy, when terminated or ended and empty, or delivers the request, or the tail of an ended queue, and is free again |
| AudioQueueModule.AudioQueue.MarkEnd | src/audioqueue.cpp:100-104 | the queue is ended and otherwise unchanged, and all waiting are notified (when: QueueMachine) |
| AudioQueueModule.AudioQueue.Terminate | src/audioqueue.cpp:106-110 | the queue is terminating and otherwise unchanged, and all waiting are notified (when: QueueMachine) |
| AudioQueueModule.AudioQueue.GetSize | src/audioqueue.cpp:112-143 | any request up to dataSize moves exactly the first bytes across chunk boundaries, never runs out of chunks, terminates, and is counted in processedBytes |
| AudioQueueModule.AudioQueue.ReadOut | src/audioqueue.cpp:114-140 | the loop, with a measure of remaining bytes and chunks that also covers empty chunks |
| AudioQueueModule.AudioQueue.TakeFront | src/audioqueue.cpp:116-139 | one turn of the loop moves the next bytes to the next place, and uses up bytes or a chunk |
| AudioQueueModule.AudioQueue.ReadFront | src/audioqueue.cpp:119-126 | a request that ends inside the front chunk leaves the rest of that chunk unread |
| AudioQueueModule.AudioQueue.PopFront | src/audioqueue.cpp:127-136 | a front chunk that is used up, empty or not, is popped |
| QueueMachine.Conservation | src/audioqueue.cpp:112-143 | over every interleaving the bytes of the run's puts are the bytes handed out, in order, followed by those still queued; processedBytes plus dataSize counts them; the flags are up exactly when the run has raised them |
| QueueMachine.ChunkingIndependence | src/audioqueue.cpp:28-64 | two runs that put the same audio and drain the queue deliver the same bytes, however they cut it |
| QueueMachine.NoLostPut | src/audioqueue.cpp:43-44 | a consumer that sleeps without a notification still lacks bytes: put never strands it |
| QueueMachine.BlockingDelivers | src/audioqueue.cpp:66-98 | blockingGet returns exactly when what is left meets the request or a flag is up, and delivers the next bytes put: exactly the request, the remaining tail if ended, nothing if terminated |
| QueueMachine.GetCountsBytes | src/audioqueue.cpp:60-62 | after any run a get hands out the next bytes put, exactly as many as a positive return value says and none on another, and fewer than asked for only when that is all |
| QueueMachine.EndOfDataExact | src/audioqueue.cpp:53-63 | get returns -1 exactly when ended and all bytes ever put have been handed out, 0 exactly when they have and the queue is not ended |
| QueueMachine.EndOfDataPermanent | src/audioqueue.cpp:32-58 | after the first -1 every later get returns -1 and no byte moves, in every run |
| QueueMachine.TimelyNeverStranded | src/audioqueue.cpp:75-110 | markEnd and terminate reach the consumer in every run in which no last outstanding notify_all falls between its test and its wait |
| QueueMachine.StrandedExactly | src/audioqueue.cpp:75-110 | in every run a raised flag stays announced to the consumer after every prefix exactly when there is no such miss |
| QueueMachine.MissStrands | src/audioqueue.cpp:75-110 | after a miss the consumer goes to sleep on a raised flag and sleeps on in every run without another notify_all or a spurious wake-up |
| QueueMachine.LostEnd | src/audioqueue.cpp:75-104 | a run from the empty queue with such a miss |
| QueueMachine.BusyExactly | src/audioqueue.cpp:79-95 | blockingGet leaves the queue busy exactly when it returns early |
| QueueMachine.BusyForever | src/audioqueue.cpp:70-86 | after that no blockingGet is ever accepted |
| QueueMachine.BusyHappens | src/audioqueue.cpp:79-86 | a run from the empty queue that ends so: the end is marked before anything is put |
| MSSpeechSessionModule.MSSpeechSession.constructor | src/msspeechsession.cpp:5-9 | a new session is unstarted, with an empty queue of its own |
| MSSpeechSessionModule.MSSpeechSession.RecognizeStream | src/msspeechsession.cpp:15-23 | starts once, for one handler, and throws the second time |
| MSSpeechSessionModule.MSSpeechSession.SendAudio | src/msspeechsession.cpp:27-37 | queues the bytes and resumes a paused stream once; throws before the start |
| MSSpeechSessionModule.MSSpeechSession.EndAudio | src/msspeechsession.cpp:39-45 | marks the end and sends no resume; throws before the start |
| MSSpeechSessionModule.MSSpeechSession.Lock | src/msspeechsession.cpp:60 | completionLock taken, by recognizeStream's last line and by waitForCompletion |
| MSSpeechSessionModule.MSSpeechSession.MsspeechTurnEnd | src/msspeechsession.cpp:100-103 | a turn end frees completionLock |
| MSSpeechSessionModule.MSSpeechSession.AudioCallback | src/msspeechsession.cpp:105-118 | a positive value counts the next unread bytes, copied to the buffer; 0 is returned exactly when the audio has ended and is all handed out, -EAGAIN, with a pause, exactly when there is none and more may come |
| Handshake.AtomicNeverStuck | src/msspeechsession.cpp:27-37 | with the callback as one step, however sendAudio is cut, a paused stream has an empty queue while no sendAudio is under way; with sendAudio's test and resume as one step too, pendingAudio says exactly whether it is paused |
| Handshake.ResumesAnswerPauses | src/msspeechsession.cpp:33-36 | in every run, however the callback and sendAudio are cut, resumes never outnumber the callbacks that found nothing |
| Handshake.StuckExactly | src/msspeechsession.cpp:32-36 | for every run: after every prefix a stream that is paused or about to be has no bytes nobody will look at, and its pause is on record, exactly when no sendAudio looks before the flag is written with bytes queued, and none resumes before the -EAGAIN is returned |
| Handshake.TimelyNeverStuck | src/msspeechsession.cpp:105-118 | such a run from the start of a stream does not end with bytes behind a pause |
| Handshake.TooEarlyBeforeFlag | src/msspeechsession.cpp:108-114 | a step that comes too early before the flag is written leaves bytes behind a pause once the callback returns; pendingAudio is set then |
| Handshake.TooEarlyAfterFlag | src/msspeechsession.cpp:113-114 | one between the flag and the return does so too, or leaves a pause that is not on record: in every run of later sends no resume follows and the bytes stay queued |
| Handshake.SplitCallbackGetsStuck | src/msspeechsession.cpp:108-114 | both kinds of run exist from the start of any stream, one without a resume and one whose resume comes too soon |
| Handshake.EndedNeverResumes | src/msspeechsession.cpp:39-45 | once the audio has ended no resume is sent in any run, and the stream ends up paused exactly when it was or when a callback that had found nothing returns |
| Handshake.EndedWhilePaused | src/msspeechsession.cpp:39-45 | any stream can end its audio while paused |
| Handshake.StepsAreMethods | src/msspeechsession.cpp:27-37 | the machine's steps are the session's methods, and the three steps of sendAudio's end or of the callback, in a row, are the one step |
| RecoConfig.MSSpeechRecoConfig.constructor | src/msspeechrecoconfig.cpp:5-10 | the defaults |
| RecoConfig.MSSpeechRecoConfig.Load | src/msspeechrecoconfig.cpp:12-38 | refuses, each with its own message, wrong encoding, more than five alternatives, speech contexts, the first that applies, changing nothing; else takes language and profanity filter and nothing else |
| RecoConfig.MSSpeechRecoConfig.LoadStreaming | src/msspeechrecoconfig.cpp:40-52 | the same, and dictation unless a single utterance is asked for, and whether interim results are |
| RecoConfig.MSSpeechRecoConfig.GetMSSpeechUrl | src/msspeechrecoconfig.cpp:54-62 | the text of the URL, by the fields of the configuration |
| RecoConfig.UrlReadsBack | src/msspeechrecoconfig.cpp:54-62 | a reader of the URL text gets back dictation or not, the language and masking, for all language strings |
| RecoConfig.ReadWritesBack | src/msspeechrecoconfig.cpp:54-62 | whatever that reader accepts is the URL of what it reads |
| RecoConfig.UrlExactly | src/msspeechrecoconfig.cpp:54-62 | two configurations share a URL exactly when they agree on language, being interactive, and masking, for all language strings |
| RecoConfig.UrlIsKey | src/msspeechrecoconfig.cpp:32-61 | two admitted requests share a URL exactly when their clients asked for the same three parameters |
| RecoConfig.UrlSaysWanted | src/msspeechrecoconfig.cpp:32-61 | the URL of an admitted request reads as the three parameters its client asked for |
| SpeechService.AdmitStreaming | src/googlecloudspeechserviceimpl.cpp:65-82 | which streaming calls are refused and why; the URL the others ask the pool for reads as what they asked for |
| SpeechService.AdmitSync | src/googlecloudspeechserviceimpl.cpp:27-35 | the same for sync calls, configuration before content; never dictation |
| SpeechService.SendPayload | src/googlecloudspeechserviceimpl.cpp:88-90 | one payload goes to the session |
| SpeechService.SendPayloads | src/googlecloudspeechserviceimpl.cpp:86-91 | the read loop queues exactly the payloads, in order, and resumes at most once |
| SpeechService.SendStream | src/syncrpcrequesthandler.cpp:23-25 | start, audio and end leave the session with exactly the audio queued, ended, for the call's handler, with completionLock held |
| Handlers.AddAlternatives | src/streamingrpcrequesthandler.cpp:76-81 | one alternative per phrase, position by position, with its display text and confidence |
| Handlers.StreamingRpcRequestHandler.SpeechHypothesis | src/streamingrpcrequesthandler.cpp:36-47 | an interim response when they were asked for, nothing else |
| Handlers.StreamingRpcRequestHandler.SpeechFragment | src/streamingrpcrequesthandler.cpp:49-65 | the phrase grows by the fragment and is written as an interim response |
| Handlers.StreamingRpcRequestHandler.SpeechResult | src/streamingrpcrequesthandler.cpp:67-97 | a success is written as one final response that shows the phrases in order, nothing else is, and every result clears the phrase |
| Handlers.SyncRpcRequestHandler.SpeechResult | src/syncrpcrequesthandler.cpp:48-74 | a success adds one result that shows the phrases in order, nothing else does |
| Handlers.StreamingAgreesWithSync | src/syncrpcrequesthandler.cpp:48-74 | on every message sequence the streaming call's final results are the sync call's results, and all it writes when no interim results were asked for |
| Handlers.FinalsShowSuccesses | src/streamingrpcrequesthandler.cpp:72-82 | on every message sequence the k-th final result of either call shows the k-th successful result message, phrase by phrase |
| Handlers.PhraseIsJoin | src/streamingrpcrequesthandler.cpp:52-55 | the phrase is the space-join of the fragments since the last result, leading empty ones dropped |
| Handlers.WritesAnswers | src/streamingrpcrequesthandler.cpp:36-97 | after any messages, what the next one makes the call write: a hypothesis its text and a fragment the join, as interim results if asked for, a success its phrases, anything else nothing |
| Handlers.FragmentExtends | src/streamingrpcrequesthandler.cpp:49-65 | every fragment's interim transcript is that join and extends the one before |
| SessionFactoryModule.RecognitionSession.constructor | src/msspeechsessionfactory.cpp:81-86 | a new session is unconnected and free |
| SessionFactoryModule.MSSpeechSessionFactory.constructor | src/msspeechsessionfactory.cpp:11-19 | the pool starts empty |
| SessionFactoryModule.MSSpeechSessionFactory.GetSession | src/msspeechsessionfactory.cpp:27-57 | an available session of the URI is checked out under a fresh handle; else one is created and the caller waits; the invariant is kept |
| SessionFactoryModule.MSSpeechSessionFactory.ResumeGetSession | src/msspeechsessionfactory.cpp:39-56 | a woken caller checks out what is available for its URI or waits again |
| SessionFactoryModule.MSSpeechSessionFactory.CheckOut | src/msspeechsessionfactory.cpp:45-56 | the session taken leaves the available set, is busy and indexed, and its handle is new |
| SessionFactoryModule.MSSpeechSessionFactory.CreateNewSession | src/msspeechsessionfactory.cpp:79-91 | one more session is pending |
| SessionFactoryModule.MSSpeechSessionFactory.CreateAndWait | src/msspeechsessionfactory.cpp:32-43 | a connection is created for the URI and the caller waits, not notified |
| SessionFactoryModule.MSSpeechSessionFactory.PutSession | src/msspeechsessionfactory.cpp:59-77 | under its assertions the session is unindexed, freed, offered under its URI, and everybody is notified |
| SessionFactoryModule.MSSpeechSessionFactory.ReleaseEntry | src/msspeechsessionfactory.cpp:70-73 | the handle is forgotten on both sides |
| SessionFactoryModule.MSSpeechSessionFactory.MakeAvailable | src/msspeechsessionfactory.cpp:253-254 | the session joins its URI's available set and every waiting caller is notified |
| SessionFactoryModule.MSSpeechSessionFactory.ProcessPending | src/msspeechsessionfactory.cpp:144-157 | when the connect succeeds the session is connected and live and no longer pending; when it fails nothing changes |
| SessionFactoryModule.MSSpeechSessionFactory.ClientReady | src/msspeechsessionfactory.cpp:244-255 | a live session becomes available, called once or again; the pool is in order afterwards exactly when it was not checked out |
| SessionFactoryModule.MSSpeechSessionFactory.ConnectionClosed | src/msspeechsessionfactory.cpp:225-242 | the session leaves the available sets, the index and the live set, in one step |
| PoolInvariant.InvStep | src/msspeechsessionfactory.cpp:27-91 | every step of callers and run loop keeps the pool's invariant |
| PoolInvariant.ExclusiveCheckout | src/msspeechsessionfactory.cpp:45-56 | distinct outstanding handles have distinct connections, and none of these is available, in every reachable pool |
| PoolInvariant.Partition | src/msspeechsessionfactory.cpp:79-91 | every session ever created is in exactly one of five places; what is available is live, connected and of the right URI; created = pending + live + closed |
| PoolInvariant.IndexAgreement | src/msspeechsessionfactory.cpp:64-73 | the index holds exactly the live checkouts, and putSession's assertions hold exactly while the connection has not closed |
| PoolInvariant.WaitersAreNotified | src/msspeechsessionfactory.cpp:39-41 | no lost wakeup: whoever waits while a session of its URI is available has been notified |
| PoolInvariant.ClosedMeansGone | src/msspeechsessionfactory.cpp:239-241 | a closed connection is never handed out or available again, in every run |
| PoolInvariant.SecondReadyExactly | src/msspeechsessionfactory.cpp:253 | a second client_ready keeps the pool in order exactly when the connection is not checked out |
| PoolInvariant.SecondReadyShares | src/msspeechsessionfactory.cpp:244-255 | after one on a connection that is checked out, the next getSession of its URI can take that connection while the first handle is outstanding on it |
| PoolHistory.Lifecycle | src/msspeechsessionfactory.cpp:79-255 | in every run a connection is pending exactly from its creation to its connect, live from there until it closes, and ready exactly when client_ready has fired |
| PoolHistory.ReadyFirst | src/msspeechsessionfactory.cpp:244-255 | no connection is available or handed out before its client_ready |
| PoolHistory.PendingUntilConnect | src/msspeechsessionfactory.cpp:144-157 | however often its connect fails, a pending connection stays pending and unconnected, in no available set and never handed out, exactly until a connect succeeds |
| PoolProgress.ProgressByCounting | src/msspeechsessionfactory.cpp:32-43 | the callers waiting for a URI never outnumber its pending, connecting, available, checked-out and closed sessions |
| PoolProgress.SettledServesAll | src/msspeechsessionfactory.cpp:39-56 | once all sessions of a URI are back, all its callers are notified, and waking in any order each gets one until none is left |
| PoolProgress.OpenSessionCanServe | src/msspeechsessionfactory.cpp:38-43 | a waiting caller can be served without new requests while any session of its URI has not closed |
| PoolProgress.AllClosedNeverServes | src/msspeechsessionfactory.cpp:38-43 | it is never served once all have closed, unless another caller creates one |
| PoolProgress.AllClosedHappens | src/msspeechsessionfactory.cpp:32-43 | that happens to any caller whose new connection closes before it is ready |
| BridgeInvariant.InvStep | src/googlecloudspeechserviceimpl.cpp:82-96 | every step of calls, pool, sessions and service keeps the bridge's invariant |
| BridgeTheorems.Isolation | src/googlecloudspeechserviceimpl.cpp:82-96 | whatever connections are reused, the bytes of a stream are a prefix of its own call's audio, all of it at the end of stream, and in no other stream |
| BridgeTheorems.RightConnection | src/googlecloudspeechserviceimpl.cpp:82 | a stream runs on a connection opened with exactly its call's mode, language and profanity filtering |
| BridgeTheorems.OwnMessages | src/msspeechsessionfactory.cpp:304-341 | a call's handler is given exactly the messages of its own turn, in order, and its final results are theirs |
| BridgeTheorems.NoMessagesBeforeStart | src/msspeechsessionfactory.cpp:304-341 | a call that has not started its stream is given nothing |
| BridgeTheorems.Exclusive | src/msspeechsessionfactory.cpp:45-56 | two calls never hold one connection |
| BridgeTheorems.OpenTurnFindsItsCall | src/msspeechsessionfactory.cpp:278-367 | inside a turn the message callbacks' assertions hold and lead to a session and to the call that started the turn |
| BridgeTheorems.CompletionExactly | src/msspeechsession.cpp:57-63 | waitForCompletion can return exactly when the turn end has come, not before the lock was taken |
| BridgeTheorems.ReturnedAfterTurnEnd | src/googlecloudspeechserviceimpl.cpp:94-96 | a session is put back only after its turn has ended |
| BridgeTheorems.EarlyExactly | src/msspeechsession.cpp:22-24 | a turn end is too early exactly when the stream is started and completionLock not yet taken |
| BridgeTheorems.EarlyPossible | src/msspeechsession.cpp:22-24 | any call about to start on an open connection can meet one |
| BridgeTheorems.EarlyTurnEndStrands | src/msspeechsession.cpp:57-63 | after one the call never completes, in every run |
| BridgeTheorems.CrashExactly | src/msspeechsessionfactory.cpp:64-66 | of the assertions of putSession and the message callbacks, the exceptions of the session and null sessions on the way only one can strike: returning a session whose connection has closed |
| BridgeTheorems.CrashPossible | src/msspeechsessionfactory.cpp:64-66 | any completed call whose connection is still open can meet it |
| BridgeTheorems.NoCloseNoCrash | src/msspeechsessionfactory.cpp:225-242 | none of these strikes in any run in which no connection closes |
| BridgeHistory.EndToEnd | src/googlecloudspeechserviceimpl.cpp:82-96 | in every run the bytes of a stream are a prefix of what its call gave to sendAudio, all of it and after endAudio at end of stream, and its handler has been given exactly what the service said on that stream |
| BridgeHistory.OwnResults | src/streamingrpcrequesthandler.cpp:67-97 | so either handler's final results show the successful results said on its own stream, in order, phrase by phrase |
| BridgeHistory.CallbackExactly | src/msspeechsession.cpp:105-118 | in every reachable world the stream grows by exactly the positive count the callback returns; 0, and with it the end of the stream, exactly when the call has ended its audio and all it sent was handed out before; -EAGAIN exactly when all was and more may come |
| BridgeHistory.PoolRuns | src/msspeechsessionfactory.cpp:27-91 | the bridge's pool goes through a run of the pool machine |
| BridgeHistory.PoolReachable | src/msspeechsessionfactory.cpp:27-91 | so every theorem about reachable pools holds in the bridge |
| BridgeProgress.CallCompletes | src/googlecloudspeechserviceimpl.cpp:82-96 | in any reachable world a call that holds an open connection can be served to its end: the service gets exactly its bytes and the end of the stream, the call gets the service's answer, and the connection is available again for its URL |
| BridgeProgress.NewCallServed | src/msspeechsessionfactory.cpp:27-57 | an admitted request that finds nothing available can get a new connection of its own |
| BridgeProgress.AvailableCallServed | src/msspeechsessionfactory.cpp:45-56 | one that finds an available connection gets it at once |

## Left out

- libmsspeech, gRPC, protobuf, logging, uuids and authentication headers: foreign code, present only as steps of the environment.
- Command line, start and stop of the run loop, `LongRunningRecognize` (always unimplemented) and `str()`: nothing to prove.
- Mutex ownership, iterator invalidation, deallocation and the lifetime of `user_data` pointers: properties of C++ memory, which the model does not have.
- 32-bit overflow of `dataSize` and `processedBytes`, negative lengths: integers are mathematical and lengths natural numbers.
- `maxSessions`: never read by the code.
- End-of-utterance responses: `MSSpeechSession::msspeechEndDetected` is empty, so `speechEnddetected` is never reached.
- Whether the service ever sends a turn end, and what happens to a call whose connection closes under it: the code gives no guarantee there.
- The two calls as one method from `getSession` to `putSession`: they block on other threads, so the bridge has them as a sequence of steps, and `SpeechService` as the pieces between two waits.
- SpeechService.SendPayloads: states the loop with nothing running beside it; the bridge has it interleaved with everything else.
- SpeechService.SendStream: states start, audio and end with no callback or turn end in between; the bridge has them interleaved.
- MSSpeechSessionModule.MSSpeechSession.constructor: sets `pendingAudio` to false; the C++ constructor does not set it, `recognizeStream` does.
- SessionFactoryModule.MSSpeechSessionFactory.ProcessPending: one pending session at a time, without the second `lock.lock()` at line 153 and the walk over a set that shrinks meanwhile, which throw or are undefined in C++ when two sessions connect in one pass.
- SessionFactoryModule.MSSpeechSessionFactory.ConnectionClosed: one step, where the code checks under the lock and erases after releasing it; what another thread sees between the erases is data-race behaviour of C++ containers.
- BridgeTheorems.CrashExactly: leaves out the assertions of `client_ready` and `connection_closed`, which are conditions of their steps, and the throw at line 153.
- BridgeTheorems.NoCloseNoCrash: leaves out the same.
- The bridge's sendAudio and audio callback as one step each: the finer interleaving is in `Handshake`, and isolation does not depend on it.
