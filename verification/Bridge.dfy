/** The whole bridge: any number of calls, the pool, their sessions, and what the speech service
    sees on each connection. Connections and session handles are numbered; a call is known by its
    request id, which is unique. */
module Bridge {
  import opened Bytes
  import opened Wrappers
  import opened RecoConfig
  import opened SessionSpec
  import Handlers
  import P = PoolSpec
  import Q = QueueSpec

  /** One stream on a connection, from ms_speech_start_stream on, as the service sees it. */
  datatype Turn = Turn(
    request: string,                    // the request id the stream was started with
    bytes: seq<byte>,                   // what the audio callback has handed out
    eos: bool,                          // the callback has returned 0
    open: bool,                         // its turn end has not arrived
    early: bool,                        // its turn end arrived before completionLock was taken
    messages: seq<Handlers.Message>)    // what the service has sent in it

  /** How far a call has come; m is its session handle. */
  datatype Stage =
    | Waiting
    | Holding(m: nat)    // getSession has returned
    | Started(m: nat)    // inside recognizeStream, before its last line
    | Streaming(m: nat)
    | Ended(m: nat)      // after endAudio
    | Completed(m: nat)  // after waitForCompletion
    | Done(m: nat)       // after putSession

  datatype Call = Call(
    request: Request,
    at: Stage,
    sent: seq<byte>,                    // every byte given to sendAudio
    inbox: seq<Handlers.Message>)       // every message given to the call's handler

  datatype World = World(
    pool: P.Pool<nat, nat>,
    sessions: map<nat, Session>,
    connection: map<nat, nat>,          // the connection of each session
    turns: map<nat, Turn>,              // by session: a session starts at most one stream
    current: map<nat, nat>,             // by connection: the session of its last stream
    calls: map<string, Call>,
    crashed: bool)                      // an assertion failed, or a null session was used

  const START := World(P.Empty(), map[], map[], map[], map[], map[], false)

  datatype Step =
    | ArriveFast(id: string, request: Request, c: nat, m: nat)
    | ArriveSlow(id: string, request: Request, c: nat)
    | WakeTake(id: string, c: nat, m: nat) | WakeWait(id: string)
    | Connect(c: nat) | ConnectFail(c: nat) | Ready(c: nat) | Close(c: nat)
    | Start(id: string) | Lock(id: string)     // recognizeStream, and its last line
    | Send(id: string, bytes: seq<byte>) | EndAudio(id: string)
    | Wait(id: string) | PutBack(id: string)
    | Callback(c: nat, n: nat)                 // the service asks for up to n bytes
    | Message(c: nat, message: Handlers.Message) | TurnEnd(c: nat)

  function UrlOf(g: Request): string
    requires Admit(g).OK?
  {
    Url(ConfigOf(g))
  }

  /** The pool's part of a step. */
  function PoolStep(w: World, step: Step): Option<P.Step<nat, nat>> {
    match step
    case ArriveFast(id, g, c, m) => if Admit(g).OK? then Some(P.GetFast(id, UrlOf(g), c, m)) else None
    case ArriveSlow(id, g, c) => if Admit(g).OK? then Some(P.GetSlow(id, UrlOf(g), c)) else None
    case WakeTake(id, c, m) => Some(P.WakeTake(id, c, m))
    case WakeWait(id) => Some(P.WakeWait(id))
    case Connect(c) => Some(P.Connect(c))
    case ConnectFail(c) => Some(P.ConnectFail(c))
    case Ready(c) => Some(P.ClientReady(c))
    case Close(c) => Some(P.Close(c))
    case _ => None
  }

  /** A call's own steps: where it must be for each. */
  predicate AtStage(call: Call, step: Step) {
    match step
    case Start(_) => call.at.Holding?
    case Lock(_) => call.at.Started?
    case Send(_, _) => call.at.Streaming?
    case EndAudio(_) => call.at.Streaming?
    case Wait(_) => call.at.Ended?
    case PutBack(_) => call.at.Completed?
    case _ => false
  }

  predicate Known(w: World, id: string) {
    id in w.calls && !w.calls[id].at.Waiting? && w.calls[id].at.m in w.sessions && w.calls[id].at.m in w.connection
  }

  /** The connection is open and carries a stream. */
  predicate Carries(w: World, c: nat) {
    && c in w.pool.sessions && c in w.pool.entries && c in w.current
    && w.current[c] in w.turns && w.current[c] in w.sessions
  }

  predicate Enabled(w: World, step: Step) {
    && !w.crashed
    && match step
       case ArriveFast(id, g, _, _) => id !in w.calls && Admit(g).OK? && P.Enabled(w.pool, PoolStep(w, step).value)
       case ArriveSlow(id, g, _) => id !in w.calls && Admit(g).OK? && P.Enabled(w.pool, PoolStep(w, step).value)
       case WakeTake(id, _, _) => id in w.calls && P.Enabled(w.pool, PoolStep(w, step).value)
       case WakeWait(_) => P.Enabled(w.pool, PoolStep(w, step).value)
       case Connect(_) => P.Enabled(w.pool, PoolStep(w, step).value)
       case ConnectFail(_) => P.Enabled(w.pool, PoolStep(w, step).value)
       case Ready(_) => P.Enabled(w.pool, PoolStep(w, step).value)
       case Close(_) => P.Enabled(w.pool, PoolStep(w, step).value)
       // completionLock blocks these two
       case Lock(id) => Known(w, id) && AtStage(w.calls[id], step) && !w.sessions[w.calls[id].at.m].locked
       case Wait(id) => Known(w, id) && AtStage(w.calls[id], step) && !w.sessions[w.calls[id].at.m].locked
       case Callback(c, n) => Carries(w, c) && 0 < n
       // the service speaks only inside an open turn
       case Message(c, _) => Carries(w, c) && w.turns[w.current[c]].open
       case TurnEnd(c) => Carries(w, c) && w.turns[w.current[c]].open
       case _ => Known(w, step.id) && AtStage(w.calls[step.id], step)
  }

  function Crash(w: World): World {
    w.(crashed := true)
  }

  /** A call takes a session: the fresh MSSpeechSession of getSession. */
  function Receive(w: World, pool: P.Pool<nat, nat>, id: string, call: Call, c: nat, m: nat): World {
    w.(pool := pool,
       sessions := w.sessions[m := Fresh(id)],
       connection := w.connection[m := c],
       calls := w.calls[id := call.(at := Holding(m))])
  }

  /** The call moves to another stage, its session to another state. */
  function Advance(w: World, id: string, s: Session, at: Stage): World
    requires Known(w, id)
  {
    w.(sessions := w.sessions[w.calls[id].at.m := s], calls := w.calls[id := w.calls[id].(at := at)])
  }

  function StartStream(w: World, id: string): World
    requires Known(w, id)
  {
    var m := w.calls[id].at.m;
    if w.sessions[m].started then Crash(w)
    else
      Advance(w, id, SessionSpec.Start(w.sessions[m], id), Started(m)).(
        turns := w.turns[m := Turn(w.sessions[m].requestId, [], false, true, false, [])],
        current := w.current[w.connection[m] := m])
  }

  function SendBytes(w: World, id: string, bytes: seq<byte>): World
    requires Known(w, id)
  {
    var m := w.calls[id].at.m;
    if !CanSend(w.sessions[m]) then Crash(w)
    else
      w.(sessions := w.sessions[m := SessionSpec.Send(w.sessions[m], bytes)],
         calls := w.calls[id := w.calls[id].(sent := w.calls[id].sent + bytes)])
  }

  function MarkEnd(w: World, id: string): World
    requires Known(w, id)
  {
    var m := w.calls[id].at.m;
    if !w.sessions[m].started then Crash(w)
    else Advance(w, id, SessionSpec.EndAudio(w.sessions[m]), Ended(m))
  }

  function Return(w: World, id: string): World
    requires Known(w, id)
  {
    var m := w.calls[id].at.m;
    if !P.CanPutBack(w.pool, m) then Crash(w)
    else w.(pool := P.After(w.pool, P.PutBack(m)), calls := w.calls[id := w.calls[id].(at := Done(m))])
  }

  /** The stream's user data is the session that started it. */
  function HandOut(w: World, c: nat, n: nat): World
    requires Carries(w, c)
  {
    var m := w.current[c];
    var s, turn := w.sessions[m], w.turns[m];
    w.(sessions := w.sessions[m := SessionSpec.Callback(s, n)],
       turns := w.turns[m := turn.(bytes := turn.bytes + s.queue.content[..Q.Taken(s.queue, n)],
                                   eos := turn.eos || CallbackCode(s, n) == 0)])
  }

  /** The callbacks' way from a connection to the session checked out on it: they assert that it
      is in busySesssions and then follow a possibly null pointer. */
  predicate HasSession(w: World, c: nat)
    requires c in w.pool.entries
  {
    && c in w.pool.busy
    && w.pool.entries[c].session.Some? && w.pool.entries[c].session.value in w.sessions
  }

  function Deliver(w: World, c: nat, message: Handlers.Message): World
    requires Carries(w, c)
  {
    if !HasSession(w, c) then Crash(w)
    else
      var handler := w.sessions[w.pool.entries[c].session.value].handler;
      if handler.None? || handler.value !in w.calls then Crash(w)
      else
        var call, turn := w.calls[handler.value], w.turns[w.current[c]];
        w.(turns := w.turns[w.current[c] := turn.(messages := turn.messages + [message])],
           calls := w.calls[handler.value := call.(inbox := call.inbox + [message])])
  }

  function FinishTurn(w: World, c: nat): World
    requires Carries(w, c)
  {
    if !HasSession(w, c) then Crash(w)
    else
      var m := w.pool.entries[c].session.value;
      var turn := w.turns[w.current[c]];
      w.(sessions := w.sessions[m := SessionSpec.TurnEnd(w.sessions[m])],
         turns := w.turns[w.current[c] := turn.(open := false, early := !w.sessions[m].locked)])
  }

  function After(w: World, step: Step): World
    requires Enabled(w, step)
  {
    match step
    case ArriveFast(id, g, c, m) =>
      Receive(w, P.After(w.pool, PoolStep(w, step).value), id, Call(g, Waiting, [], []), c, m)
    case ArriveSlow(id, g, c) =>
      w.(pool := P.After(w.pool, PoolStep(w, step).value), calls := w.calls[id := Call(g, Waiting, [], [])])
    case WakeTake(id, c, m) =>
      Receive(w, P.After(w.pool, PoolStep(w, step).value), id, w.calls[id], c, m)
    case WakeWait(_) => w.(pool := P.After(w.pool, PoolStep(w, step).value))
    case Connect(_) => w.(pool := P.After(w.pool, PoolStep(w, step).value))
    case ConnectFail(_) => w.(pool := P.After(w.pool, PoolStep(w, step).value))
    case Ready(_) => w.(pool := P.After(w.pool, PoolStep(w, step).value))
    case Close(_) => w.(pool := P.After(w.pool, PoolStep(w, step).value))
    case Start(id) => StartStream(w, id)
    case Lock(id) =>
      var m := w.calls[id].at.m;
      Advance(w, id, SessionSpec.Lock(w.sessions[m]), Stage.Streaming(m))
    case Send(id, bytes) => SendBytes(w, id, bytes)
    case EndAudio(id) => MarkEnd(w, id)
    case Wait(id) =>
      var m := w.calls[id].at.m;
      Advance(w, id, SessionSpec.Lock(w.sessions[m]), Completed(m))
    case PutBack(id) => Return(w, id)
    case Callback(c, n) => HandOut(w, c, n)
    case Message(c, message) => Deliver(w, c, message)
    case TurnEnd(c) => FinishTurn(w, c)
  }

  predicate Run(w: World, steps: seq<Step>)
    decreases steps
  {
    steps == [] || (Enabled(w, steps[0]) && Run(After(w, steps[0]), steps[1..]))
  }

  function Final(w: World, steps: seq<Step>): World
    requires Run(w, steps)
    decreases steps
  {
    if steps == [] then w else Final(After(w, steps[0]), steps[1..])
  }
}
