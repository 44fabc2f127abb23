/** What holds in every reachable world. */
module BridgeInvariant {
  import opened Bytes
  import opened Wrappers
  import opened RecoConfig
  import opened SessionSpec
  import opened Bridge
  import P = PoolSpec
  import PI = PoolInvariant
  import Q = QueueSpec
  import Handlers

  /** A session and its stream, as its call has left them. */
  ghost predicate StreamOk(id: string, call: Call, s: Session, turn: Turn) {
    && s.started && s.handler == Some(id) && turn.request == id
    && !s.queue.terminating
    && (s.queue.ended <==> call.at.Ended? || call.at.Completed? || call.at.Done?)
    // no byte is lost, doubled or taken from elsewhere
    && call.sent == turn.bytes + s.queue.content
    && (turn.eos ==> s.queue.ended && s.queue.content == [])
    && call.inbox == turn.messages
    && LockOk(call.at, s.locked, turn)
  }

  /** completionLock says whether the turn has ended, unless it ended too early. */
  ghost predicate LockOk(at: Stage, locked: bool, turn: Turn) {
    && !(turn.open && turn.early)
    && (at.Started? ==> !locked && (turn.open || turn.early))
    && (at.Streaming? || at.Ended? ==> (locked <==> turn.open || turn.early))
    && (at.Completed? || at.Done? ==> locked && !turn.open && !turn.early)
  }

  /** The call's connection: checked out for it until the session is put back, and carrying its
      stream from the start of the stream on. */
  ghost predicate ConnectionOk(w: World, call: Call, m: nat, c: nat)
    requires c in w.pool.entries
  {
    && (!call.at.Done? ==> w.pool.entries[c].session == Some(m))
    && (!call.at.Done? && !call.at.Holding? ==> c in w.current && w.current[c] == m)
    && Admit(call.request).OK? && w.pool.entries[c].uri == UrlOf(call.request)
  }

  ghost predicate CallOk(w: World, id: string)
    requires id in w.calls
  {
    var call := w.calls[id];
    if call.at.Waiting? then
      && id in w.pool.waiting && Admit(call.request).OK? && w.pool.waiting[id].uri == UrlOf(call.request)
      && call.sent == [] && call.inbox == []
    else
      var m := call.at.m;
      && m in w.sessions && m in w.connection && w.connection[m] in w.pool.entries
      && w.sessions[m].requestId == id
      && ConnectionOk(w, call, m, w.connection[m])
      && (if call.at.Holding? then
            m !in w.turns && w.sessions[m] == Fresh(id) && call.sent == [] && call.inbox == []
          else m in w.turns && StreamOk(id, call, w.sessions[m], w.turns[m]))
  }

  ghost predicate CallsOk(w: World) {
    forall id | id in w.calls :: CallOk(w, id)
  }

  /** Every session belongs to the call it is named after. */
  ghost predicate Owned(w: World, m: nat)
    requires m in w.sessions
  {
    var id := w.sessions[m].requestId;
    id in w.calls && !w.calls[id].at.Waiting? && w.calls[id].at.m == m
  }

  ghost predicate SessionsOk(w: World) {
    && w.sessions.Keys == w.connection.Keys == w.pool.issued
    && w.turns.Keys <= w.sessions.Keys
    && (forall m | m in w.sessions :: Owned(w, m))
    && (forall c | c in w.current ::
          w.current[c] in w.turns && w.current[c] in w.connection && w.connection[w.current[c]] == c)
    && (forall id | id in w.pool.waiting :: id in w.calls && w.calls[id].at.Waiting?)
  }

  ghost predicate Inv(w: World) {
    PI.Inv(w.pool) && CallsOk(w) && SessionsOk(w)
  }

  // Frames

  /** Between w and v only these calls, sessions and connections have changed. */
  ghost predicate Touches(w: World, v: World, ids: set<string>, ms: set<nat>, cs: set<nat>) {
    && (forall id | id !in ids && id in v.calls :: id in w.calls && v.calls[id] == w.calls[id])
    && (forall m | m !in ms && m in w.sessions :: m in v.sessions && v.sessions[m] == w.sessions[m])
    && (forall m | m !in ms && m in w.connection :: m in v.connection && v.connection[m] == w.connection[m])
    && (forall m | m !in ms :: m in v.turns <==> m in w.turns)
    && (forall m | m !in ms && m in w.turns :: v.turns[m] == w.turns[m])
    && (forall c | c !in cs && c in w.current :: c in v.current && v.current[c] == w.current[c])
    && (forall c | c in w.pool.entries :: c in v.pool.entries && v.pool.entries[c].uri == w.pool.entries[c].uri)
    && (forall c | c !in cs && c in w.pool.entries :: v.pool.entries[c].session == w.pool.entries[c].session)
    && (forall id | id !in ids && id in w.pool.waiting ::
          id in v.pool.waiting && v.pool.waiting[id].uri == w.pool.waiting[id].uri)
  }

  /** The sessions belong to the calls, and the connections are free or carry the sessions. */
  ghost predicate Closed(w: World, ids: set<string>, ms: set<nat>, cs: set<nat>) {
    && (forall m | m in ms && m in w.sessions :: w.sessions[m].requestId in ids)
    && (forall c | c in cs && c in w.pool.entries ::
          w.pool.entries[c].session.None? || w.pool.entries[c].session.value in ms)
  }

  lemma OtherKept(w: World, v: World, ids: set<string>, ms: set<nat>, cs: set<nat>, id: string)
    requires Touches(w, v, ids, ms, cs) && Closed(w, ids, ms, cs)
    requires id !in ids && id in v.calls && id in w.calls && CallOk(w, id)
    ensures CallOk(v, id)
  {
    var call := w.calls[id];
    if !call.at.Waiting? {
      var m := call.at.m;
      assert m !in ms;
      var c := w.connection[m];
      assert !call.at.Done? ==> c !in cs;
    }
  }

  lemma CallsKept(w: World, v: World, ids: set<string>, ms: set<nat>, cs: set<nat>)
    requires CallsOk(w) && Touches(w, v, ids, ms, cs) && Closed(w, ids, ms, cs)
    requires forall id | id in ids && id in v.calls :: CallOk(v, id)
    ensures CallsOk(v)
  {
    forall id | id in v.calls
      ensures CallOk(v, id)
    {
      if id !in ids {
        OtherKept(w, v, ids, ms, cs, id);
      }
    }
  }

  /** Sessions keep their names, and calls keep their sessions. */
  ghost predicate SameOwners(w: World, v: World) {
    && v.connection == w.connection && v.sessions.Keys == w.sessions.Keys
    && (forall m | m in w.sessions :: v.sessions[m].requestId == w.sessions[m].requestId)
    && (forall id | id in w.calls ::
          && id in v.calls && (v.calls[id].at.Waiting? <==> w.calls[id].at.Waiting?)
          && (!w.calls[id].at.Waiting? ==> v.calls[id].at.m == w.calls[id].at.m))
  }

  lemma SessionsKept(w: World, v: World)
    requires SessionsOk(w) && SameOwners(w, v) && v.pool.issued == w.pool.issued
    requires w.turns.Keys <= v.turns.Keys <= v.sessions.Keys
    requires forall c | c in v.current ::
               (c in w.current && v.current[c] == w.current[c]) ||
               (v.current[c] in v.turns && v.connection[v.current[c]] == c)
    requires forall id | id in v.pool.waiting :: id in v.calls && v.calls[id].at.Waiting?
    ensures SessionsOk(v)
  {
    forall m | m in v.sessions
      ensures Owned(v, m)
    {
      assert Owned(w, m);
    }
  }

  // Steps of the pool

  /** What a pool step other than a checkout and a return leaves alone. */
  lemma PoolKeeps(s: P.Pool<nat, nat>, step: P.Step<nat, nat>)
    requires P.Enabled(s, step)
    requires !step.GetFast? && !step.WakeTake? && !step.PutBack?
    ensures var t := P.After(s, step);
            && t.issued == s.issued
            && (forall c | c in s.entries ::
                  c in t.entries && t.entries[c].session == s.entries[c].session && t.entries[c].uri == s.entries[c].uri)
            && (forall id | id in s.waiting && (step.GetSlow? ==> step.id != id) ::
                  id in t.waiting && t.waiting[id].uri == s.waiting[id].uri)
            && (forall id | id in t.waiting :: id in s.waiting || (step.GetSlow? && step.id == id))
  {
  }

  predicate PoolOnly(step: Step) {
    step.ArriveSlow? || step.WakeWait? || step.Connect? || step.ConnectFail? || step.Ready? || step.Close?
  }

  lemma PoolStepOnly(w: World, step: Step)
    requires Enabled(w, step) && PoolOnly(step)
    ensures After(w, step) == w.(
              pool := P.After(w.pool, PoolStep(w, step).value),
              calls := if step.ArriveSlow? then w.calls[step.id := Call(step.request, Waiting, [], [])] else w.calls)
  {
  }

  lemma PoolStepTouches(w: World, step: Step)
    requires Enabled(w, step) && PoolOnly(step)
    ensures Touches(w, After(w, step), if step.ArriveSlow? then {step.id} else {}, {}, {})
  {
    PoolStepOnly(w, step);
    PoolKeeps(w.pool, PoolStep(w, step).value);
  }

  lemma PoolStepSessions(w: World, step: Step)
    requires SessionsOk(w) && Enabled(w, step) && PoolOnly(step)
    ensures SessionsOk(After(w, step))
  {
    PoolKeeps(w.pool, PoolStep(w, step).value);
    SessionsKept(w, After(w, step));
  }

  lemma PoolStepCalls(w: World, step: Step)
    requires CallsOk(w) && Enabled(w, step) && PoolOnly(step)
    ensures CallsOk(After(w, step))
  {
    PoolStepTouches(w, step);
    assert step.ArriveSlow? ==> CallOk(After(w, step), step.id);
    CallsKept(w, After(w, step), if step.ArriveSlow? then {step.id} else {}, {}, {});
  }

  /** What a checkout leaves alone: everything but the connection taken, which had no session. */
  ghost predicate Checkout(s: P.Pool<nat, nat>, t: P.Pool<nat, nat>, id: string, uri: string, c: nat, m: nat) {
    && m !in s.issued && t.issued == s.issued + {m}
    && c in s.entries && s.entries[c].session == None && s.entries[c].uri == uri
    && c in t.entries && t.entries[c].session == Some(m)
    && (forall d | d in s.entries ::
          d in t.entries && t.entries[d].uri == s.entries[d].uri
          && (d != c ==> t.entries[d].session == s.entries[d].session))
    && t.waiting == s.waiting - {id}
  }

  lemma PoolCheckout(s: P.Pool<nat, nat>, step: P.Step<nat, nat>)
    requires PI.Inv(s) && P.Enabled(s, step) && (step.GetFast? || step.WakeTake?)
    ensures Checkout(s, P.After(s, step), step.id,
                     if step.GetFast? then step.uri else s.waiting[step.id].uri, step.r, step.m)
  {
    var uri := if step.GetFast? then step.uri else s.waiting[step.id].uri;
    assert PI.IsAvailable(s, uri, step.r);
  }

  ghost predicate Receives(w: World, v: World, id: string, call: Call, c: nat, m: nat) {
    && (id in w.calls ==> w.calls[id].at.Waiting?)
    && Admit(call.request).OK? && call.sent == [] && call.inbox == []
    && Checkout(w.pool, v.pool, id, UrlOf(call.request), c, m)
    && v == Receive(w, v.pool, id, call, c, m)
  }

  lemma ReceiveTouches(w: World, v: World, id: string, call: Call, c: nat, m: nat)
    requires SessionsOk(w) && Receives(w, v, id, call, c, m)
    ensures Touches(w, v, {id}, {m}, {c}) && Closed(w, {id}, {m}, {c})
    ensures CallOk(v, id)
  {
    assert m !in w.sessions && m !in w.turns;
  }

  lemma ReceiveSessions(w: World, v: World, id: string, call: Call, c: nat, m: nat)
    requires SessionsOk(w) && Receives(w, v, id, call, c, m)
    ensures SessionsOk(v)
  {
    forall k | k in v.sessions
      ensures Owned(v, k)
    {
      assert k in w.sessions ==> Owned(w, k);
    }
  }

  lemma ReceiveInv(w: World, v: World, id: string, call: Call, c: nat, m: nat)
    requires CallsOk(w) && SessionsOk(w) && Receives(w, v, id, call, c, m)
    ensures CallsOk(v) && SessionsOk(v)
  {
    ReceiveTouches(w, v, id, call, c, m);
    CallsKept(w, v, {id}, {m}, {c});
    ReceiveSessions(w, v, id, call, c, m);
  }

  lemma CheckoutInv(w: World, step: Step)
    requires Inv(w) && Enabled(w, step) && (step.ArriveFast? || step.WakeTake?)
    ensures CallsOk(After(w, step)) && SessionsOk(After(w, step))
  {
    PoolCheckout(w.pool, PoolStep(w, step).value);
    var call := if step.ArriveFast? then Call(step.request, Waiting, [], []) else w.calls[step.id];
    assert step.WakeTake? ==> CallOk(w, step.id);
    ReceiveInv(w, After(w, step), step.id, call, step.c, step.m);
  }

  // Steps of a call

  /** A step that changes one call, its session and its stream, and at most these connections. */
  ghost predicate OneCall(w: World, v: World, id: string, cs: set<nat>)
    requires Known(w, id)
  {
    Touches(w, v, {id}, {w.calls[id].at.m}, cs) && SameShape(w, v, w.calls[id].at.m)
  }

  ghost predicate SameShape(w: World, v: World, m: nat)
    requires m in w.connection
  {
    && SameOwners(w, v)
    && v.pool.issued == w.pool.issued && v.pool.waiting.Keys == w.pool.waiting.Keys
    && w.turns.Keys <= v.turns.Keys <= w.turns.Keys + {m}
    && (v.current == w.current || (m in v.turns && v.current == w.current[w.connection[m] := m]))
  }

  lemma OneCallSessions(w: World, v: World, m: nat)
    requires SessionsOk(w) && m in w.connection && SameShape(w, v, m)
    ensures SessionsOk(v)
  {
    SessionsKept(w, v);
  }

  lemma OneCallCalls(w: World, v: World, id: string, cs: set<nat>)
    requires CallsOk(w) && Known(w, id) && OneCall(w, v, id, cs)
    requires Closed(w, {id}, {w.calls[id].at.m}, cs)
    requires id in v.calls ==> CallOk(v, id)
    ensures CallsOk(v)
  {
    CallsKept(w, v, {id}, {w.calls[id].at.m}, cs);
  }

  /** What one step of a known call does: no crash, one call touched and kept in order. */
  ghost predicate Fine(w: World, v: World, id: string, cs: set<nat>)
    requires Known(w, id)
  {
    !v.crashed && OneCall(w, v, id, cs) && id in v.calls && CallOk(v, id)
  }

  /** A connection change needs the connection to be checked out for the call. */
  ghost predicate Holds(w: World, id: string, cs: set<nat>)
    requires Known(w, id)
  {
    var m := w.calls[id].at.m;
    forall c | c in cs && c in w.pool.entries :: w.pool.entries[c].session == Some(m)
  }

  lemma HoldsClosed(w: World, id: string, cs: set<nat>)
    requires Known(w, id) && Holds(w, id, cs) && w.sessions[w.calls[id].at.m].requestId == id
    ensures Closed(w, {id}, {w.calls[id].at.m}, cs)
  {
  }

  lemma FineCalls(w: World, v: World, id: string, cs: set<nat>)
    requires CallsOk(w) && Known(w, id) && Fine(w, v, id, cs) && Holds(w, id, cs)
    requires w.sessions[w.calls[id].at.m].requestId == id
    ensures CallsOk(v)
  {
    HoldsClosed(w, id, cs);
    OneCallCalls(w, v, id, cs);
  }

  lemma FineInv(w: World, v: World, id: string, cs: set<nat>)
    requires CallsOk(w) && SessionsOk(w) && Known(w, id) && Fine(w, v, id, cs) && Holds(w, id, cs)
    requires w.sessions[w.calls[id].at.m].requestId == id
    ensures CallsOk(v) && SessionsOk(v)
  {
    FineCalls(w, v, id, cs);
    OneCallSessions(w, v, w.calls[id].at.m);
  }

  lemma StartFine(w: World, id: string)
    requires Enabled(w, Start(id)) && CallOk(w, id)
    ensures Fine(w, After(w, Start(id)), id, {w.connection[w.calls[id].at.m]})
    ensures Holds(w, id, {w.connection[w.calls[id].at.m]})
  {
  }

  /** What a return of handle m does to the pool: its assertions fail exactly when the connection
      has closed, and else it changes that connection only. */
  ghost predicate ReturnsFrom(s: P.Pool<nat, nat>, c: nat, m: nat) {
    && (P.CanPutBack(s, m) <==> c !in s.closed)
    && (P.CanPutBack(s, m) ==>
          var t := P.After(s, P.PutBack(m));
          && s.bySession[m] == c && t.issued == s.issued && t.waiting.Keys == s.waiting.Keys
          && (forall id | id in s.waiting :: t.waiting[id].uri == s.waiting[id].uri)
          && (forall d | d in s.entries ::
                d in t.entries && t.entries[d].uri == s.entries[d].uri
                && (d != c ==> t.entries[d].session == s.entries[d].session)))
  }

  lemma PoolReturn(s: P.Pool<nat, nat>, c: nat, m: nat)
    requires PI.Inv(s) && c in s.entries && s.entries[c].session == Some(m)
    ensures ReturnsFrom(s, c, m)
  {
    PI.PutBackExactly(s, c, m);
  }

  lemma PutBackFine(w: World, id: string)
    requires Enabled(w, PutBack(id)) && CallOk(w, id)
    requires ReturnsFrom(w.pool, w.connection[w.calls[id].at.m], w.calls[id].at.m)
    ensures var c := w.connection[w.calls[id].at.m];
            && Holds(w, id, {c})
            && (After(w, PutBack(id)).crashed <==> c in w.pool.closed)
            && (c !in w.pool.closed ==> Fine(w, After(w, PutBack(id)), id, {c}))
            && (c in w.pool.closed ==> After(w, PutBack(id)) == Crash(w))
  {
  }

  /** A return keeps the invariant, or crashes because the connection has closed meanwhile. */
  lemma PutBackInv(w: World, id: string)
    requires CallsOk(w) && SessionsOk(w) && Known(w, id) && Enabled(w, PutBack(id))
    requires ReturnsFrom(w.pool, w.connection[w.calls[id].at.m], w.calls[id].at.m)
    ensures var v := After(w, PutBack(id));
            && CallsOk(v) && SessionsOk(v)
            && (v.crashed <==> w.connection[w.calls[id].at.m] in w.pool.closed)
  {
    assert CallOk(w, id);
    PutBackFine(w, id);
    if w.connection[w.calls[id].at.m] !in w.pool.closed {
      FineInv(w, After(w, PutBack(id)), id, {w.connection[w.calls[id].at.m]});
    } else {
      CrashKeeps(w);
    }
  }

  // Steps within a stream: they change one call, its session and its stream, and nothing else

  ghost predicate WithinStream(w: World, v: World, id: string) {
    && Known(w, id) && CallOk(w, id) && !w.crashed
    && var m := w.calls[id].at.m;
    && id in v.calls && m in v.sessions && m in v.turns && m in w.turns
    && v == w.(calls := w.calls[id := v.calls[id]],
               sessions := w.sessions[m := v.sessions[m]],
               turns := w.turns[m := v.turns[m]])
    && v.sessions[m].requestId == w.sessions[m].requestId
    && v.calls[id].request == w.calls[id].request
    && !v.calls[id].at.Waiting? && !v.calls[id].at.Holding? && v.calls[id].at.m == m
    && (v.calls[id].at.Done? <==> w.calls[id].at.Done?)
    && StreamOk(id, v.calls[id], v.sessions[m], v.turns[m])
  }

  lemma WithinStreamFine(w: World, v: World, id: string)
    requires WithinStream(w, v, id)
    ensures Fine(w, v, id, {}) && Holds(w, id, {})
  {
  }

  lemma WithinStreamInv(w: World, v: World, id: string)
    requires CallsOk(w) && SessionsOk(w) && WithinStream(w, v, id)
    ensures CallsOk(v) && SessionsOk(v) && !v.crashed
  {
    WithinStreamFine(w, v, id);
    FineInv(w, v, id, {});
  }

  lemma LockWithin(w: World, step: Step)
    requires step.Lock? && Enabled(w, step) && CallOk(w, step.id)
    ensures WithinStream(w, After(w, step), step.id)
  {
  }

  lemma SendWithin(w: World, step: Step)
    requires step.Send? && Enabled(w, step) && CallOk(w, step.id)
    ensures WithinStream(w, After(w, step), step.id)
  {
    var m := w.calls[step.id].at.m;
    assert (w.turns[m].bytes + w.sessions[m].queue.content) + step.bytes
        == w.turns[m].bytes + (w.sessions[m].queue.content + step.bytes);
  }

  lemma EndAudioWithin(w: World, step: Step)
    requires step.EndAudio? && Enabled(w, step) && CallOk(w, step.id)
    ensures WithinStream(w, After(w, step), step.id)
  {
  }

  lemma WaitWithin(w: World, step: Step)
    requires step.Wait? && Enabled(w, step) && CallOk(w, step.id)
    ensures WithinStream(w, After(w, step), step.id)
  {
  }

  predicate OfCall(step: Step) {
    step.Lock? || step.Send? || step.EndAudio? || step.Wait?
  }

  lemma CallStepWithin(w: World, step: Step)
    requires OfCall(step) && Enabled(w, step) && CallOk(w, step.id)
    ensures WithinStream(w, After(w, step), step.id)
  {
    if step.Lock? {
      LockWithin(w, step);
    } else if step.Send? {
      SendWithin(w, step);
    } else if step.EndAudio? {
      EndAudioWithin(w, step);
    } else {
      WaitWithin(w, step);
    }
  }

  // Steps of a connection

  /** A connection that carries the stream of a call. */
  ghost predicate CarriesFor(w: World, c: nat, id: string) {
    && Carries(w, c) && w.sessions[w.current[c]].requestId == id
    && Known(w, id) && CallOk(w, id) && w.calls[id].at.m == w.current[c]
    && !w.calls[id].at.Holding? && w.connection[w.current[c]] == c
  }

  /** The call whose stream a connection carries. */
  lemma Carrier(w: World, c: nat) returns (id: string)
    requires CallsOk(w) && SessionsOk(w) && Carries(w, c)
    ensures CarriesFor(w, c, id)
  {
    id := w.sessions[w.current[c]].requestId;
    assert Owned(w, w.current[c]) && CallOk(w, id);
  }

  /** What the pool's invariant says of one connection. */
  ghost predicate BusyWhenOut(w: World, c: nat) {
    c in w.pool.entries && w.pool.entries[c].session.Some? ==> c in w.pool.busy
  }

  /** In an open turn the connection is checked out for the very call whose stream it carries. */
  lemma OpenTurn(w: World, c: nat, id: string)
    requires BusyWhenOut(w, c) && CarriesFor(w, c, id) && w.turns[w.current[c]].open
    ensures HasSession(w, c) && w.pool.entries[c].session == Some(w.current[c])
    ensures w.sessions[w.current[c]].handler == Some(id)
    ensures w.calls[id].at.Started? || w.calls[id].at.Streaming? || w.calls[id].at.Ended?
  {
  }

  lemma CallbackWithin(w: World, step: Step, id: string)
    requires step.Callback? && Enabled(w, step) && CarriesFor(w, step.c, id)
    ensures WithinStream(w, After(w, step), id)
  {
    var m := w.current[step.c];
    var content := w.sessions[m].queue.content;
    var k := Q.Taken(w.sessions[m].queue, step.n);
    assert content == content[..k] + content[k..];
    assert w.turns[m].bytes + content == (w.turns[m].bytes + content[..k]) + content[k..];
  }

  lemma MessageWithin(w: World, step: Step, id: string)
    requires step.Message? && Enabled(w, step) && CarriesFor(w, step.c, id) && BusyWhenOut(w, step.c)
    ensures WithinStream(w, After(w, step), id)
  {
    OpenTurn(w, step.c, id);
  }

  lemma TurnEndWithin(w: World, step: Step, id: string)
    requires step.TurnEnd? && Enabled(w, step) && CarriesFor(w, step.c, id) && BusyWhenOut(w, step.c)
    ensures WithinStream(w, After(w, step), id)
  {
    OpenTurn(w, step.c, id);
  }

  predicate OfConnection(step: Step) {
    step.Callback? || step.Message? || step.TurnEnd?
  }

  lemma ConnectionStepWithin(w: World, step: Step, id: string)
    requires OfConnection(step) && Enabled(w, step) && CarriesFor(w, step.c, id) && BusyWhenOut(w, step.c)
    ensures WithinStream(w, After(w, step), id)
  {
    if step.Callback? {
      CallbackWithin(w, step, id);
    } else if step.Message? {
      MessageWithin(w, step, id);
    } else {
      TurnEndWithin(w, step, id);
    }
  }

  lemma StepCarries(w: World, step: Step)
    requires OfConnection(step) && Enabled(w, step)
    ensures Carries(w, step.c)
  {
  }

  // All steps

  lemma StartInv(w: World, id: string)
    requires CallsOk(w) && SessionsOk(w) && Enabled(w, Start(id))
    ensures CallsOk(After(w, Start(id))) && SessionsOk(After(w, Start(id))) && !After(w, Start(id)).crashed
  {
    assert CallOk(w, id);
    StartFine(w, id);
    FineInv(w, After(w, Start(id)), id, {w.connection[w.calls[id].at.m]});
  }

  lemma CallStepInv(w: World, step: Step)
    requires CallsOk(w) && SessionsOk(w) && OfCall(step) && Enabled(w, step)
    ensures CallsOk(After(w, step)) && SessionsOk(After(w, step)) && !After(w, step).crashed
  {
    assert CallOk(w, step.id);
    CallStepWithin(w, step);
    WithinStreamInv(w, After(w, step), step.id);
  }

  lemma ConnectionStepInv(w: World, step: Step)
    requires CallsOk(w) && SessionsOk(w) && OfConnection(step) && Enabled(w, step) && BusyWhenOut(w, step.c)
    ensures CallsOk(After(w, step)) && SessionsOk(After(w, step)) && !After(w, step).crashed
  {
    StepCarries(w, step);
    var id := Carrier(w, step.c);
    ConnectionStepWithin(w, step, id);
    WithinStreamInv(w, After(w, step), id);
  }

  lemma CrashKeeps(w: World)
    requires CallsOk(w) && SessionsOk(w)
    ensures CallsOk(Crash(w)) && SessionsOk(Crash(w))
  {
    CallsKept(w, Crash(w), {}, {}, {});
    SessionsKept(w, Crash(w));
  }

  lemma SamePool(w: World, step: Step)
    requires Enabled(w, step) && !step.PutBack? && PoolStep(w, step).None?
    ensures After(w, step).pool == w.pool
  {
    match step
    case Start(id) =>
    case Lock(id) =>
    case Send(id, bytes) =>
    case EndAudio(id) =>
    case Wait(id) =>
    case Callback(c, n) =>
    case Message(c, message) =>
    case TurnEnd(c) =>
  }

  lemma PoolPart(w: World, step: Step)
    requires PI.Inv(w.pool) && Enabled(w, step)
    ensures PI.Inv(After(w, step).pool)
  {
    if step.PutBack? {
      if P.CanPutBack(w.pool, w.calls[step.id].at.m) {
        PI.InvStep(w.pool, P.PutBack(w.calls[step.id].at.m));
      }
    } else if PoolStep(w, step).Some? {
      PI.InvStep(w.pool, PoolStep(w, step).value);
    } else {
      SamePool(w, step);
    }
  }

  lemma AnyPoolStepInv(w: World, step: Step)
    requires Inv(w) && Enabled(w, step)
    requires step.ArriveFast? || step.WakeTake? || PoolOnly(step)
    ensures CallsOk(After(w, step)) && SessionsOk(After(w, step)) && !After(w, step).crashed
  {
    if PoolOnly(step) {
      PoolStepCalls(w, step);
      PoolStepSessions(w, step);
    } else {
      CheckoutInv(w, step);
    }
  }

  lemma CallsAndSessions(w: World, step: Step)
    requires Inv(w) && Enabled(w, step) && !step.PutBack?
    ensures CallsOk(After(w, step)) && SessionsOk(After(w, step)) && !After(w, step).crashed
  {
    if OfConnection(step) {
      ConnectionStepInv(w, step);
    } else if OfCall(step) {
      CallStepInv(w, step);
    } else if step.Start? {
      StartInv(w, step.id);
    } else {
      AnyPoolStepInv(w, step);
    }
  }

  lemma ReturnInv(w: World, step: Step)
    requires Inv(w) && Enabled(w, step) && step.PutBack?
    ensures CallsOk(After(w, step)) && SessionsOk(After(w, step))
    ensures After(w, step).crashed <==> w.connection[w.calls[step.id].at.m] in w.pool.closed
  {
    var m := w.calls[step.id].at.m;
    assert CallOk(w, step.id);
    PoolReturn(w.pool, w.connection[m], m);
    PutBackInv(w, step.id);
  }

  /** Every step keeps the invariant, and only one thing crashes the process: a call returning a
      session whose connection has closed. */
  lemma InvStep(w: World, step: Step)
    requires Inv(w) && Enabled(w, step)
    ensures Inv(After(w, step))
    ensures After(w, step).crashed <==>
            step.PutBack? && w.connection[w.calls[step.id].at.m] in w.pool.closed
  {
    PoolPart(w, step);
    if step.PutBack? {
      ReturnInv(w, step);
    } else {
      CallsAndSessions(w, step);
    }
  }
}
