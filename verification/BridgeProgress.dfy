/** Calls can be served: from the start of the bridge, and on any open connection, there is a run
    that takes a call to its end. */
module BridgeProgress {
  import opened Bytes
  import opened Wrappers
  import opened RecoConfig
  import opened SessionSpec
  import opened Bridge
  import opened BridgeInvariant
  import opened BridgeTheorems
  import Handlers
  import P = PoolSpec
  import PI = PoolInvariant
  import Q = QueueSpec

  /** Connection c is open and checked out under handle m. */
  predicate OpenFor(s: P.Pool<nat, nat>, c: nat, m: nat) {
    && c in s.sessions && c in s.entries && c in s.busy && s.entries[c].session == Some(m)
    && m in s.bySession && s.bySession[m] == c
  }

  /** A run has brought the call, its session and its stream to these states. */
  predicate Reaches(w: World, steps: seq<Step>, id: string, c: nat, call: Call, s: Session, turn: Turn) {
    && Run(w, steps)
    && var v := Final(w, steps);
       && !v.crashed && v.pool == w.pool
       && id in v.calls && v.calls[id] == call && !call.at.Waiting?
       && var m := call.at.m;
          && OpenFor(w.pool, c, m)
          && m in v.sessions && v.sessions[m] == s && m in v.connection && v.connection[m] == c
          && m in v.turns && v.turns[m] == turn && c in v.current && v.current[c] == m
  }

  lemma {:induction false} Extend(w: World, steps: seq<Step>, step: Step)
    requires Run(w, steps) && Enabled(Final(w, steps), step)
    ensures Run(w, steps + [step]) && Final(w, steps + [step]) == After(Final(w, steps), step)
    decreases steps
  {
    var all := steps + [step];
    if steps == [] {
      assert all == [step] && Run(After(w, step), all[1..]);
      assert all[1..] == [];
    } else {
      assert all[0] == steps[0] && all[1..] == steps[1..] + [step];
      Extend(After(w, steps[0]), steps[1..], step);
    }
  }

  lemma Starts(w: World, id: string, c: nat, call: Call)
    requires !w.crashed && Known(w, id) && w.calls[id] == call && call.at.Holding?
    requires OpenFor(w.pool, c, call.at.m) && w.connection[call.at.m] == c
    requires w.sessions[call.at.m] == Fresh(id)
    ensures Reaches(w, [Start(id)], id, c, call.(at := Started(call.at.m)),
                    Session(id, Q.EMPTY, Some(id), true, false, false), Turn(id, [], false, true, false, []))
  {
    Extend(w, [], Start(id));
    assert [] + [Start(id)] == [Start(id)];
  }

  lemma Locks(w: World, steps: seq<Step>, id: string, c: nat, call: Call, s: Session, turn: Turn)
    requires Reaches(w, steps, id, c, call, s, turn) && call.at.Started? && !s.locked
    ensures Reaches(w, steps + [Step.Lock(id)], id, c, call.(at := Stage.Streaming(call.at.m)), s.(locked := true), turn)
  {
    Extend(w, steps, Step.Lock(id));
  }

  lemma Sends(w: World, steps: seq<Step>, id: string, c: nat, call: Call, s: Session, turn: Turn, bytes: seq<byte>)
    requires Reaches(w, steps, id, c, call, s, turn) && call.at.Streaming?
    requires s.started && !s.pendingAudio && Q.CanPut(s.queue) && s.queue.content == [] && call.sent == []
    ensures Reaches(w, steps + [Step.Send(id, bytes)], id, c, call.(sent := bytes),
                    s.(queue := s.queue.(content := bytes)), turn)
  {
    assert [] + bytes == bytes;
    Extend(w, steps, Step.Send(id, bytes));
  }

  lemma Ends(w: World, steps: seq<Step>, id: string, c: nat, call: Call, s: Session, turn: Turn)
    requires Reaches(w, steps, id, c, call, s, turn) && call.at.Streaming? && s.started
    ensures Reaches(w, steps + [Step.EndAudio(id)], id, c, call.(at := Ended(call.at.m)),
                    s.(queue := s.queue.(ended := true)), turn)
  {
    Extend(w, steps, Step.EndAudio(id));
  }

  /** A callback that asks for more than there is. */
  lemma HandsOut(w: World, steps: seq<Step>, id: string, c: nat, call: Call, s: Session, turn: Turn, n: nat)
    requires Reaches(w, steps, id, c, call, s, turn)
    requires s.queue.ended && |s.queue.content| < n
    ensures Reaches(w, steps + [Step.Callback(c, n)], id, c, call,
                    s.(queue := s.queue.(content := [], processed := s.queue.processed + |s.queue.content|)),
                    turn.(bytes := turn.bytes + s.queue.content, eos := turn.eos || s.queue.content == []))
  {
    var content := s.queue.content;
    assert content[..|content|] == content && content[|content|..] == [];
    Extend(w, steps, Step.Callback(c, n));
  }

  lemma Says(w: World, steps: seq<Step>, id: string, c: nat, call: Call, s: Session, turn: Turn, message: Handlers.Message)
    requires Reaches(w, steps, id, c, call, s, turn) && turn.open && s.handler == Some(id)
    ensures Reaches(w, steps + [Step.Message(c, message)], id, c, call.(inbox := call.inbox + [message]), s,
                    turn.(messages := turn.messages + [message]))
  {
    Extend(w, steps, Step.Message(c, message));
  }

  lemma EndsTurn(w: World, steps: seq<Step>, id: string, c: nat, call: Call, s: Session, turn: Turn)
    requires Reaches(w, steps, id, c, call, s, turn) && turn.open && s.locked
    ensures Reaches(w, steps + [Step.TurnEnd(c)], id, c, call, s.(locked := false), turn.(open := false, early := false))
  {
    Extend(w, steps, Step.TurnEnd(c));
  }

  lemma Waits(w: World, steps: seq<Step>, id: string, c: nat, call: Call, s: Session, turn: Turn)
    requires Reaches(w, steps, id, c, call, s, turn) && call.at.Ended? && !s.locked
    ensures Reaches(w, steps + [Step.Wait(id)], id, c, call.(at := Completed(call.at.m)), s.(locked := true), turn)
  {
    Extend(w, steps, Step.Wait(id));
  }

  lemma Speaks(w: World, id: string, c: nat, call: Call, bytes: seq<byte>)
    requires !w.crashed && Known(w, id) && w.calls[id] == call && call.at.Holding?
    requires OpenFor(w.pool, c, call.at.m) && w.connection[call.at.m] == c
    requires w.sessions[call.at.m] == Fresh(id) && call.sent == [] && call.inbox == []
    ensures Reaches(w, [Start(id), Step.Lock(id), Step.Send(id, bytes), Step.EndAudio(id)], id, c,
                    Call(call.request, Ended(call.at.m), bytes, []),
                    Session(id, Q.EMPTY.(content := bytes, ended := true), Some(id), true, false, true),
                    Turn(id, [], false, true, false, []))
  {
    var s, turn := Session(id, Q.EMPTY, Some(id), true, false, false), Turn(id, [], false, true, false, []);
    var m := call.at.m;
    Starts(w, id, c, call);
    Locks(w, [Start(id)], id, c, call.(at := Started(m)), s, turn);
    assert [Start(id)] + [Step.Lock(id)] == [Start(id), Step.Lock(id)];
    Sends(w, [Start(id), Step.Lock(id)], id, c, call.(at := Stage.Streaming(m)), s.(locked := true), turn, bytes);
    assert [Start(id), Step.Lock(id)] + [Step.Send(id, bytes)] == [Start(id), Step.Lock(id), Step.Send(id, bytes)];
    Ends(w, [Start(id), Step.Lock(id), Step.Send(id, bytes)], id, c, call.(at := Stage.Streaming(m), sent := bytes),
         s.(locked := true, queue := Q.EMPTY.(content := bytes)), turn);
    assert [Start(id), Step.Lock(id), Step.Send(id, bytes)] + [Step.EndAudio(id)]
        == [Start(id), Step.Lock(id), Step.Send(id, bytes), Step.EndAudio(id)];
  }

  /** The service drains the stream and is told its end. */
  lemma Drains(w: World, steps: seq<Step>, id: string, c: nat, call: Call, s: Session)
    requires Reaches(w, steps, id, c, call, s, Turn(id, [], false, true, false, []))
    requires s.queue.ended
    ensures var bytes := s.queue.content;
            Reaches(w, steps + [Step.Callback(c, |bytes| + 1)] + [Step.Callback(c, 1)], id, c, call,
                    s.(queue := s.queue.(content := [], processed := s.queue.processed + |bytes|)),
                    Turn(id, bytes, true, true, false, []))
  {
    var bytes := s.queue.content;
    var drained := s.(queue := s.queue.(content := [], processed := s.queue.processed + |bytes|));
    assert [] + bytes == bytes && bytes + [] == bytes;
    HandsOut(w, steps, id, c, call, s, Turn(id, [], false, true, false, []), |bytes| + 1);
    HandsOut(w, steps + [Step.Callback(c, |bytes| + 1)], id, c, call, drained,
             Turn(id, bytes, bytes == [], true, false, []), 1);
  }

  lemma Listens(w: World, steps: seq<Step>, id: string, c: nat, call: Call, s: Session, message: Handlers.Message)
    requires Reaches(w, steps, id, c, call, s, Turn(id, [], false, true, false, []))
    requires call.at.Ended? && call.inbox == [] && s.queue.ended && s.locked && s.handler == Some(id)
    ensures var bytes := s.queue.content;
            Reaches(w, steps + [Step.Callback(c, |bytes| + 1)] + [Step.Callback(c, 1)] + [Step.Message(c, message)]
                       + [Step.TurnEnd(c)] + [Step.Wait(id)],
                    id, c, call.(at := Completed(call.at.m), inbox := [message]),
                    s.(queue := s.queue.(content := [], processed := s.queue.processed + |bytes|)),
                    Turn(id, bytes, true, false, false, [message]))
  {
    var bytes := s.queue.content;
    var drained := s.(queue := s.queue.(content := [], processed := s.queue.processed + |bytes|));
    var t := Turn(id, bytes, true, true, false, []);
    Drains(w, steps, id, c, call, s);
    var steps2 := steps + [Step.Callback(c, |bytes| + 1)] + [Step.Callback(c, 1)];
    assert [] + [message] == [message];
    Says(w, steps2, id, c, call, drained, t, message);
    var steps3 := steps2 + [Step.Message(c, message)];
    EndsTurn(w, steps3, id, c, call.(inbox := [message]), drained, t.(messages := [message]));
    Waits(w, steps3 + [Step.TurnEnd(c)], id, c, call.(inbox := [message]), drained.(locked := false),
          t.(messages := [message], open := false));
  }

  lemma Returns(w: World, steps: seq<Step>, id: string, c: nat, call: Call, s: Session, turn: Turn)
    requires Reaches(w, steps, id, c, call, s, turn) && call.at.Completed?
    ensures Run(w, steps + [Step.PutBack(id)])
    ensures var v := Final(w, steps + [Step.PutBack(id)]);
            && !v.crashed && id in v.calls && v.calls[id] == call.(at := Done(call.at.m))
            && call.at.m in v.turns && v.turns[call.at.m] == turn
            && c in P.Avail(v.pool, w.pool.entries[c].uri)
  {
    Extend(w, steps, Step.PutBack(id));
  }

  // Main results

  /** The run of a call that holds a session: its stream, one answer of the service, its return. */
  function WholeCall(id: string, c: nat, bytes: seq<byte>, message: Handlers.Message): seq<Step> {
    [Start(id), Step.Lock(id), Step.Send(id, bytes), Step.EndAudio(id)]
    + [Step.Callback(c, |bytes| + 1)] + [Step.Callback(c, 1)] + [Step.Message(c, message)]
    + [Step.TurnEnd(c)] + [Step.Wait(id)] + [Step.PutBack(id)]
  }

  /** Any call that holds a session on an open connection, in any reachable world, can be served
      to its end: the service gets exactly its bytes and the end of the stream, the call gets what
      the service says, and the connection is available again for its URI. */
  lemma CallCompletes(w: World, id: string, bytes: seq<byte>, message: Handlers.Message)
    requires Reachable(w) && !w.crashed && id in w.calls && w.calls[id].at.Holding?
    requires Known(w, id) && w.connection[w.calls[id].at.m] in w.pool.sessions
    ensures var m, c := w.calls[id].at.m, w.connection[w.calls[id].at.m];
            && Run(w, WholeCall(id, c, bytes, message))
            && var v := Final(w, WholeCall(id, c, bytes, message));
               && !v.crashed
               && id in v.calls && v.calls[id] == Call(w.calls[id].request, Done(m), bytes, [message])
               && m in v.turns && v.turns[m] == Turn(id, bytes, true, false, false, [message])
               && Admit(w.calls[id].request).OK?
               && c in P.Avail(v.pool, UrlOf(w.calls[id].request))
  {
    var call := w.calls[id];
    var m, c := call.at.m, w.connection[call.at.m];
    HoldsOpen(w, id);
    Speaks(w, id, c, call, bytes);
    var steps := [Start(id), Step.Lock(id), Step.Send(id, bytes), Step.EndAudio(id)];
    var s := Session(id, Q.EMPTY.(content := bytes, ended := true), Some(id), true, false, true);
    Listens(w, steps, id, c, Call(call.request, Ended(m), bytes, []), s, message);
    Returns(w, steps + [Step.Callback(c, |bytes| + 1)] + [Step.Callback(c, 1)] + [Step.Message(c, message)]
               + [Step.TurnEnd(c)] + [Step.Wait(id)],
            id, c, Call(call.request, Completed(m), bytes, [message]),
            s.(queue := s.queue.(content := [], processed := s.queue.processed + |bytes|)),
            Turn(id, bytes, true, false, false, [message]));
  }

  lemma HoldsOpen(w: World, id: string)
    requires Reachable(w) && id in w.calls && w.calls[id].at.Holding?
    requires Known(w, id) && w.connection[w.calls[id].at.m] in w.pool.sessions
    ensures var call, c := w.calls[id], w.connection[w.calls[id].at.m];
            && OpenFor(w.pool, c, call.at.m) && w.sessions[call.at.m] == Fresh(id)
            && call.sent == [] && call.inbox == []
            && Admit(call.request).OK? && w.pool.entries[c].uri == UrlOf(call.request)
  {
    ReachableInv(w);
    assert CallOk(w, id);
    PI.PutBackExactly(w.pool, w.connection[w.calls[id].at.m], w.calls[id].at.m);
  }

  lemma PoolServes(s: P.Pool<nat, nat>, id: string, uri: string, c: nat, m: nat)
    requires PI.Inv(s) && id !in s.waiting && P.Avail(s, uri) == {} && c !in s.entries && m !in s.issued
    ensures P.Enabled(s, P.GetSlow(id, uri, c))
    ensures var s1 := P.After(s, P.GetSlow(id, uri, c));
            && P.Enabled(s1, P.Connect(c))
            && var s2 := P.After(s1, P.Connect(c));
               && P.Enabled(s2, P.ClientReady(c))
               && var s3 := P.After(s2, P.ClientReady(c));
                  && P.Enabled(s3, P.WakeTake(id, c, m))
                  && c in P.After(s3, P.WakeTake(id, c, m)).sessions
  {
    assert c !in s.ready;
  }

  /** A run that ends in world v. */
  predicate Brings(w: World, steps: seq<Step>, v: World) {
    Run(w, steps) && Final(w, steps) == v
  }

  lemma Arrives(w: World, id: string, g: Request, c: nat)
    requires !w.crashed && id !in w.calls && Admit(g).OK? && P.Enabled(w.pool, P.GetSlow(id, UrlOf(g), c))
    ensures Brings(w, [ArriveSlow(id, g, c)],
                   w.(pool := P.After(w.pool, P.GetSlow(id, UrlOf(g), c)), calls := w.calls[id := Call(g, Waiting, [], [])]))
  {
    Extend(w, [], ArriveSlow(id, g, c));
    assert [] + [ArriveSlow(id, g, c)] == [ArriveSlow(id, g, c)];
  }

  lemma PoolMoves(w: World, steps: seq<Step>, v: World, step: Step)
    requires Brings(w, steps, v) && !v.crashed && (step.Connect? || step.Ready?)
    requires P.Enabled(v.pool, PoolStep(v, step).value)
    ensures Brings(w, steps + [step], v.(pool := P.After(v.pool, PoolStep(v, step).value)))
  {
    Extend(w, steps, step);
  }

  lemma Takes(w: World, steps: seq<Step>, v: World, id: string, c: nat, m: nat)
    requires Brings(w, steps, v) && !v.crashed && id in v.calls && P.Enabled(v.pool, P.WakeTake(id, c, m))
    ensures Brings(w, steps + [Step.WakeTake(id, c, m)],
                   Receive(v, P.After(v.pool, P.WakeTake(id, c, m)), id, v.calls[id], c, m))
  {
    Extend(w, steps, Step.WakeTake(id, c, m));
  }

  /** The pool's part of a first call. */
  predicate PoolRun(s: P.Pool<nat, nat>, s1: P.Pool<nat, nat>, s2: P.Pool<nat, nat>, s3: P.Pool<nat, nat>,
                    id: string, uri: string, c: nat, m: nat) {
    && P.Enabled(s, P.GetSlow(id, uri, c)) && s1 == P.After(s, P.GetSlow(id, uri, c))
    && P.Enabled(s1, P.Connect(c)) && s2 == P.After(s1, P.Connect(c))
    && P.Enabled(s2, P.ClientReady(c)) && s3 == P.After(s2, P.ClientReady(c))
    && P.Enabled(s3, P.WakeTake(id, c, m))
  }

  lemma FirstCall(w: World, s1: P.Pool<nat, nat>, s2: P.Pool<nat, nat>, s3: P.Pool<nat, nat>,
                  id: string, g: Request, c: nat, m: nat)
    requires !w.crashed && id !in w.calls && Admit(g).OK? && PoolRun(w.pool, s1, s2, s3, id, UrlOf(g), c, m)
    ensures Brings(w, [ArriveSlow(id, g, c)] + [Step.Connect(c)] + [Step.Ready(c)] + [Step.WakeTake(id, c, m)],
                   Receive(w.(pool := s3, calls := w.calls[id := Call(g, Waiting, [], [])]),
                           P.After(s3, P.WakeTake(id, c, m)), id, Call(g, Waiting, [], []), c, m))
  {
    var w1 := w.(pool := s1, calls := w.calls[id := Call(g, Waiting, [], [])]);
    Arrives(w, id, g, c);
    PoolMoves(w, [ArriveSlow(id, g, c)], w1, Step.Connect(c));
    PoolMoves(w, [ArriveSlow(id, g, c)] + [Step.Connect(c)], w1.(pool := s2), Step.Ready(c));
    Takes(w, [ArriveSlow(id, g, c)] + [Step.Connect(c)] + [Step.Ready(c)], w1.(pool := s3), id, c, m);
  }

  /** And any admitted request gets that far, in every reachable world that has nothing available
      for its URL: a connection is created for it, connects, becomes ready and is handed to it. */
  lemma NewCallServed(w: World, id: string, g: Request, c: nat, m: nat)
    requires Reachable(w) && !w.crashed && id !in w.calls && Admit(g).OK?
    requires P.Avail(w.pool, UrlOf(g)) == {} && c !in w.pool.entries && m !in w.pool.issued
    ensures var steps := [ArriveSlow(id, g, c)] + [Step.Connect(c)] + [Step.Ready(c)] + [Step.WakeTake(id, c, m)];
            && Run(w, steps)
            && var v := Final(w, steps);
               && !v.crashed && Known(v, id) && v.calls[id] == Call(g, Holding(m), [], [])
               && v.connection[m] == c && c in v.pool.sessions
  {
    ReachableInv(w);
    PoolServes(w.pool, id, UrlOf(g), c, m);
    var s1 := P.After(w.pool, P.GetSlow(id, UrlOf(g), c));
    var s2 := P.After(s1, P.Connect(c));
    FirstCall(w, s1, s2, P.After(s2, P.ClientReady(c)), id, g, c, m);
  }

  /** Or at once, when a connection is available. */
  lemma AvailableCallServed(w: World, id: string, g: Request, c: nat, m: nat)
    requires Reachable(w) && !w.crashed && id !in w.calls && Admit(g).OK?
    requires c in P.Avail(w.pool, UrlOf(g)) && m !in w.pool.issued
    ensures Enabled(w, ArriveFast(id, g, c, m))
    ensures var v := After(w, ArriveFast(id, g, c, m));
            && !v.crashed && Known(v, id) && v.calls[id] == Call(g, Holding(m), [], [])
            && v.connection[m] == c && c in v.pool.sessions
  {
    ReachableInv(w);
    PoolTakes(w.pool, id, UrlOf(g), c, m);
  }

  lemma PoolTakes(s: P.Pool<nat, nat>, id: string, uri: string, c: nat, m: nat)
    requires PI.Inv(s) && id !in s.waiting && c in P.Avail(s, uri) && m !in s.issued
    ensures P.Enabled(s, P.GetFast(id, uri, c, m))
    ensures c in P.After(s, P.GetFast(id, uri, c, m)).sessions
  {
    assert c in s.entries && PI.IsAvailable(s, uri, c);
  }
}
