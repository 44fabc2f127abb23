/** What the bridge promises, for any number of calls in any interleaving. */
module BridgeTheorems {
  import opened Bytes
  import opened Wrappers
  import opened RecoConfig
  import opened Bridge
  import opened BridgeInvariant
  import Handlers
  import P = PoolSpec

  lemma {:induction false} InvRun(w: World, steps: seq<Step>)
    requires Inv(w) && Run(w, steps)
    ensures Inv(Final(w, steps))
    decreases steps
  {
    if steps == [] {
    } else {
      InvStep(w, steps[0]);
      InvRun(After(w, steps[0]), steps[1..]);
    }
  }

  lemma StartInv()
    ensures Inv(START)
  {
  }

  ghost predicate Reachable(w: World) {
    exists steps :: Run(START, steps) && Final(START, steps) == w
  }

  lemma ReachableInv(w: World)
    requires Reachable(w)
    ensures Inv(w)
  {
    var steps :| Run(START, steps) && Final(START, steps) == w;
    StartInv();
    InvRun(START, steps);
  }

  lemma ReachableCall(w: World, id: string)
    requires Reachable(w) && id in w.calls
    ensures CallOk(w, id)
  {
    ReachableInv(w);
  }

  lemma ReachableBusy(w: World, c: nat)
    requires Reachable(w)
    ensures BusyWhenOut(w, c)
  {
    ReachableInv(w);
  }

  /** The call a stream was started for. */
  lemma TurnOfCall(w: World, m: nat)
    requires Reachable(w) && m in w.turns
    ensures m in w.sessions && m in w.connection
    ensures var id := w.turns[m].request;
            && id in w.calls && !w.calls[id].at.Waiting? && !w.calls[id].at.Holding? && w.calls[id].at.m == m
            && CallOk(w, id)
  {
    ReachableInv(w);
    assert m in w.sessions && Owned(w, m);
    assert CallOk(w, w.sessions[m].requestId);
  }

  /** Isolation. On every connection, however often it is reused, the bytes of a stream are a
      prefix, in order, of what its own call has sent; once the service has been told the end of
      the stream they are all of it. No other stream carries that call's bytes. */
  lemma Isolation(w: World, m: nat)
    requires Reachable(w) && m in w.turns
    ensures var turn := w.turns[m];
            && turn.request in w.calls
            && turn.bytes <= w.calls[turn.request].sent
            && (turn.eos ==> turn.bytes == w.calls[turn.request].sent)
            && (forall k | k in w.turns && w.turns[k].request == turn.request :: k == m)
  {
    TurnOfCall(w, m);
    var turn := w.turns[m];
    assert StreamOk(turn.request, w.calls[turn.request], w.sessions[m], turn);
    forall k | k in w.turns && w.turns[k].request == turn.request
      ensures k == m
    {
      TurnOfCall(w, k);
    }
  }

  /** Right connection. A stream runs on a connection opened with exactly its own call's mode,
      language and profanity filtering: its URL is the call's, and any admitted request with that
      URL wants the same three parameters. */
  lemma RightConnection(w: World, m: nat, g: Request)
    requires Reachable(w) && m in w.turns && Admit(g).OK?
    ensures w.turns[m].request in w.calls && m in w.connection && w.connection[m] in w.pool.entries
    ensures var call := w.calls[w.turns[m].request];
            && Admit(call.request).OK?
            && w.pool.entries[w.connection[m]].uri == UrlOf(call.request)
            && (UrlOf(g) == w.pool.entries[w.connection[m]].uri <==> Wanted(g) == Wanted(call.request))
  {
    TurnOfCall(w, m);
    UrlIsKey(g, w.calls[w.turns[m].request].request);
  }

  /** Responses. A call's handler is given exactly the messages of its own turn, in order, so its
      final results are those of that turn, whatever else the connection is used for. */
  lemma OwnMessages(w: World, m: nat, interim: bool)
    requires Reachable(w) && m in w.turns
    ensures w.turns[m].request in w.calls
    ensures var call := w.calls[w.turns[m].request];
            && call.inbox == w.turns[m].messages
            && Handlers.Finals(Handlers.StreamAll(Handlers.Stream(interim, "", []), call.inbox).written)
               == Handlers.SyncAll(w.turns[m].messages)
  {
    TurnOfCall(w, m);
    Handlers.StreamingAgreesWithSync(interim, w.turns[m].messages);
  }

  /** A call that has not started its stream has been given nothing. */
  lemma NoMessagesBeforeStart(w: World, id: string)
    requires Reachable(w) && id in w.calls && (w.calls[id].at.Waiting? || w.calls[id].at.Holding?)
    ensures w.calls[id].inbox == [] && forall m | m in w.turns :: w.turns[m].request != id
  {
    ReachableInv(w);
    assert CallOk(w, id);
    forall m | m in w.turns
      ensures w.turns[m].request != id
    {
      TurnOfCall(w, m);
    }
  }

  /** The call holds a session it has not returned. */
  predicate Outstanding(call: Call) {
    !call.at.Waiting? && !call.at.Done?
  }

  /** Two calls never hold the same connection at the same time. */
  lemma Exclusive(w: World, id: string, other: string)
    requires Reachable(w) && id in w.calls && other in w.calls && id != other
    requires Outstanding(w.calls[id]) && Outstanding(w.calls[other])
    ensures var m, k := w.calls[id].at.m, w.calls[other].at.m;
            && m in w.connection && k in w.connection
            && m != k && w.connection[m] != w.connection[k]
  {
    ReachableCall(w, id);
    ReachableCall(w, other);
  }

  /** While a turn is open, its connection is checked out by the call that started it: every
      message of the turn finds a session, and that session leads to that call's handler. */
  lemma OpenTurnFindsItsCall(w: World, c: nat)
    requires Reachable(w) && Carries(w, c) && w.turns[w.current[c]].open
    ensures var turn := w.turns[w.current[c]];
            && HasSession(w, c)
            && w.pool.entries[c].session == Some(w.current[c])
            && w.sessions[w.current[c]].handler == Some(turn.request)
            && turn.request in w.calls && Outstanding(w.calls[turn.request])
  {
    ReachableBusy(w, c);
    ReachableInv(w);
    var id := Carrier(w, c);
    OpenTurn(w, c, id);
  }

  /** waitForCompletion can return exactly when the turn end has arrived, and not before
      recognizeStream took completionLock. */
  lemma CompletionExactly(w: World, id: string)
    requires Reachable(w) && !w.crashed && id in w.calls && w.calls[id].at.Ended?
    ensures w.calls[id].at.m in w.turns
    ensures var turn := w.turns[w.calls[id].at.m];
            Enabled(w, Wait(id)) <==> !turn.open && !turn.early
  {
    ReachableCall(w, id);
  }

  /** So a session is put back only after the end of its turn. */
  lemma ReturnedAfterTurnEnd(w: World, id: string)
    requires Reachable(w) && id in w.calls && (w.calls[id].at.Completed? || w.calls[id].at.Done?)
    ensures w.calls[id].at.m in w.turns && !w.turns[w.calls[id].at.m].open
  {
    ReachableCall(w, id);
  }

  /** A turn end is too early exactly when its call has started the stream and not yet taken
      completionLock. */
  lemma EarlyExactly(w: World, c: nat)
    requires Reachable(w) && Carries(w, c) && w.turns[w.current[c]].open
    ensures w.turns[w.current[c]].request in w.calls && w.current[c] in FinishTurn(w, c).turns
    ensures FinishTurn(w, c).turns[w.current[c]].early <==>
            w.calls[w.turns[w.current[c]].request].at.Started?
  {
    TurnOfCall(w, w.current[c]);
    OpenTurnFindsItsCall(w, c);
  }

  /** Nothing in the bridge prevents it: any call that is about to start its stream on an open
      connection can meet a turn end that is too early. */
  lemma EarlyPossible(w: World, id: string)
    requires Reachable(w) && !w.crashed && id in w.calls && w.calls[id].at.Holding?
    requires Known(w, id) && w.connection[w.calls[id].at.m] in w.pool.sessions
    ensures Enabled(w, Step.Start(id))
    ensures var m, c := w.calls[id].at.m, w.connection[w.calls[id].at.m];
            var started := After(w, Step.Start(id));
            Enabled(started, TurnEnd(c)) && m in After(started, TurnEnd(c)).turns
            && After(started, TurnEnd(c)).turns[m].early
  {
    ReachableCall(w, id);
    ReachableBusy(w, w.connection[w.calls[id].at.m]);
    JustStarted(w, id);
    EarlyFromStarted(After(w, Step.Start(id)), w.connection[w.calls[id].at.m]);
  }

  lemma JustStarted(w: World, id: string)
    requires Enabled(w, Step.Start(id)) && CallOk(w, id)
    ensures var v := After(w, Step.Start(id));
            var m, c := w.calls[id].at.m, w.connection[w.calls[id].at.m];
            && !v.crashed && v.pool == w.pool
            && m in v.sessions && !v.sessions[m].locked
            && c in v.current && v.current[c] == m && m in v.turns && v.turns[m].open
  {
  }

  lemma EarlyFromStarted(v: World, c: nat)
    requires !v.crashed && c in v.pool.sessions && c in v.pool.entries && c in v.pool.busy
    requires c in v.current && v.current[c] in v.sessions && !v.sessions[v.current[c]].locked
    requires v.current[c] in v.turns && v.turns[v.current[c]].open
    requires v.pool.entries[c].session == Some(v.current[c])
    ensures Enabled(v, TurnEnd(c)) && v.current[c] in After(v, TurnEnd(c)).turns
    ensures After(v, TurnEnd(c)).turns[v.current[c]].early
  {
  }

  /** A turn end that comes before the lock is lost for good: the call never completes, in any
      run, and its connection is never returned. */
  lemma EarlyTurnEndStrands(w: World, steps: seq<Step>, m: nat)
    requires Reachable(w) && m in w.turns && w.turns[m].early && Run(w, steps)
    ensures var calls, id := Final(w, steps).calls, w.turns[m].request;
            id in calls && (calls[id].at.Started? || calls[id].at.Streaming? || calls[id].at.Ended?)
  {
    TurnOfCall(w, m);
    ReachableInv(w);
    EarlyRun(w, steps, w.turns[m].request);
  }

  lemma {:induction false} EarlyRun(w: World, steps: seq<Step>, id: string)
    requires Inv(w) && Run(w, steps)
    requires id in w.calls && !w.calls[id].at.Waiting?
    requires w.calls[id].at.m in w.turns && w.turns[w.calls[id].at.m].early
    ensures var v := Final(w, steps);
            id in v.calls && (v.calls[id].at.Started? || v.calls[id].at.Streaming? || v.calls[id].at.Ended?)
    decreases steps
  {
    assert CallOk(w, id);
    if steps == [] {
    } else {
      InvStep(w, steps[0]);
      EarlyStays(w, steps[0], id);
      EarlyRun(After(w, steps[0]), steps[1..], id);
    }
  }

  lemma EarlyStays(w: World, step: Step, id: string)
    requires Inv(w) && Enabled(w, step)
    requires id in w.calls && !w.calls[id].at.Waiting?
    requires w.calls[id].at.m in w.turns && w.turns[w.calls[id].at.m].early
    ensures var v := After(w, step);
            && id in v.calls && !v.calls[id].at.Waiting? && v.calls[id].at.m == w.calls[id].at.m
            && v.calls[id].at.m in v.turns && v.turns[v.calls[id].at.m].early
  {
    EarlyFacts(w, id);
    if step.Start? {
      OnlyHoldingStarts(w, step);
    }
    SessionStays(w, step, id);
    FlagStays(w, step, w.calls[id].at.m);
  }

  lemma EarlyFacts(w: World, id: string)
    requires Inv(w) && id in w.calls && !w.calls[id].at.Waiting?
    requires w.calls[id].at.m in w.turns && w.turns[w.calls[id].at.m].early
    ensures id !in w.pool.waiting && !w.turns[w.calls[id].at.m].open
  {
    assert CallOk(w, id);
  }

  lemma OnlyHoldingStarts(w: World, step: Step)
    requires CallsOk(w) && Enabled(w, step) && step.Start?
    ensures w.calls[step.id].at.m !in w.turns
  {
    assert CallOk(w, step.id);
  }

  lemma SessionStays(w: World, step: Step, id: string)
    requires Enabled(w, step) && id in w.calls && !w.calls[id].at.Waiting? && id !in w.pool.waiting
    ensures var v := After(w, step);
            id in v.calls && !v.calls[id].at.Waiting? && v.calls[id].at.m == w.calls[id].at.m
  {
  }

  lemma FlagStays(w: World, step: Step, m: nat)
    requires Enabled(w, step) && m in w.turns && w.turns[m].early && !w.turns[m].open
    requires step.Start? ==> w.calls[step.id].at.m != m
    ensures m in After(w, step).turns && After(w, step).turns[m].early
  {
  }

  /** The assertions and null pointers on the way: the process crashes exactly when a call
      returns a session whose connection closed while it was checked out. */
  lemma CrashExactly(w: World, step: Step)
    requires Reachable(w) && Enabled(w, step)
    ensures After(w, step).crashed <==>
            step.PutBack? && w.connection[w.calls[step.id].at.m] in w.pool.closed
  {
    ReachableInv(w);
    InvStep(w, step);
  }

  /** Any completed call whose connection is still open can meet this: the connection closes, and
      the call returns its session. */
  lemma CrashPossible(w: World, id: string)
    requires Reachable(w) && !w.crashed && id in w.calls && w.calls[id].at.Completed?
    requires Known(w, id) && w.connection[w.calls[id].at.m] in w.pool.sessions
    ensures var c := w.connection[w.calls[id].at.m];
            && Enabled(w, Close(c))
            && Enabled(After(w, Close(c)), PutBack(id))
            && After(After(w, Close(c)), PutBack(id)).crashed
  {
    ReachableInv(w);
    var c := w.connection[w.calls[id].at.m];
    assert c in w.pool.entries;
    JustClosed(w, c);
    InvStep(w, Close(c));
    CrashOnReturn(After(w, Close(c)), id);
  }

  lemma JustClosed(w: World, c: nat)
    requires Enabled(w, Close(c))
    ensures var v := After(w, Close(c));
            && !v.crashed && v.calls == w.calls && v.sessions == w.sessions && v.connection == w.connection
            && c in v.pool.closed
  {
  }

  lemma CrashOnReturn(w: World, id: string)
    requires Inv(w) && !w.crashed && Known(w, id) && w.calls[id].at.Completed?
    requires w.connection[w.calls[id].at.m] in w.pool.closed
    ensures Enabled(w, PutBack(id)) && After(w, PutBack(id)).crashed
  {
    InvStep(w, PutBack(id));
  }

  /** While no connection closes, no run crashes. */
  lemma {:induction false} NoCloseNoCrash(w: World, steps: seq<Step>)
    requires Inv(w) && !w.crashed && w.pool.closed == {} && Run(w, steps)
    requires forall step | step in steps :: !step.Close?
    ensures !Final(w, steps).crashed
    decreases steps
  {
    if steps == [] {
    } else {
      InvStep(w, steps[0]);
      assert steps[0] in steps;
      ClosedKept(w, steps[0]);
      assert forall step | step in steps[1..] :: step in steps;
      NoCloseNoCrash(After(w, steps[0]), steps[1..]);
    }
  }

  lemma ClosedKept(w: World, step: Step)
    requires Enabled(w, step) && !step.Close?
    ensures After(w, step).pool.closed == w.pool.closed
  {
    if step.PutBack? {
    } else if PoolStep(w, step).Some? {
      PoolClosedKept(w.pool, PoolStep(w, step).value);
    } else {
      SamePool(w, step);
    }
  }

  lemma PoolClosedKept(s: P.Pool<nat, nat>, step: P.Step<nat, nat>)
    requires P.Enabled(s, step) && !step.Close?
    ensures P.After(s, step).closed == s.closed
  {
  }
}
