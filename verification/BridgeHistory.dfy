/** The bridge told by the steps of its runs: what a call has sent, what the service has been
    given and has said, and that a call can be served to its end. */
module BridgeHistory {
  import opened Bytes
  import opened Wrappers
  import opened RecoConfig
  import opened SessionSpec
  import opened Bridge
  import opened BridgeInvariant
  import opened BridgeTheorems
  import Handlers
  import P = PoolSpec
  import PI = PoolInvariant

  /** The bytes a call gives to sendAudio in a run, in order. */
  function SentBy(steps: seq<Step>, id: string): seq<byte> {
    if steps == [] then []
    else (if steps[0].Send? && steps[0].id == id then steps[0].bytes else []) + SentBy(steps[1..], id)
  }

  /** What the service says in a run on the connection that carries the stream of session m. */
  function Said(w: World, steps: seq<Step>, m: nat): seq<Handlers.Message>
    requires Run(w, steps)
    decreases steps
  {
    if steps == [] then []
    else
      (if steps[0].Message? && w.current[steps[0].c] == m then [steps[0].message] else [])
      + Said(After(w, steps[0]), steps[1..], m)
  }

  function SentOf(w: World, id: string): seq<byte> {
    if id in w.calls then w.calls[id].sent else []
  }

  function MessagesOf(w: World, m: nat): seq<Handlers.Message> {
    if m in w.turns then w.turns[m].messages else []
  }

  /** The call has marked the end of its audio. */
  predicate AudioEnded(w: World, id: string) {
    id in w.calls && (w.calls[id].at.Ended? || w.calls[id].at.Completed? || w.calls[id].at.Done?)
  }

  /** What the invariant says of a step: no crash but on a return, streams start once, and only
      callers that wait are given a session. */
  ghost predicate Regular(w: World, step: Step)
    requires Enabled(w, step)
  {
    && (step.PutBack? || !After(w, step).crashed)
    && (step.Start? ==> w.calls[step.id].at.m !in w.turns)
    && (step.WakeTake? ==> w.calls[step.id].at.Waiting?)
  }

  lemma InvRegular(w: World, step: Step)
    requires Inv(w) && Enabled(w, step)
    ensures Inv(After(w, step)) && Regular(w, step)
  {
    InvStep(w, step);
    if step.Start? {
      OnlyHoldingStarts(w, step);
    } else if step.WakeTake? {
      assert Owner(w, step.id);
    }
  }

  ghost predicate Owner(w: World, id: string) {
    id in w.pool.waiting && id in w.calls && w.calls[id].at.Waiting?
  }

  lemma SentStep(w: World, step: Step, id: string)
    requires Enabled(w, step) && Regular(w, step)
    ensures SentOf(After(w, step), id)
            == SentOf(w, id) + if step.Send? && step.id == id then step.bytes else []
  {
  }

  lemma EndedStep(w: World, step: Step, id: string)
    requires Enabled(w, step) && Regular(w, step)
    ensures AudioEnded(After(w, step), id) <==> AudioEnded(w, id) || step == EndAudio(id)
  {
  }

  lemma SaidStep(w: World, step: Step, m: nat)
    requires Enabled(w, step) && Regular(w, step)
    ensures MessagesOf(After(w, step), m)
            == MessagesOf(w, m) + if step.Message? && w.current[step.c] == m then [step.message] else []
  {
  }

  ghost predicate RegularRun(w: World, steps: seq<Step>)
    requires Run(w, steps)
    decreases steps
  {
    steps == [] || (Regular(w, steps[0]) && RegularRun(After(w, steps[0]), steps[1..]))
  }

  lemma {:induction false} InvRegularRun(w: World, steps: seq<Step>)
    requires Inv(w) && Run(w, steps)
    ensures RegularRun(w, steps)
    decreases steps
  {
    if steps == [] {
    } else {
      InvRegular(w, steps[0]);
      InvRegularRun(After(w, steps[0]), steps[1..]);
    }
  }

  lemma Grouped<T>(a: seq<T>, b: seq<T>, c: seq<T>)
    ensures (a + b) + c == a + (b + c)
  {
  }

  lemma {:induction false} SentRun(w: World, steps: seq<Step>, id: string)
    requires Run(w, steps) && RegularRun(w, steps)
    ensures SentOf(Final(w, steps), id) == SentOf(w, id) + SentBy(steps, id)
    decreases steps
  {
    if steps == [] {
    } else {
      var now := if steps[0].Send? && steps[0].id == id then steps[0].bytes else [];
      SentStep(w, steps[0], id);
      SentRun(After(w, steps[0]), steps[1..], id);
      Grouped(SentOf(w, id), now, SentBy(steps[1..], id));
    }
  }

  lemma {:induction false} EndedRun(w: World, steps: seq<Step>, id: string)
    requires Run(w, steps) && RegularRun(w, steps)
    ensures AudioEnded(Final(w, steps), id) <==> AudioEnded(w, id) || EndAudio(id) in steps
    decreases steps
  {
    if steps == [] {
    } else {
      EndedStep(w, steps[0], id);
      EndedRun(After(w, steps[0]), steps[1..], id);
    }
  }

  lemma {:induction false} SaidRun(w: World, steps: seq<Step>, m: nat)
    requires Run(w, steps) && RegularRun(w, steps)
    ensures MessagesOf(Final(w, steps), m) == MessagesOf(w, m) + Said(w, steps, m)
    decreases steps
  {
    if steps == [] {
    } else {
      var now := if steps[0].Message? && w.current[steps[0].c] == m then [steps[0].message] else [];
      SaidStep(w, steps[0], m);
      SaidRun(After(w, steps[0]), steps[1..], m);
      Grouped(MessagesOf(w, m), now, Said(After(w, steps[0]), steps[1..], m));
    }
  }

  lemma RunReachable(steps: seq<Step>)
    requires Run(START, steps)
    ensures Reachable(Final(START, steps)) && RegularRun(START, steps)
  {
    BridgeTheorems.StartInv();
    InvRegularRun(START, steps);
  }

  // Main results

  /** End to end, for every run: what the service has been given in a stream is a prefix of the
      bytes its call gave to sendAudio in the run, and all of them, after an endAudio, once it has
      been told the end of the stream; what its call's handler has been given is exactly what the
      service said on that stream's connection while it carried it, in order. */
  lemma EndToEnd(steps: seq<Step>, m: nat)
    requires Run(START, steps) && m in Final(START, steps).turns
    ensures var w, turn := Final(START, steps), Final(START, steps).turns[m];
            && turn.bytes <= SentBy(steps, turn.request)
            && (turn.eos ==> EndAudio(turn.request) in steps && turn.bytes == SentBy(steps, turn.request))
            && turn.request in w.calls && w.calls[turn.request].inbox == Said(START, steps, m)
  {
    var w, id := Final(START, steps), Final(START, steps).turns[m].request;
    RunReachable(steps);
    SentRun(START, steps, id);
    EndedRun(START, steps, id);
    SaidRun(START, steps, m);
    Isolation(w, m);
    TurnHeard(w, m);
    assert [] + SentBy(steps, id) == SentBy(steps, id);
    assert [] + Said(START, steps, m) == Said(START, steps, m);
  }

  lemma TurnHeard(w: World, m: nat)
    requires Reachable(w) && m in w.turns
    ensures var id := w.turns[m].request;
            && id in w.calls && w.calls[id].inbox == w.turns[m].messages
            && (w.turns[m].eos ==> AudioEnded(w, id))
  {
    TurnOfCall(w, m);
  }

  /** So either handler's final results are the successful results the service said in that stream,
      in order, each with its phrases position by position. */
  lemma OwnResults(steps: seq<Step>, m: nat, interim: bool)
    requires Run(START, steps) && m in Final(START, steps).turns
    ensures Final(START, steps).turns[m].request in Final(START, steps).calls
    ensures var inbox := Final(START, steps).calls[Final(START, steps).turns[m].request].inbox;
            var finals := Handlers.Finals(Handlers.StreamAll(Handlers.Stream(interim, "", []), inbox).written);
            var successes := Handlers.Successes(Said(START, steps, m));
            && finals == Handlers.SyncAll(inbox) && |finals| == |successes|
            && forall k | 0 <= k < |successes| :: Handlers.Shows(finals[k], successes[k].phrases)
  {
    EndToEnd(steps, m);
    Handlers.FinalsShowSuccesses(interim, Said(START, steps, m));
  }

  /** What the service is told when it asks for up to n bytes of a stream: the next bytes its call
      has sent, and a positive count of exactly these; 0, the end of the stream, exactly when the
      call has ended its audio and all of it has been handed out before; -EAGAIN exactly when all
      has been handed out and more may come. Nothing else changes in what is sent and said. */
  lemma CallbackExactly(w: World, c: nat, n: nat)
    requires Reachable(w) && Enabled(w, Callback(c, n))
    ensures var m := w.current[c];
            var turn, v := w.turns[m], After(w, Callback(c, n));
            && turn.request in w.calls && m in v.turns
            && var sent := w.calls[turn.request].sent;
               var done, code := turn.bytes == sent, CallbackCode(w.sessions[m], n);
               && turn.bytes <= v.turns[m].bytes <= sent
               && |v.turns[m].bytes| == |turn.bytes| + (if 0 < code then code else 0)
               && (0 < code ==> code == n || (code < n && v.turns[m].bytes == sent))
               && (code == 0 <==> done && AudioEnded(w, turn.request))
               && (code == -11 <==> done && !AudioEnded(w, turn.request))
               && (0 < code <==> !done)
               && (v.turns[m].eos <==> turn.eos || (done && AudioEnded(w, turn.request)))
               && v.turns == w.turns[m := turn.(bytes := v.turns[m].bytes, eos := v.turns[m].eos)]
               && v.calls == w.calls && v.current == w.current && v.pool == w.pool
  {
    TurnOfCall(w, w.current[c]);
  }

  /** The pool's steps in a run of the bridge: those of the bridge that concern the pool, less the
      return that fails its assertion. */
  function PoolStepOf(w: World, step: Step): seq<P.Step<nat, nat>>
    requires Enabled(w, step)
  {
    match step
    case ArriveFast(id, g, c, m) => [P.GetFast(id, UrlOf(g), c, m)]
    case ArriveSlow(id, g, c) => [P.GetSlow(id, UrlOf(g), c)]
    case WakeTake(id, c, m) => [P.WakeTake(id, c, m)]
    case WakeWait(id) => [P.WakeWait(id)]
    case Connect(c) => [P.Connect(c)]
    case ConnectFail(c) => [P.ConnectFail(c)]
    case Ready(c) => [P.ClientReady(c)]
    case Close(c) => [P.Close(c)]
    case PutBack(id) => if P.CanPutBack(w.pool, w.calls[id].at.m) then [P.PutBack(w.calls[id].at.m)] else []
    case _ => []
  }

  function PoolSteps(w: World, steps: seq<Step>): seq<P.Step<nat, nat>>
    requires Run(w, steps)
    decreases steps
  {
    if steps == [] then [] else PoolStepOf(w, steps[0]) + PoolSteps(After(w, steps[0]), steps[1..])
  }

  lemma PoolStepRun(w: World, step: Step)
    requires Enabled(w, step)
    ensures P.Run(w.pool, PoolStepOf(w, step)) && P.Final(w.pool, PoolStepOf(w, step)) == After(w, step).pool
  {
    if PoolStepOf(w, step) != [] {
      assert PoolStepOf(w, step)[1..] == [];
    }
  }

  lemma PoolConcat(s: P.Pool<nat, nat>, one: seq<P.Step<nat, nat>>, rest: seq<P.Step<nat, nat>>)
    requires |one| <= 1 && P.Run(s, one) && P.Run(P.Final(s, one), rest)
    ensures P.Run(s, one + rest) && P.Final(s, one + rest) == P.Final(P.Final(s, one), rest)
  {
    if one == [] {
      assert one + rest == rest;
    } else {
      assert P.Final(s, one) == P.Final(P.After(s, one[0]), one[1..]) == P.After(s, one[0]);
      assert (one + rest)[0] == one[0] && (one + rest)[1..] == rest;
    }
  }

  /** What the pool goes through inside the bridge is a run of the pool, ... */
  lemma {:induction false} PoolRuns(w: World, steps: seq<Step>)
    requires Run(w, steps)
    ensures P.Run(w.pool, PoolSteps(w, steps)) && P.Final(w.pool, PoolSteps(w, steps)) == Final(w, steps).pool
    decreases steps
  {
    if steps == [] {
    } else {
      PoolStepRun(w, steps[0]);
      PoolRuns(After(w, steps[0]), steps[1..]);
      PoolConcat(w.pool, PoolStepOf(w, steps[0]), PoolSteps(After(w, steps[0]), steps[1..]));
    }
  }

  /** ... so every theorem about reachable pools holds of the pool of every reachable world. */
  lemma PoolReachable(w: World)
    requires Reachable(w)
    ensures PI.Reachable(w.pool)
  {
    var steps :| Run(START, steps) && Final(START, steps) == w;
    PoolRuns(START, steps);
    assert P.Final(P.Empty(), PoolSteps(START, steps)) == w.pool;
  }
}
