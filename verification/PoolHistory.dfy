/** The life of one connection, told by the steps of the run alone. */
module PoolHistory {
  import opened Wrappers
  import opened PoolSpec
  import opened PoolInvariant

  /** The run creates r. */
  predicate Created<R(==), M(==)>(steps: seq<Step<R, M>>, r: R) {
    exists i :: 0 <= i < |steps| && steps[i].GetSlow? && steps[i].r == r
  }

  lemma CreatedCons<R, M>(steps: seq<Step<R, M>>, r: R)
    requires steps != []
    ensures Created(steps, r) <==> (steps[0].GetSlow? && steps[0].r == r) || Created(steps[1..], r)
  {
    if Created(steps[1..], r) {
      var i :| 0 <= i < |steps[1..]| && steps[1..][i].GetSlow? && steps[1..][i].r == r;
      assert steps[i + 1] == steps[1..][i];
    }
    if i :| 0 < i < |steps| && steps[i].GetSlow? && steps[i].r == r {
      assert steps[1..][i - 1] == steps[i];
    }
  }

  lemma LifeStep<R, M>(s: Pool<R, M>, step: Step<R, M>, r: R)
    requires Placed(s) && Enabled(s, step)
    ensures var t := After(s, step);
            && (r in t.entries <==> r in s.entries || (step.GetSlow? && step.r == r))
            && (r in t.pending <==> (r in s.pending || (step.GetSlow? && step.r == r)) && step != Connect(r))
            && (r in t.sessions <==> (r in s.sessions || step == Connect(r)) && step != Close(r))
            && (r in t.ready <==> r in s.ready || step == ClientReady(r))
            && (r in t.closed <==> r in s.closed || step == Close(r))
            && (step == Connect(r) ==> r in s.pending) && (step == Close(r) ==> r in s.sessions)
            && (step.GetSlow? && step.r == r ==> r !in s.entries)
  {
  }

  /** Where a connection is, in any run: pending from the getSession that creates it to its
      successful connect, live from there until it closes, ready once client_ready has fired. */
  lemma {:induction false} Lifecycle<R, M>(s: Pool<R, M>, steps: seq<Step<R, M>>, r: R)
    requires Inv(s) && Run(s, steps)
    ensures var t := Final(s, steps);
            && (r in t.entries <==> r in s.entries || Created(steps, r))
            && (r in t.pending <==> (r in s.pending || Created(steps, r)) && Connect(r) !in steps)
            && (r in t.sessions <==> (r in s.sessions || Connect(r) in steps) && Close(r) !in steps)
            && (r in t.ready <==> r in s.ready || ClientReady(r) in steps)
            && (r in t.closed <==> r in s.closed || Close(r) in steps)
    ensures Connect(r) in steps ==> r in s.pending || Created(steps, r)
    ensures Close(r) in steps ==> r in s.sessions || Connect(r) in steps
    ensures Created(steps, r) ==> r !in s.entries
    decreases steps
  {
    if steps == [] {
    } else {
      var t := After(s, steps[0]);
      InvStep(s, steps[0]);
      LifeStep(s, steps[0], r);
      CreatedCons(steps, r);
      assert steps == [steps[0]] + steps[1..];
      Lifecycle(t, steps[1..], r);
    }
  }

  /** A connection is handed out, or available, only after its client_ready. */
  lemma {:induction false} ReadyFirst<R, M>(s: Pool<R, M>, steps: seq<Step<R, M>>, r: R)
    requires Inv(s) && Run(s, steps) && r !in s.ready && ClientReady(r) !in steps
    ensures forall uri: string :: r !in Avail(Final(s, steps), uri)
    ensures forall step | step in steps :: !HandsOut(step, r)
    decreases steps
  {
    if steps == [] {
      assert forall uri: string :: r in Avail(s, uri) ==> r in s.entries && IsAvailable(s, uri, r);
    } else {
      assert steps == [steps[0]] + steps[1..];
      InvStep(s, steps[0]);
      LifeStep(s, steps[0], r);
      assert forall uri: string :: r in Avail(s, uri) ==> r in s.entries && IsAvailable(s, uri, r);
      ReadyFirst(After(s, steps[0]), steps[1..], r);
    }
  }

  /** So a pending connection that fails to connect stays pending and unconnected, in no available
      set, and is never handed out, in every run, exactly until a connect succeeds. */
  lemma PendingUntilConnect<R, M>(s: Pool<R, M>, steps: seq<Step<R, M>>, r: R)
    requires Inv(s) && Run(s, steps) && r in s.pending
    ensures r in Final(s, steps).entries
    ensures r in Final(s, steps).pending <==> Connect(r) !in steps
    ensures !Final(s, steps).entries[r].connected <==> Connect(r) !in steps
    ensures Connect(r) !in steps ==>
              && (forall uri: string :: r !in Avail(Final(s, steps), uri))
              && (forall step | step in steps :: !HandsOut(step, r))
  {
    InvRun(s, steps);
    Lifecycle(s, steps, r);
    if Connect(r) !in steps {
      NotReadyWhilePending(s, steps, r);
      ReadyFirst(s, steps, r);
    }
  }

  lemma {:induction false} NotReadyWhilePending<R, M>(s: Pool<R, M>, steps: seq<Step<R, M>>, r: R)
    requires Inv(s) && Run(s, steps) && r in s.pending && Connect(r) !in steps
    ensures ClientReady(r) !in steps
    decreases steps
  {
    if steps == [] {
    } else {
      assert steps == [steps[0]] + steps[1..];
      InvStep(s, steps[0]);
      LifeStep(s, steps[0], r);
      NotReadyWhilePending(After(s, steps[0]), steps[1..], r);
    }
  }
}
