/** Who can still be served: a counting argument over all interleavings. */
module PoolProgress {
  import opened Wrappers
  import opened PoolSpec
  import opened PoolInvariant

  ghost function WaitingFor<R, M>(s: Pool<R, M>, uri: string): set<string> {
    set id | id in s.waiting && s.waiting[id].uri == uri
  }

  /** The sessions of a set that were created for a URI. */
  ghost function Of<R, M>(s: Pool<R, M>, rs: set<R>, uri: string): set<R> {
    set r | r in rs && r in s.entries && s.entries[r].uri == uri
  }

  ghost function CheckedOut<R, M>(s: Pool<R, M>): set<R> {
    set r | r in s.sessions && r in s.entries && s.entries[r].checkedOut
  }

  lemma {:induction false} SubsetSize<T>(a: set<T>, b: set<T>)
    requires a <= b
    ensures |a| <= |b|
  {
    if a == {} {
    } else {
      var x :| x in a;
      SubsetSize(a - {x}, b - {x});
    }
  }

  /** Each caller that blocks has created a session for its URI. */
  ghost predicate Covered<R, M>(s: Pool<R, M>, uri: string) {
    |WaitingFor(s, uri)| <= |Of(s, s.entries.Keys, uri)|
  }

  /** Only the slow path of getSession adds a session, and no session changes its URI. */
  lemma UriKept<R, M>(s: Pool<R, M>, step: Step<R, M>, uri: string)
    requires Enabled(s, step)
    ensures Of(After(s, step), After(s, step).entries.Keys, uri) ==
            Of(s, s.entries.Keys, uri) + if step.GetSlow? && step.uri == uri then {step.r} else {}
  {
    match step
    case GetFast(id, u, r, m) =>
    case GetSlow(id, u, r) =>
    case WakeTake(id, r, m) =>
    case WakeWait(id) =>
    case Connect(r) =>
    case ConnectFail(r) =>
    case ClientReady(r) =>
    case PutBack(m) =>
    case Close(r) =>
  }

  /** Only the slow path of getSession adds a waiting caller. */
  lemma WaitingGrows<R, M>(s: Pool<R, M>, step: Step<R, M>, uri: string)
    requires Enabled(s, step)
    ensures WaitingFor(After(s, step), uri) <=
            WaitingFor(s, uri) + if step.GetSlow? && step.uri == uri then {step.id} else {}
  {
    match step
    case GetFast(id, u, r, m) =>
    case GetSlow(id, u, r) =>
    case WakeTake(id, r, m) =>
    case WakeWait(id) =>
    case Connect(r) =>
    case ConnectFail(r) =>
    case ClientReady(r) =>
    case PutBack(m) =>
    case Close(r) =>
  }

  lemma CoveredStep<R, M>(s: Pool<R, M>, step: Step<R, M>, uri: string)
    requires Covered(s, uri) && Enabled(s, step)
    ensures Covered(After(s, step), uri)
  {
    UriKept(s, step, uri);
    WaitingGrows(s, step, uri);
    if step.GetSlow? && step.uri == uri {
      assert step.r !in Of(s, s.entries.Keys, uri);
      SubsetSize(WaitingFor(After(s, step), uri), WaitingFor(s, uri) + {step.id});
    } else {
      SubsetSize(WaitingFor(After(s, step), uri), WaitingFor(s, uri));
    }
  }

  lemma {:induction false} CoveredRun<R, M>(s: Pool<R, M>, steps: seq<Step<R, M>>, uri: string)
    requires Inv(s) && Covered(s, uri) && Run(s, steps)
    ensures Covered(Final(s, steps), uri)
    decreases steps
  {
    if steps == [] {
    } else {
      InvStep(s, steps[0]);
      CoveredStep(s, steps[0], uri);
      CoveredRun(After(s, steps[0]), steps[1..], uri);
    }
  }

  lemma ReachableCovered<R(!new), M(!new)>(s: Pool<R, M>, uri: string)
    requires Reachable(s)
    ensures Inv(s) && Covered(s, uri)
  {
    var steps :| Run(Empty(), steps) && Final(Empty(), steps) == s;
    InvRun(Empty(), steps);
    CoveredRun(Empty(), steps, uri);
  }

  /** The callers blocked for a URI never outnumber its sessions that are pending, connecting,
      available or checked out, plus those that have closed. */
  lemma ProgressByCounting<R(!new), M(!new)>(s: Pool<R, M>, uri: string)
    requires Reachable(s)
    ensures |WaitingFor(s, uri)| <= |Of(s, s.pending, uri)|
                                  + |Of(s, s.sessions - s.ready, uri)|
                                  + |Avail(s, uri)|
                                  + |Of(s, CheckedOut(s), uri)|
                                  + |Of(s, s.closed, uri)|
  {
    ReachableCovered(s, uri);
    CreatedFor(s, uri);
  }

  lemma CreatedFor<R, M>(s: Pool<R, M>, uri: string)
    requires Inv(s)
    ensures |Of(s, s.entries.Keys, uri)| == |Of(s, s.pending, uri)|
                                          + |Of(s, s.sessions - s.ready, uri)|
                                          + |Avail(s, uri)|
                                          + |Of(s, CheckedOut(s), uri)|
                                          + |Of(s, s.closed, uri)|
  {
    LiveFor(s, uri);
    SizeOfUnion(Of(s, s.sessions - s.ready, uri), Avail(s, uri), Of(s, CheckedOut(s), uri));
    AllFor(s, uri);
    SizeOfUnion(Of(s, s.pending, uri), Of(s, s.sessions, uri), Of(s, s.closed, uri));
  }

  lemma AllFor<R, M>(s: Pool<R, M>, uri: string)
    requires Placed(s)
    ensures var a, live, e := Of(s, s.pending, uri), Of(s, s.sessions, uri), Of(s, s.closed, uri);
            Of(s, s.entries.Keys, uri) == a + live + e && a !! live && a !! e && live !! e
  {
    assert forall r | r in s.entries :: r in s.pending || r in s.sessions || r in s.closed;
  }

  lemma SizeOfUnion<T>(a: set<T>, b: set<T>, c: set<T>)
    requires a !! b && a !! c && b !! c
    ensures |a + b + c| == |a| + |b| + |c|
  {
    assert |a + b| == |a| + |b|;
    assert (a + b) !! c;
  }

  lemma LiveFor<R, M>(s: Pool<R, M>, uri: string)
    requires Inv(s)
    ensures var b, c, d := Of(s, s.sessions - s.ready, uri), Avail(s, uri), Of(s, CheckedOut(s), uri);
            Of(s, s.sessions, uri) == b + c + d && b !! c && b !! d && c !! d
  {
    assert forall r | r in Avail(s, uri) :: r in s.entries;
    assert forall r | r in CheckedOut(s) :: r in s.busy && r in s.ready;
  }

  /** No session of the URI is still pending, connecting, checked out or closed. */
  ghost predicate Settled<R, M>(s: Pool<R, M>, uri: string) {
    forall r | r in s.entries && s.entries[r].uri == uri :: r in Avail(s, uri)
  }

  /** Steps in which callers blocked for a URI wake up, in any order. */
  predicate Wakes<R, M>(s: Pool<R, M>, steps: seq<Step<R, M>>, uri: string)
    requires Run(s, steps)
    decreases steps
  {
    steps == [] ||
    (&& (steps[0].WakeTake? || steps[0].WakeWait?)
     && s.waiting[steps[0].id].uri == uri
     && Wakes(After(s, steps[0]), steps[1..], uri))
  }

  lemma WakeServes<R, M>(s: Pool<R, M>, step: Step<R, M>, uri: string)
    requires |WaitingFor(s, uri)| <= |Avail(s, uri)|
    requires Enabled(s, step) && (step.WakeTake? || step.WakeWait?) && s.waiting[step.id].uri == uri
    ensures step.WakeTake?
    ensures |WaitingFor(After(s, step), uri)| == |WaitingFor(s, uri)| - 1
    ensures |Avail(After(s, step), uri)| == |Avail(s, uri)| - 1
  {
    assert step.id in WaitingFor(s, uri);
    assert WaitingFor(After(s, step), uri) == WaitingFor(s, uri) - {step.id};
    assert Avail(After(s, step), uri) == Avail(s, uri) - {step.r};
  }

  lemma {:induction false} WakesServe<R, M>(s: Pool<R, M>, steps: seq<Step<R, M>>, uri: string)
    requires |WaitingFor(s, uri)| <= |Avail(s, uri)|
    requires Run(s, steps) && Wakes(s, steps, uri)
    ensures forall step | step in steps :: step.WakeTake?
    ensures |WaitingFor(Final(s, steps), uri)| == |WaitingFor(s, uri)| - |steps|
    decreases steps
  {
    if steps == [] {
    } else {
      WakeServes(s, steps[0], uri);
      WakesServe(After(s, steps[0]), steps[1..], uri);
      assert steps == [steps[0]] + steps[1..];
    }
  }

  /** Once every session of a URI is back, every caller blocked for it has been notified, and in
      whatever order they wake each one gets a session: no wake goes back to waiting, and after
      as many wakes as there were callers none is left. */
  lemma SettledServesAll<R(!new), M(!new)>(s: Pool<R, M>, wakes: seq<Step<R, M>>, uri: string)
    requires Reachable(s) && Settled(s, uri)
    requires Run(s, wakes) && Wakes(s, wakes, uri)
    ensures forall id | id in WaitingFor(s, uri) :: s.waiting[id].notified
    ensures forall step | step in wakes :: step.WakeTake?
    ensures |WaitingFor(Final(s, wakes), uri)| == |WaitingFor(s, uri)| - |wakes|
  {
    ReachableCovered(s, uri);
    assert Of(s, s.entries.Keys, uri) == Avail(s, uri);
    assert Avail(s, uri) == {} ==> WaitingFor(s, uri) == {};
    WakesServe(s, wakes, uri);
  }

  lemma Cons<R, M>(s: Pool<R, M>, step: Step<R, M>, rest: seq<Step<R, M>>)
    requires Enabled(s, step) && Run(After(s, step), rest)
    ensures Run(s, [step] + rest) && Final(s, [step] + rest) == Final(After(s, step), rest)
  {
    assert ([step] + rest)[1..] == rest;
  }

  /** A blocked caller can still be served while any session of its URI has not closed, without
      any new request ... */
  lemma {:induction false} OpenSessionCanServe<R, M>(s: Pool<R, M>, id: string, r: R, m: M) returns (steps: seq<Step<R, M>>)
    requires Inv(s) && id in s.waiting && m !in s.issued
    requires r in s.entries && s.entries[r].uri == s.waiting[id].uri && r !in s.closed
    ensures Run(s, steps) && id !in Final(s, steps).waiting
    ensures forall step | step in steps :: !step.GetFast? && !step.GetSlow?
    decreases r in s.pending, r !in s.ready, s.entries[r].checkedOut
  {
    var first;
    if r in s.pending {
      first := Connect(r);
    } else if r !in s.ready {
      first := ClientReady(r);
    } else if s.entries[r].checkedOut {
      first := PutBack(s.entries[r].session.value);
    } else {
      steps := [WakeTake(id, r, m)];
      assert Run(After(s, steps[0]), []);
      Cons(s, WakeTake(id, r, m), []);
      assert [WakeTake(id, r, m)] + [] == steps;
      return;
    }
    InvStep(s, first);
    var rest := OpenSessionCanServe(After(s, first), id, r, m);
    Cons(s, first, rest);
    steps := [first] + rest;
  }

  lemma NoneAvailable<R, M>(s: Pool<R, M>, uri: string)
    requires Inv(s) && Of(s, s.entries.Keys, uri) <= s.closed
    ensures Avail(s, uri) == {}
  {
    assert forall r | r in Avail(s, uri) :: r in Of(s, s.entries.Keys, uri);
  }

  lemma AllClosedStep<R, M>(s: Pool<R, M>, id: string, step: Step<R, M>)
    requires id in s.waiting && Avail(s, s.waiting[id].uri) == {} && Enabled(s, step)
    requires step.GetSlow? ==> step.uri != s.waiting[id].uri
    requires Of(s, s.entries.Keys, s.waiting[id].uri) <= s.closed
    ensures var t, uri := After(s, step), s.waiting[id].uri;
            id in t.waiting && t.waiting[id].uri == uri && Of(t, t.entries.Keys, uri) <= t.closed
  {
    UriKept(s, step, s.waiting[id].uri);
  }

  /** ... and once all of them have closed it never is, in any run in which no other caller
      creates a session for that URI. */
  lemma {:induction false} AllClosedNeverServes<R, M>(s: Pool<R, M>, id: string, steps: seq<Step<R, M>>)
    requires Inv(s) && id in s.waiting && Run(s, steps)
    requires Of(s, s.entries.Keys, s.waiting[id].uri) <= s.closed
    requires forall step | step in steps :: step.GetSlow? ==> step.uri != s.waiting[id].uri
    ensures id in Final(s, steps).waiting
    decreases steps
  {
    if steps == [] {
    } else {
      NoneAvailable(s, s.waiting[id].uri);
      assert steps[0] in steps;
      AllClosedStep(s, id, steps[0]);
      InvStep(s, steps[0]);
      assert forall step | step in steps[1..] :: step in steps;
      AllClosedNeverServes(After(s, steps[0]), id, steps[1..]);
    }
  }

  /** That happens to a caller whose new connection closes before it is ready. */
  lemma AllClosedHappens<R, M>(id: string, uri: string, r: R)
    ensures var steps: seq<Step<R, M>> := [GetSlow(id, uri, r), Connect(r), Close(r)];
            && Run(Empty(), steps)
            && var s := Final(Empty(), steps);
               && id in s.waiting && s.waiting[id].uri == uri
               && Of(s, s.entries.Keys, uri) == {r} && s.closed == {r}
  {
    var s0: Pool<R, M> := Empty();
    var create, connect, close: Step<R, M> := GetSlow(id, uri, r), Connect(r), Close(r);
    var s1 := After(s0, create);
    Cons(After(s1, connect), close, []);
    Cons(s1, connect, [close]);
    Cons(s0, create, [connect, close]);
    assert [close] + [] == [close] && [connect] + [close] == [connect, close];
    assert [create] + [connect, close] == [create, connect, close];
  }
}
