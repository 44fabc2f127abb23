/** What every reachable pool satisfies, over all interleavings of callers and run loop. */
module PoolInvariant {
  import opened Wrappers
  import opened PoolSpec

  /** Every session ever created is pending, live or closed, and only one of these. */
  ghost predicate Placed<R, M>(s: Pool<R, M>) {
    && s.entries.Keys == s.pending + s.sessions + s.closed
    && s.pending !! s.sessions && s.pending !! s.closed && s.sessions !! s.closed
    && s.ready <= s.sessions + s.closed
    && s.busy <= s.ready
  }

  ghost predicate ConnectedExactly<R, M>(s: Pool<R, M>) {
    forall r | r in s.entries :: s.entries[r].connected <==> r !in s.pending
  }

  /** What is available for a URI: live, ready and not checked out, under the session's own URI. */
  ghost predicate IsAvailable<R, M>(s: Pool<R, M>, uri: string, r: R)
    requires r in s.entries
  {
    r in s.sessions && r in s.ready && !s.entries[r].checkedOut && s.entries[r].uri == uri
  }

  ghost predicate AvailableExactly<R, M>(s: Pool<R, M>) {
    forall uri: string, r | r in s.entries :: r in Avail(s, uri) <==> IsAvailable(s, uri, r)
  }

  ghost predicate AvailableKnown<R, M>(s: Pool<R, M>) {
    forall uri | uri in s.available :: s.available[uri] <= s.entries.Keys
  }

  /** A checked-out session is one that has a handle, and it is in busySesssions. */
  ghost predicate CheckedOutExactly<R, M>(s: Pool<R, M>) {
    forall r | r in s.entries ::
      && (s.entries[r].checkedOut <==> s.entries[r].session.Some?)
      && (s.entries[r].checkedOut ==> r in s.busy && s.entries[r].session.value in s.issued)
  }

  ghost predicate HandlesDistinct<R, M>(s: Pool<R, M>) {
    forall r, r' | r in s.entries && r' in s.entries && s.entries[r].session.Some? ::
      s.entries[r].session == s.entries[r'].session ==> r == r'
  }

  /** sessionsBySession is the inverse of the session fields of the live sessions. */
  ghost predicate IndexExactly<R, M>(s: Pool<R, M>) {
    && (forall m | m in s.bySession ::
          var r := s.bySession[m];
          m in s.issued && r in s.sessions && r in s.entries && s.entries[r].session == Some(m))
    && (forall r | r in s.sessions && r in s.entries && s.entries[r].session.Some? ::
          var m := s.entries[r].session.value;
          m in s.bySession && s.bySession[m] == r)
  }

  ghost predicate HandlesAgree<R, M>(s: Pool<R, M>) {
    CheckedOutExactly(s) && HandlesDistinct(s) && IndexExactly(s)
  }

  ghost predicate NoLostWakeup<R, M>(s: Pool<R, M>) {
    forall id | id in s.waiting && !s.waiting[id].notified :: Avail(s, s.waiting[id].uri) == {}
  }

  ghost predicate Inv<R, M>(s: Pool<R, M>) {
    && Placed(s) && ConnectedExactly(s) && AvailableKnown(s) && AvailableExactly(s)
    && HandlesAgree(s) && NoLostWakeup(s)
  }

  lemma TakeAvailable<R, M>(s: Pool<R, M>, id: string, uri: string, r: R, m: M)
    requires AvailableKnown(s) && AvailableExactly(s) && r in s.entries && r in Avail(s, uri)
    ensures AvailableKnown(Take(s, id, uri, r, m)) && AvailableExactly(Take(s, id, uri, r, m))
  {
    var t := Take(s, id, uri, r, m);
    assert forall u: string :: Avail(t, u) == Avail(s, u) - if u == uri then {r} else {};
  }

  lemma OfferAvailable<R, M>(s: Pool<R, M>, r: R)
    requires AvailableKnown(s) && r in s.entries && r in s.sessions && !s.entries[r].checkedOut
    requires forall uri: string, x | x in s.entries && x != r :: x in Avail(s, uri) <==> IsAvailable(s, uri, x)
    requires forall uri: string :: r !in Avail(s, uri)
    ensures var t := Offer(s, r).(ready := s.ready + {r}); AvailableKnown(t) && AvailableExactly(t)
  {
    var t := Offer(s, r).(ready := s.ready + {r});
    assert forall u: string :: Avail(t, u) == Avail(s, u) + if u == s.entries[r].uri then {r} else {};
  }

  lemma CloseAvailable<R, M>(s: Pool<R, M>, r: R)
    requires Inv(s) && Enabled(s, Close(r))
    ensures AvailableKnown(After(s, Close(r))) && AvailableExactly(After(s, Close(r)))
  {
    var t := After(s, Close(r));
    assert forall u: string :: Avail(t, u) == Avail(s, u) - if u == s.entries[r].uri then {r} else {};
  }

  /** Steps that leave every available set alone. */
  lemma SameAvailable<R, M>(s: Pool<R, M>, step: Step<R, M>)
    requires Inv(s) && Enabled(s, step)
    requires step.GetSlow? || step.WakeWait? || step.Connect? || step.ConnectFail?
    ensures AvailableKnown(After(s, step)) && AvailableExactly(After(s, step))
  {
    var t := After(s, step);
    assert forall u: string :: Avail(t, u) == Avail(s, u);
    if step.GetSlow? {
      assert forall u: string :: step.r !in Avail(s, u);
    }
  }

  lemma WakeAvailable<R, M>(s: Pool<R, M>, id: string, r: R, m: M)
    requires Inv(s) && Enabled(s, WakeTake(id, r, m))
    ensures AvailableKnown(After(s, WakeTake(id, r, m))) && AvailableExactly(After(s, WakeTake(id, r, m)))
  {
    var taken := Take(s, id, s.waiting[id].uri, r, m);
    TakeAvailable(s, id, s.waiting[id].uri, r, m);
    assert forall u: string :: Avail(After(s, WakeTake(id, r, m)), u) == Avail(taken, u);
  }

  lemma PutBackAvailable<R, M>(s: Pool<R, M>, m: M)
    requires Inv(s) && Enabled(s, PutBack(m))
    ensures AvailableKnown(After(s, PutBack(m))) && AvailableExactly(After(s, PutBack(m)))
  {
    var r := s.bySession[m];
    var released := Release(s, r);
    assert forall u: string :: Avail(released, u) == Avail(s, u);
    assert r in s.ready && s.ready + {r} == s.ready;
    OfferAvailable(released, r);
  }

  lemma AvailableStep<R, M>(s: Pool<R, M>, step: Step<R, M>)
    requires Inv(s) && Enabled(s, step)
    ensures AvailableKnown(After(s, step)) && AvailableExactly(After(s, step))
  {
    match step
    case GetFast(id, uri, r, m) => TakeAvailable(s, id, uri, r, m);
    case WakeTake(id, r, m) => WakeAvailable(s, id, r, m);
    case ClientReady(r) => OfferAvailable(s, r);
    case PutBack(m) => PutBackAvailable(s, m);
    case Close(r) => CloseAvailable(s, r);
    case _ => SameAvailable(s, step);
  }

  lemma PlacedStep<R, M>(s: Pool<R, M>, step: Step<R, M>)
    requires Inv(s) && Enabled(s, step)
    ensures Placed(After(s, step))
  {
    match step
    case GetFast(id, uri, r, m) => assert r in s.ready;
    case GetSlow(id, uri, r) =>
    case WakeTake(id, r, m) => assert r in s.ready;
    case WakeWait(id) =>
    case Connect(r) =>
    case ConnectFail(r) =>
    case ClientReady(r) =>
    case PutBack(m) =>
    case Close(r) =>
  }

  lemma ConnectedStep<R, M>(s: Pool<R, M>, step: Step<R, M>)
    requires ConnectedExactly(s) && s.pending <= s.entries.Keys && Enabled(s, step)
    ensures ConnectedExactly(After(s, step))
  {
    match step
    case GetFast(id, uri, r, m) =>
    case GetSlow(id, uri, r) =>
    case WakeTake(id, r, m) =>
    case WakeWait(id) =>
    case Connect(r) =>
    case ConnectFail(r) =>
    case ClientReady(r) =>
    case PutBack(m) =>
    case Close(r) =>
  }

  lemma TakeKeepsHandles<R, M>(s: Pool<R, M>, id: string, uri: string, r: R, m: M)
    requires HandlesAgree(s) && r in s.entries && r in s.sessions
    requires !s.entries[r].checkedOut && m !in s.issued
    ensures HandlesAgree(Take(s, id, uri, r, m))
  {
  }

  lemma ReleaseKeepsHandles<R, M>(s: Pool<R, M>, r: R)
    requires HandlesAgree(s) && r in s.entries
    ensures HandlesAgree(Release(s, r))
  {
  }

  /** Steps that check nothing out and put nothing back. */
  lemma OtherHandles<R, M>(s: Pool<R, M>, step: Step<R, M>)
    requires Placed(s) && HandlesAgree(s) && Enabled(s, step)
    requires !step.GetFast? && !step.WakeTake? && !step.PutBack?
    ensures HandlesAgree(After(s, step))
  {
  }

  lemma HandlesStep<R, M>(s: Pool<R, M>, step: Step<R, M>)
    requires Inv(s) && Enabled(s, step)
    ensures HandlesAgree(After(s, step))
  {
    match step
    case GetFast(id, uri, r, m) => TakeKeepsHandles(s, id, uri, r, m);
    case WakeTake(id, r, m) => TakeKeepsHandles(s, id, s.waiting[id].uri, r, m);
    case PutBack(m) => ReleaseKeepsHandles(s, s.bySession[m]);
    case _ => OtherHandles(s, step);
  }

  lemma NoLostWakeupStep<R, M>(s: Pool<R, M>, step: Step<R, M>)
    requires NoLostWakeup(s) && Enabled(s, step)
    ensures NoLostWakeup(After(s, step))
  {
    match step
    case GetFast(id, uri, r, m) =>
    case GetSlow(id, uri, r) =>
    case WakeTake(id, r, m) =>
    case WakeWait(id) =>
    case Connect(r) =>
    case ConnectFail(r) =>
    case ClientReady(r) =>
    case PutBack(m) =>
    case Close(r) =>
  }

  lemma InvStep<R, M>(s: Pool<R, M>, step: Step<R, M>)
    requires Inv(s) && Enabled(s, step)
    ensures Inv(After(s, step))
  {
    PlacedStep(s, step);
    ConnectedStep(s, step);
    HandlesStep(s, step);
    AvailableStep(s, step);
    NoLostWakeupStep(s, step);
  }

  lemma {:induction false} InvRun<R, M>(s: Pool<R, M>, steps: seq<Step<R, M>>)
    requires Inv(s) && Run(s, steps)
    ensures Inv(Final(s, steps))
    decreases steps
  {
    if steps == [] {
    } else {
      InvStep(s, steps[0]);
      InvRun(After(s, steps[0]), steps[1..]);
    }
  }

  ghost predicate Reachable<R(!new), M(!new)>(s: Pool<R, M>) {
    exists steps :: Run(Empty(), steps) && Final(Empty(), steps) == s
  }

  lemma ReachableInv<R(!new), M(!new)>(s: Pool<R, M>)
    requires Reachable(s)
    ensures Inv(s)
  {
    var steps :| Run(Empty(), steps) && Final(Empty(), steps) == s;
    InvRun(Empty(), steps);
  }

  // Main results

  /** Distinct outstanding handles have distinct connections, and a live connection that is
      checked out is in no available set. */
  lemma ExclusiveCheckout<R(!new), M(!new)>(s: Pool<R, M>)
    requires Reachable(s)
    ensures && (forall m, m' | m in s.bySession && m' in s.bySession && m != m' ::
                  s.bySession[m] != s.bySession[m'])
            && (forall m, uri: string | m in s.bySession :: s.bySession[m] !in Avail(s, uri))
  {
    ReachableInv(s);
  }

  /** How many of the five places a session can be in hold r. */
  ghost function Places<R, M>(s: Pool<R, M>, r: R): nat
    requires r in s.entries
  {
    (if r in s.pending then 1 else 0)
    + (if r in s.sessions && r !in s.ready then 1 else 0)  // connecting
    + (if r in Avail(s, s.entries[r].uri) then 1 else 0)
    + (if r in s.sessions && s.entries[r].checkedOut then 1 else 0)
    + (if r in s.closed then 1 else 0)
  }

  /** Every session ever created is in exactly one of five places: pending, connecting,
      available, checked out or closed. What is available for a URI is live, connected and was
      created for it, and created = pending + live + closed. */
  lemma Partition<R(!new), M(!new)>(s: Pool<R, M>)
    requires Reachable(s)
    ensures && (forall r | r in s.entries :: Places(s, r) == 1)
            && (forall uri: string, r | r in Avail(s, uri) ::
                  r in s.sessions && r in s.entries && s.entries[r].uri == uri)
            && (forall uri: string, r | r in Avail(s, uri) :: s.entries[r].connected)
            && |s.entries| == |s.pending| + |s.sessions| + |s.closed|
  {
    OnePlace(s);
    Sizes(s);
  }

  lemma OnePlace<R(!new), M(!new)>(s: Pool<R, M>)
    requires Reachable(s)
    ensures forall r | r in s.entries :: Places(s, r) == 1
    ensures forall uri: string, r | r in Avail(s, uri) ::
              r in s.sessions && r in s.entries && s.entries[r].uri == uri && s.entries[r].connected
  {
    ReachableInv(s);
    forall r | r in s.entries
      ensures Places(s, r) == 1
    {
      assert r in Avail(s, s.entries[r].uri) <==> r in s.sessions && r in s.ready && !s.entries[r].checkedOut;
      assert r in s.busy ==> r in s.ready;
    }
    assert forall uri: string, r | r in Avail(s, uri) :: r in s.entries;
  }

  lemma Sizes<R(!new), M(!new)>(s: Pool<R, M>)
    requires Reachable(s)
    ensures |s.entries| == |s.pending| + |s.sessions| + |s.closed|
  {
    ReachableInv(s);
    assert |s.entries| == |s.entries.Keys|;
    assert |s.pending + s.sessions| == |s.pending| + |s.sessions|;
  }

  /** The two assertions of putSession hold for a handle exactly when its connection has not
      closed, and then they find that connection. */
  lemma PutBackExactly<R, M>(s: Pool<R, M>, r: R, m: M)
    requires Inv(s) && r in s.entries && s.entries[r].session == Some(m)
    ensures CanPutBack(s, m) <==> r !in s.closed
    ensures CanPutBack(s, m) ==> s.bySession[m] == r
  {
    assert r in s.busy && r in s.ready;
  }

  /** sessionsBySession holds exactly the live checkouts, and for every outstanding handle the
      two assertions of putSession hold exactly when its connection has not closed. */
  lemma IndexAgreement<R(!new), M(!new)>(s: Pool<R, M>)
    requires Reachable(s)
    ensures forall m, r | r in s.entries ::
              (m in s.bySession && s.bySession[m] == r) <==>
              (r in s.sessions && s.entries[r].checkedOut && s.entries[r].session == Some(m))
    ensures forall m | m in s.bySession :: s.bySession[m] in s.busy
    ensures forall m, r | r in s.entries && s.entries[r].session == Some(m) ::
              CanPutBack(s, m) <==> r !in s.closed
  {
    ReachableInv(s);
    forall m, r | r in s.entries && s.entries[r].session == Some(m)
      ensures CanPutBack(s, m) <==> r !in s.closed
    {
      PutBackExactly(s, r, m);
    }
  }

  /** A caller that waits for a URI without a pending notification waits for a URI that has no
      available session. */
  lemma WaitersAreNotified<R(!new), M(!new)>(s: Pool<R, M>)
    requires Reachable(s)
    ensures forall id | id in s.waiting && Avail(s, s.waiting[id].uri) != {} :: s.waiting[id].notified
  {
    ReachableInv(s);
  }

  ghost predicate HandsOut<R, M>(step: Step<R, M>, r: R) {
    (step.GetFast? || step.WakeTake?) && step.r == r
  }

  /** A closed connection is gone: whatever runs next, it is never handed out again and is in no
      available set, even when it closed while checked out. */
  lemma {:induction false} ClosedMeansGone<R, M>(s: Pool<R, M>, steps: seq<Step<R, M>>, r: R)
    requires Inv(s) && r in s.closed && Run(s, steps)
    ensures r in Final(s, steps).closed
    ensures forall uri: string :: r !in Avail(Final(s, steps), uri)
    ensures forall step | step in steps :: !HandsOut(step, r)
    decreases steps
  {
    if steps == [] {
    } else {
      InvStep(s, steps[0]);
      ClosedMeansGone(After(s, steps[0]), steps[1..], r);
      assert steps == [steps[0]] + steps[1..];
    }
  }

  /** Why client_ready may fire only once: its insertion keeps the pool in order exactly when the
      connection is not checked out. */
  lemma SecondReadyExactly<R, M>(s: Pool<R, M>, r: R)
    requires Inv(s) && r in s.entries && r in s.sessions && r in s.ready
    ensures Inv(Offer(s, r)) <==> !s.entries[r].checkedOut
  {
    var uri := s.entries[r].uri;
    assert r in Avail(Offer(s, r), uri);
    if !s.entries[r].checkedOut {
      assert IsAvailable(s, uri, r);
      assert Avail(s, uri) + {r} == Avail(s, uri);
      assert forall u: string :: Avail(Offer(s, r), u) == Avail(s, u);
    } else {
      assert !IsAvailable(Offer(s, r), uri, r);
    }
  }

  /** What goes wrong then: a second client_ready on a connection that is checked out under one
      handle lets getSession hand it out under another, both of them outstanding at once. */
  lemma SecondReadyShares<R, M>(s: Pool<R, M>, r: R, first: M, id: string, second: M)
    requires Inv(s) && first in s.bySession && s.bySession[first] == r
    requires id !in s.waiting && second !in s.issued
    ensures r in s.entries
    ensures var t := Offer(s, r);
            var step := GetFast(id, s.entries[r].uri, r, second);
            && Enabled(t, step)
            && first != second
            && var v := After(t, step);
               first in v.bySession && second in v.bySession && v.bySession[first] == v.bySession[second] == r
  {
    assert r in s.sessions;
  }
}
