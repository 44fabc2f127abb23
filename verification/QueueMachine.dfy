/** An audio queue shared by producers, non-blocking readers and one blockingGet consumer,
    as the steps its mutex and condition variable allow. markEnd and terminate take no lock:
    they raise a flag and then notify, in two steps that can fall anywhere. */
module QueueMachine {
  import opened Bytes
  import Q = QueueSpec

  /** Where the blockingGet consumer is. Checked holds the mutex, between finding its loop
      condition true and the wait that releases it. */
  datatype Phase = Idle | Checked(n: nat) | Asleep(n: nat, notified: bool)

  datatype State = State(
    q: Q.Queue,
    phase: Phase,
    raisers: nat,        // markEnd or terminate calls between their flag and their notify_all
    given: seq<byte>,    // every byte put so far
    out: seq<byte>)      // every byte handed out so far, by get or blockingGet

  datatype Step =
    | Put(bytes: seq<byte>) | Get(n: nat)
    | RaiseEnd | RaiseTerminate | NotifyAll
    | Begin(n: nat) | Sleep | Wake

  const START := State(Q.EMPTY, Idle, 0, [], [])

  predicate Enabled(s: State, step: Step) {
    match step
    case Put(_) => !s.phase.Checked? && Q.CanPut(s.q)
    case Get(_) => !s.phase.Checked?
    case RaiseEnd => true
    case RaiseTerminate => true
    case NotifyAll => 0 < s.raisers
    case Begin(_) => s.phase.Idle? && !s.q.busy
    case Sleep => s.phase.Checked?
    case Wake => s.phase.Asleep?  // a condition variable may also wake spuriously
  }

  function Notified(phase: Phase): Phase {
    if phase.Asleep? then phase.(notified := true) else phase
  }

  /** The loop condition of blockingGet and, when it is false, the rest of the call. */
  function Recheck(s: State, n: nat): State {
    if Q.MustWait(s.q, n) then s.(phase := Checked(n))
    else
      s.(q := Q.BlockingFinish(s.q, n), phase := Idle,
         out := s.out + s.q.content[..Q.BlockingTaken(s.q, n)])
  }

  function After(s: State, step: Step): State
    requires Enabled(s, step)
  {
    match step
    case Put(bytes) =>
      var q := Q.Put(s.q, bytes);
      s.(q := q, given := s.given + bytes,
         phase := if 0 < q.requestedSize <= |q.content| then Notified(s.phase) else s.phase)
    case Get(n) => s.(q := Q.Get(s.q, n), out := s.out + s.q.content[..Q.Taken(s.q, n)])
    case RaiseEnd => s.(q := s.q.(ended := true), raisers := s.raisers + 1)
    case RaiseTerminate => s.(q := s.q.(terminating := true), raisers := s.raisers + 1)
    case NotifyAll => s.(raisers := s.raisers - 1, phase := Notified(s.phase))
    case Begin(n) => Recheck(s.(q := Q.BlockingBegin(s.q, n)), n)
    case Sleep => s.(phase := Asleep(s.phase.n, false))
    case Wake => Recheck(s, s.phase.n)
  }

  predicate Run(s: State, steps: seq<Step>)
    decreases steps
  {
    steps == [] || (Enabled(s, steps[0]) && Run(After(s, steps[0]), steps[1..]))
  }

  function Final(s: State, steps: seq<Step>): State
    requires Run(s, steps)
    decreases steps
  {
    if steps == [] then s else Final(After(s, steps[0]), steps[1..])
  }

  predicate Inv(s: State) {
    && s.given == s.out + s.q.content
    && s.q.processed == |s.out|
    && (!s.phase.Idle? ==> s.q.busy && s.q.requestedSize == s.phase.n)
    && (s.phase.Checked? ==> |s.q.content| < s.phase.n)
    && (s.phase.Asleep? && !s.phase.notified ==> |s.q.content| < s.phase.n)
    && (s.phase.Asleep? ==> 0 < s.phase.n)
  }

  /** Handing out the next k bytes. */
  lemma Moved(given: seq<byte>, out: seq<byte>, content: seq<byte>, k: nat)
    requires given == out + content && k <= |content|
    ensures given == (out + content[..k]) + content[k..]
  {
    assert content == content[..k] + content[k..];
  }

  lemma RecheckInv(s: State, n: nat)
    requires s.given == s.out + s.q.content && s.q.processed == |s.out|
    requires s.q.busy && s.q.requestedSize == n
    ensures Inv(Recheck(s, n))
  {
    if !Q.MustWait(s.q, n) {
      Moved(s.given, s.out, s.q.content, Q.BlockingTaken(s.q, n));
    }
  }

  lemma InvStep(s: State, step: Step)
    requires Inv(s) && Enabled(s, step)
    ensures Inv(After(s, step))
  {
    match step
    case Put(bytes) => assert s.given + bytes == s.out + (s.q.content + bytes);
    case Get(n) => Moved(s.given, s.out, s.q.content, Q.Taken(s.q, n));
    case Begin(n) => RecheckInv(s.(q := Q.BlockingBegin(s.q, n)), n);
    case Wake => RecheckInv(s, s.phase.n);
    case _ =>
  }

  lemma {:induction false} InvRun(s: State, steps: seq<Step>)
    requires Inv(s) && Run(s, steps)
    ensures Inv(Final(s, steps))
    decreases steps
  {
    if steps == [] {
    } else {
      InvStep(s, steps[0]);
      InvRun(After(s, steps[0]), steps[1..]);
    }
  }

  /** The bytes of the puts of a run, in order. */
  function PutBytes(steps: seq<Step>): seq<byte> {
    if steps == [] then []
    else (if steps[0].Put? then steps[0].bytes else []) + PutBytes(steps[1..])
  }

  lemma {:induction false} History(s: State, steps: seq<Step>)
    requires Run(s, steps)
    ensures Final(s, steps).given == s.given + PutBytes(steps)
    ensures Final(s, steps).q.ended <==> s.q.ended || RaiseEnd in steps
    ensures Final(s, steps).q.terminating <==> s.q.terminating || RaiseTerminate in steps
    decreases steps
  {
    if steps == [] {
      assert s.given + [] == s.given;
    } else {
      History(After(s, steps[0]), steps[1..]);
      assert steps == [steps[0]] + steps[1..];
    }
  }

  // Main results

  /** Conservation over every interleaving, blocking reads included: the bytes of the run's puts
      are the bytes handed out, in order, followed by those still queued; processedBytes plus
      dataSize counts them. The flags say which of markEnd and terminate the run has called. */
  lemma Conservation(steps: seq<Step>)
    requires Run(START, steps)
    ensures var s := Final(START, steps);
            && s.given == PutBytes(steps)
            && PutBytes(steps) == s.out + s.q.content
            && s.q.processed + |s.q.content| == |PutBytes(steps)|
            && (s.q.ended <==> RaiseEnd in steps)
            && (s.q.terminating <==> RaiseTerminate in steps)
  {
    InvRun(START, steps);
    History(START, steps);
    assert START.given + PutBytes(steps) == PutBytes(steps);
  }

  /** Two runs that put the same bytes and drain the queue hand out the same bytes, however
      either run cuts its puts and reads. */
  lemma ChunkingIndependence(one: seq<Step>, other: seq<Step>)
    requires Run(START, one) && Run(START, other)
    requires PutBytes(one) == PutBytes(other)
    requires Final(START, one).q.content == Final(START, other).q.content == []
    ensures Final(START, one).out == Final(START, other).out
  {
    Conservation(one);
    Conservation(other);
    assert Final(START, one).out + [] == Final(START, one).out;
    assert Final(START, other).out + [] == Final(START, other).out;
  }

  /** A put never strands the consumer: asleep without a notification, it still lacks bytes. */
  lemma NoLostPut(steps: seq<Step>)
    requires Run(START, steps)
    ensures var s := Final(START, steps);
            s.phase.Asleep? && !s.phase.notified ==> |s.q.content| < s.phase.n
  {
    InvRun(START, steps);
  }

  /** A blockingGet that tests its loop condition returns exactly when what is left of the bytes
      put meets the request, or the queue has ended or is terminated. It then hands out the next
      bytes put: none when terminated, all that are left when the queue has ended short of the
      request, otherwise exactly as many as were asked for. */
  predicate Delivers(s: State, last: Step)
    requires Enabled(s, last)
  {
    last.Begin? || last.Wake? ==>
      var n := if last.Begin? then last.n else s.phase.n;
      var left := |s.given| - |s.out|;
      var k := if s.q.terminating then 0 else if s.q.ended && left < n then left else n;
      var t := After(s, last);
      && (t.phase == Idle || t.phase == Checked(n))
      && (t.phase == Idle <==> n <= left || s.q.ended || s.q.terminating)
      && (t.phase == Idle ==> 0 <= k <= left && t.out == s.given[..|s.out| + k])
  }

  /** So it does over every interleaving of puts and gets with its waiting. */
  lemma BlockingDelivers(steps: seq<Step>, last: Step)
    requires Run(START, steps) && Enabled(Final(START, steps), last)
    ensures Delivers(Final(START, steps), last)
  {
    assert Delivers(Final(START, steps), last) by {
      InvRun(START, steps);
      Delivered(Final(START, steps), last);
    }
  }

  lemma Delivered(s: State, last: Step)
    requires Inv(s) && Enabled(s, last)
    ensures Delivers(s, last)
  {
    InvStep(s, last);
    PrefixOut(After(s, last));
  }

  lemma PrefixOut(s: State)
    requires Inv(s)
    ensures s.out == s.given[..|s.out|]
  {
  }

  /** What a get hands out, after any run: the next bytes put, exactly as many as a positive
      return value says and none on another. Fewer than the request only when that is all. */
  lemma GetCountsBytes(steps: seq<Step>, n: nat)
    requires Run(START, steps) && Enabled(Final(START, steps), Get(n))
    ensures var s, t := Final(START, steps), After(Final(START, steps), Get(n));
            var code := Q.GetCode(s.q, n);
            && t.given == s.given && |t.out| <= |t.given| && t.out == s.given[..|t.out|]
            && |t.out| == |s.out| + (if 0 < code then code else 0)
            && (0 < code ==> code == n || (code < n && t.out == t.given))
            && (0 < n && code <= 0 ==> s.out == s.given)
  {
    InvRun(START, steps);
    GetCounts(Final(START, steps), n);
  }

  lemma GetCounts(s: State, n: nat)
    requires Inv(s) && Enabled(s, Get(n))
    ensures var t := After(s, Get(n));
            var code := Q.GetCode(s.q, n);
            && t.given == s.given && |t.out| <= |t.given| && t.out == s.given[..|t.out|]
            && |t.out| == |s.out| + (if 0 < code then code else 0)
            && (0 < code ==> code == n || (code < n && t.out == t.given))
            && (0 < n && code <= 0 ==> s.out == s.given)
  {
    InvStep(s, Get(n));
    PrefixOut(After(s, Get(n)));
    PrefixOut(s);
  }

  /** The code of get for a positive request, after any run: -1 exactly when the end is marked
      and every byte ever put has been handed out, 0 exactly when they have been handed out and
      the end is not marked, otherwise the number of bytes the get hands out (GetCountsBytes). */
  lemma EndOfDataExact(steps: seq<Step>, n: nat)
    requires 0 < n && Run(START, steps)
    ensures var s := Final(START, steps);
            var code := Q.GetCode(s.q, n);
            && (code == -1 <==> s.q.ended && s.out == s.given)
            && (code == 0 <==> !s.q.ended && s.out == s.given)
            && (0 < code ==> s.out + s.q.content[..code] <= s.given)
  {
    InvRun(START, steps);
    var s := Final(START, steps);
    assert s.given == s.out + s.q.content;
    if s.out == s.given {
      assert |s.q.content| == 0;
    }
  }

  /** End of data is permanent: in any run that starts with a get returning -1, every later get
      returns -1 too, and no byte is handed out or taken in any more. */
  lemma {:induction false} EndOfDataPermanent(s: State, steps: seq<Step>)
    requires Q.GetCode(s.q, 1) == -1 && Run(s, steps)
    ensures forall n: nat :: Q.GetCode(Final(s, steps).q, n) == -1
    ensures Final(s, steps).out == s.out && Final(s, steps).given == s.given
    decreases steps
  {
    if steps == [] {
    } else {
      var c := s.q.content;
      assert c[..0] == [] && s.out + [] == s.out;
      EndOfDataPermanent(After(s, steps[0]), steps[1..]);
    }
  }

  /** The consumer sleeps on a raised flag that nobody is about to announce. */
  predicate Stranded(s: State) {
    && s.phase.Asleep? && !s.phase.notified
    && (s.q.ended || s.q.terminating)
    && s.raisers == 0
  }

  /** The last outstanding notify_all falls between the consumer's test and its wait. */
  predicate MissesConsumer(s: State, step: Step) {
    step.NotifyAll? && s.phase.Checked? && s.raisers == 1
  }

  predicate Timely(s: State, steps: seq<Step>)
    requires Run(s, steps)
    decreases steps
  {
    steps == [] || (!MissesConsumer(s, steps[0]) && Timely(After(s, steps[0]), steps[1..]))
  }

  /** Nobody sleeps, or is about to, on a raised flag that nobody will announce. */
  predicate Announced(s: State) {
    (&& (s.q.ended || s.q.terminating)
     && (s.phase.Checked? || (s.phase.Asleep? && !s.phase.notified))) ==>
      0 < s.raisers
  }

  /** Announced after every prefix of the run. */
  predicate AlwaysAnnounced(s: State, steps: seq<Step>)
    requires Run(s, steps)
    decreases steps
  {
    Announced(s) && (steps == [] || AlwaysAnnounced(After(s, steps[0]), steps[1..]))
  }

  /** Whoever is going to notify has raised a flag. */
  predicate RaisersRaised(s: State) {
    0 < s.raisers ==> s.q.ended || s.q.terminating
  }

  /** An announced state stays so exactly when the step is not a miss. */
  lemma AnnouncedStep(s: State, step: Step)
    requires Announced(s) && RaisersRaised(s) && Enabled(s, step)
    ensures RaisersRaised(After(s, step))
    ensures Announced(After(s, step)) <==> !MissesConsumer(s, step)
  {
    match step
    case Put(bytes) =>
    case Get(n) =>
    case RaiseEnd =>
    case RaiseTerminate =>
    case NotifyAll =>
    case Begin(n) =>
    case Sleep =>
    case Wake =>
  }

  /** The exact condition, for every run: markEnd and terminate are announced to the consumer
      after every prefix exactly when no last notify_all misses it. */
  lemma {:induction false} StrandedExactly(s: State, steps: seq<Step>)
    requires Announced(s) && RaisersRaised(s) && Run(s, steps)
    ensures AlwaysAnnounced(s, steps) <==> Timely(s, steps)
    decreases steps
  {
    if steps == [] {
    } else {
      AnnouncedStep(s, steps[0]);
      if !MissesConsumer(s, steps[0]) {
        StrandedExactly(After(s, steps[0]), steps[1..]);
      }
    }
  }

  lemma {:induction false} AlwaysAnnouncedLast(s: State, steps: seq<Step>)
    requires Run(s, steps) && AlwaysAnnounced(s, steps)
    ensures Announced(Final(s, steps))
    decreases steps
  {
    if steps == [] {
    } else {
      AlwaysAnnouncedLast(After(s, steps[0]), steps[1..]);
    }
  }

  /** So markEnd and terminate reach the consumer in every run without a miss ... */
  lemma TimelyNeverStranded(steps: seq<Step>)
    requires Run(START, steps) && Timely(START, steps)
    ensures !Stranded(Final(START, steps))
  {
    StrandedExactly(START, steps);
    AlwaysAnnouncedLast(START, steps);
  }

  /** ... and a miss strands it as soon as it goes to sleep, until it wakes by itself or somebody
      else notifies: in any run without these it sleeps on. */
  lemma MissStrands(s: State, steps: seq<Step>)
    requires RaisersRaised(s) && Enabled(s, NotifyAll) && MissesConsumer(s, NotifyAll)
    requires Run(After(After(s, NotifyAll), Sleep), steps)
    requires forall step | step in steps :: !step.Wake? && !step.NotifyAll?
    ensures var t := Final(After(After(s, NotifyAll), Sleep), steps);
            t.phase == Asleep(s.phase.n, false) && (t.q.ended || t.q.terminating)
    ensures Stranded(After(After(s, NotifyAll), Sleep))
  {
    SleepsOn(After(After(s, NotifyAll), Sleep), steps);
  }

  lemma {:induction false} SleepsOn(s: State, steps: seq<Step>)
    requires s.phase.Asleep? && !s.phase.notified && (s.q.ended || s.q.terminating) && Run(s, steps)
    requires forall step | step in steps :: !step.Wake? && !step.NotifyAll?
    ensures var t := Final(s, steps);
            t.phase == s.phase && (t.q.ended || t.q.terminating)
    decreases steps
  {
    if steps == [] {
    } else {
      assert steps[0] in steps;
      assert forall step | step in steps[1..] :: step in steps;
      SleepsOn(After(s, steps[0]), steps[1..]);
    }
  }

  /** Such a run exists: the end is marked just before the consumer goes to sleep. */
  lemma LostEnd()
    ensures var steps := [Begin(4), RaiseEnd, NotifyAll, Sleep];
            Run(START, steps) && Stranded(Final(START, steps))
  {
  }

  /** blockingGet gives the queue back to the next caller exactly when it did not return early. */
  lemma BusyExactly(steps: seq<Step>, last: Step)
    requires Run(START, steps) && Enabled(Final(START, steps), last)
    requires last.Begin? || last.Wake?
    requires After(Final(START, steps), last).phase.Idle?
    ensures After(Final(START, steps), last).q.busy <==> Q.ReturnsEarly(Final(START, steps).q)
  {
    InvRun(START, steps);
  }

  /** After an early return no blockingGet is ever accepted again: its assertion fails. */
  lemma {:induction false} BusyForever(s: State, steps: seq<Step>)
    requires s.phase.Idle? && s.q.busy && Run(s, steps)
    ensures Final(s, steps).phase.Idle? && forall n :: !Enabled(Final(s, steps), Begin(n))
    decreases steps
  {
    if steps == [] {
    } else {
      BusyForever(After(s, steps[0]), steps[1..]);
    }
  }

  /** An early return happens from the start: the end is marked before anything is put. */
  lemma BusyHappens()
    ensures var steps := [RaiseEnd, Begin(1)];
            && Run(START, steps)
            && Final(START, steps).phase.Idle? && Final(START, steps).q.busy
  {
  }
}
