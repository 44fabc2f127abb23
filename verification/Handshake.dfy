/** The pause and resume handshake of one session, interleaved in any way. After its put, sendAudio
    is one step, or three: its look at pendingAudio, its clearing of it, its resume. The audio
    callback is one step, or three: its get, its write of pendingAudio, its return, which is when
    the library learns of -EAGAIN. A resume lets a paused stream go on, and is not remembered for
    a stream that is not paused yet. */
module Handshake {
  import opened Bytes
  import opened SessionSpec
  import Q = QueueSpec

  /** Where a callback that finds nothing is: it has found nothing, or it has also written
      pendingAudio, and in neither case returned. */
  datatype Window = Closed | Found | Flagged

  /** Where a sendAudio that has put its bytes is. */
  datatype Sender = Idle | HasPut | SawPause | Cleared

  datatype State = State(
    s: Session,
    sender: Sender,
    window: Window,
    paused: bool,     // the library has been told -EAGAIN, and no resume since
    eagains: nat,     // callbacks that found nothing
    resumes: nat)     // calls of ms_speech_resume_stream

  datatype Step =
    | SendPut(bytes: seq<byte>)
    | SendCheck                                             // the rest of sendAudio as one step
    | SendLook | SendClear | SendResume                     // the rest of sendAudio in three steps
    | EndAudio
    | Callback(n: nat)                                      // the callback as one step
    | CallbackGet(n: nat) | CallbackFlag | CallbackReturn   // the callback in three steps

  predicate Enabled(h: State, step: Step) {
    match step
    case SendPut(_) => CanSend(h.s) && h.sender.Idle?
    case SendCheck => h.sender.HasPut?
    case SendLook => h.sender.HasPut?
    case SendClear => h.sender.SawPause?
    case SendResume => h.sender.Cleared?
    case EndAudio => h.s.started && h.sender.Idle?
    case Callback(n) => h.s.started && h.window.Closed? && 0 < n
    case CallbackGet(n) => h.s.started && h.window.Closed? && 0 < n
    case CallbackFlag => h.window.Found?
    case CallbackReturn => h.window.Flagged?
  }

  function After(h: State, step: Step): State
    requires Enabled(h, step)
  {
    match step
    case SendPut(bytes) => h.(s := h.s.(queue := Q.Put(h.s.queue, bytes)), sender := HasPut)
    case SendCheck =>
      h.(s := h.s.(pendingAudio := false), sender := Idle,
         paused := h.paused && !h.s.pendingAudio,
         resumes := h.resumes + if h.s.pendingAudio then 1 else 0)
    case SendLook => h.(sender := if h.s.pendingAudio then SawPause else Idle)
    case SendClear => h.(s := h.s.(pendingAudio := false), sender := Cleared)
    case SendResume => h.(sender := Idle, paused := false, resumes := h.resumes + 1)
    case EndAudio => h.(s := SessionSpec.EndAudio(h.s))
    case Callback(n) =>
      var empty := CallbackCode(h.s, n) == -EAGAIN;
      h.(s := SessionSpec.Callback(h.s, n), paused := h.paused || empty,
         eagains := h.eagains + if empty then 1 else 0)
    case CallbackGet(n) =>
      var empty := CallbackCode(h.s, n) == -EAGAIN;
      h.(s := h.s.(queue := Q.Get(h.s.queue, n)), window := if empty then Found else Closed,
         eagains := h.eagains + if empty then 1 else 0)
    case CallbackFlag => h.(s := h.s.(pendingAudio := true), window := Flagged)
    case CallbackReturn => h.(window := Closed, paused := true)
  }

  predicate Run(h: State, steps: seq<Step>)
    decreases steps
  {
    steps == [] || (Enabled(h, steps[0]) && Run(After(h, steps[0]), steps[1..]))
  }

  function Final(h: State, steps: seq<Step>): State
    requires Run(h, steps)
    decreases steps
  {
    if steps == [] then h else Final(After(h, steps[0]), steps[1..])
  }

  /** A stream that recognizeStream has just started. */
  predicate Init(h: State) {
    && h.s.started && !h.s.pendingAudio && h.s.queue.content == [] && Q.CanPut(h.s.queue)
    && h.sender.Idle? && h.window.Closed? && !h.paused && h.eagains == h.resumes == 0
  }

  /** Bytes sit behind a paused stream, and no sendAudio is under way. */
  predicate Stuck(h: State) {
    h.paused && h.s.queue.content != [] && h.sender.Idle?
  }

  /** sendAudio looks before the callback has written the flag, with bytes in the queue, or its
      resume comes before the callback has returned the -EAGAIN that it would answer. */
  predicate TooEarly(h: State, step: Step) {
    match step
    case SendLook => h.window.Found? && h.s.queue.content != [] && !h.s.pendingAudio
    case SendResume =>
      !h.window.Closed? && (h.s.queue.content != [] || (h.window.Flagged? && !h.s.pendingAudio))
    case SendCheck => (h.window.Found? && h.s.queue.content != []) || h.window.Flagged?
    case _ => false
  }

  predicate Timely(h: State, steps: seq<Step>)
    requires Run(h, steps)
    decreases steps
  {
    steps == [] || (!TooEarly(h, steps[0]) && Timely(After(h, steps[0]), steps[1..]))
  }

  predicate AtomicCallback(steps: seq<Step>) {
    forall step | step in steps :: !step.CallbackGet?
  }

  predicate AtomicSend(steps: seq<Step>) {
    forall step | step in steps :: !step.SendLook?
  }

  /** Nothing is stuck, and nothing is bound to be: a stream that is paused or about to be has no
      bytes without a sendAudio under way, and its pause is on record in pendingAudio, or a
      sendAudio has read that record and is about to resume. */
  predicate Safe(h: State) {
    && (h.paused || !h.window.Closed? ==> h.s.queue.content == [] || !h.sender.Idle?)
    && (h.paused || h.window.Flagged? ==> h.s.pendingAudio || h.sender.SawPause? || h.sender.Cleared?)
  }

  /** Safe after every prefix of the run. */
  predicate AlwaysSafe(h: State, steps: seq<Step>)
    requires Run(h, steps)
    decreases steps
  {
    Safe(h) && (steps == [] || AlwaysSafe(After(h, steps[0]), steps[1..]))
  }

  /** A safe state stays safe exactly when the step does not look too early. */
  lemma SafeStep(h: State, step: Step)
    requires Safe(h) && Enabled(h, step)
    ensures Safe(After(h, step)) <==> !TooEarly(h, step)
  {
    match step
    case SendPut(bytes) =>
    case SendCheck =>
    case SendLook =>
    case SendClear =>
    case SendResume =>
    case EndAudio =>
    case Callback(n) =>
    case CallbackGet(n) =>
    case CallbackFlag =>
    case CallbackReturn =>
  }

  lemma {:induction false} AlwaysSafeLast(h: State, steps: seq<Step>)
    requires Run(h, steps) && AlwaysSafe(h, steps)
    ensures Safe(Final(h, steps))
    decreases steps
  {
    if steps == [] {
    } else {
      AlwaysSafeLast(After(h, steps[0]), steps[1..]);
    }
  }

  lemma {:induction false} AtomicIsTimely(h: State, steps: seq<Step>)
    requires Run(h, steps) && AtomicCallback(steps) && h.window.Closed?
    ensures Timely(h, steps)
    decreases steps
  {
    if steps == [] {
    } else {
      assert steps[0] in steps;
      assert forall step | step in steps[1..] :: step in steps;
      AtomicIsTimely(After(h, steps[0]), steps[1..]);
    }
  }

  /** Each resume answers a callback that found nothing. */
  predicate Counted(h: State) {
    && (h.sender.SawPause? ==> h.s.pendingAudio)
    && h.resumes + (if h.s.pendingAudio then 1 else 0) + (if h.sender.Cleared? then 1 else 0)
       + (if h.window.Found? then 1 else 0) <= h.eagains
  }

  lemma {:induction false} CountedRun(h: State, steps: seq<Step>)
    requires Counted(h) && Run(h, steps)
    ensures Counted(Final(h, steps))
    decreases steps
  {
    if steps == [] {
    } else {
      CountedRun(After(h, steps[0]), steps[1..]);
    }
  }

  // Main results

  /** The steps are the session's methods: put and look together send, the callback hands out and
      pauses exactly when there is nothing yet, and the three steps of either in a row are the
      one step. */
  lemma StepsAreMethods(h: State, bytes: seq<byte>, n: nat)
    ensures Enabled(h, SendPut(bytes)) ==>
              var e := After(After(h, SendPut(bytes)), SendCheck);
              && e.s == SessionSpec.Send(h.s, bytes) && e.sender == h.sender
              && (e.paused <==> h.paused && !h.s.pendingAudio)
              && e.resumes == h.resumes + if h.s.pendingAudio then 1 else 0
    ensures Enabled(h, SendCheck) ==>
              var look := After(h, SendLook);
              After(h, SendCheck) == if look.sender.SawPause? then After(After(look, SendClear), SendResume) else look
    ensures Enabled(h, Callback(n)) ==>
              var e, found := After(h, Callback(n)), After(h, CallbackGet(n));
              && e.s == SessionSpec.Callback(h.s, n)
              && (e.paused <==> h.paused || (h.s.queue.content == [] && !h.s.queue.ended))
              && e.eagains == h.eagains + (if h.s.queue.content == [] && !h.s.queue.ended then 1 else 0)
              && e.resumes == h.resumes && e.sender == h.sender
              && e == (if found.window.Found? then After(After(found, CallbackFlag), CallbackReturn) else found)
  {
  }

  /** Over every run, resumes never outnumber the callbacks that found nothing. */
  lemma ResumesAnswerPauses(h: State, steps: seq<Step>)
    requires Init(h) && Run(h, steps)
    ensures Final(h, steps).resumes <= Final(h, steps).eagains
  {
    CountedRun(h, steps);
  }

  /** With the callback as one step: while no sendAudio is under way a paused stream, whether by
      pendingAudio or as the library sees it, has an empty queue. With sendAudio's test and resume
      as one step too, pendingAudio says exactly whether the stream is paused. */
  lemma AtomicNeverStuck(h: State, steps: seq<Step>)
    requires Init(h) && Run(h, steps) && AtomicCallback(steps)
    ensures var e := Final(h, steps);
            !Stuck(e) && (e.s.pendingAudio && e.sender.Idle? ==> e.s.queue.content == [])
    ensures AtomicSend(steps) ==> (Final(h, steps).s.pendingAudio <==> Final(h, steps).paused)
  {
    AtomicIsTimely(h, steps);
    StuckExactly(h, steps);
    AlwaysSafeLast(h, steps);
    AtomicFlag(h, steps);
    if AtomicSend(steps) {
      AtomicSame(h, steps);
    }
  }

  lemma {:induction false} AtomicFlag(h: State, steps: seq<Step>)
    requires Run(h, steps) && AtomicCallback(steps) && h.window.Closed?
    requires h.s.pendingAudio && (h.sender.Idle? || h.sender.Cleared?) ==> h.s.queue.content == []
    ensures Final(h, steps).s.pendingAudio && Final(h, steps).sender.Idle? ==> Final(h, steps).s.queue.content == []
    decreases steps
  {
    if steps == [] {
    } else {
      assert steps[0] in steps;
      assert forall step | step in steps[1..] :: step in steps;
      AtomicFlag(After(h, steps[0]), steps[1..]);
    }
  }

  lemma {:induction false} AtomicSame(h: State, steps: seq<Step>)
    requires Run(h, steps) && AtomicCallback(steps) && AtomicSend(steps)
    requires h.window.Closed? && (h.sender.Idle? || h.sender.HasPut?) && (h.s.pendingAudio <==> h.paused)
    ensures Final(h, steps).s.pendingAudio <==> Final(h, steps).paused
    decreases steps
  {
    if steps == [] {
    } else {
      assert steps[0] in steps;
      assert forall step | step in steps[1..] :: step in steps;
      AtomicSame(After(h, steps[0]), steps[1..]);
    }
  }

  /** The exact condition, for every run: the handshake is safe after every prefix exactly when no
      sendAudio looks or resumes too early. */
  lemma {:induction false} StuckExactly(h: State, steps: seq<Step>)
    requires Safe(h) && Run(h, steps)
    ensures AlwaysSafe(h, steps) <==> Timely(h, steps)
    decreases steps
  {
    if steps == [] {
    } else {
      SafeStep(h, steps[0]);
      if !TooEarly(h, steps[0]) {
        StuckExactly(After(h, steps[0]), steps[1..]);
      }
    }
  }

  /** Safe runs are not stuck. */
  lemma TimelyNeverStuck(h: State, steps: seq<Step>)
    requires Init(h) && Run(h, steps) && Timely(h, steps)
    ensures !Stuck(Final(h, steps))
  {
    StuckExactly(h, steps);
    AlwaysSafeLast(h, steps);
  }

  /** The rest of a callback that has found nothing. */
  function Finish(h: State): State
    requires !h.window.Closed?
  {
    After(if h.window.Found? then After(h, CallbackFlag) else h, CallbackReturn)
  }

  /** And a step that comes too early does harm. Before the flag, the callback only has to finish
      to leave bytes stuck; pendingAudio then says so, and the next sendAudio resumes. */
  lemma TooEarlyBeforeFlag(h: State, step: Step)
    requires Enabled(h, step) && TooEarly(h, step) && h.window.Found?
    ensures Stuck(Finish(After(h, step))) && Finish(After(h, step)).s.pendingAudio
  {
  }

  /** After the flag, either that happens, or the stream is paused with no record of it: whatever
      is sent from then on stays queued, no sendAudio resumes, and the stream is stuck as soon as
      a byte is there. */
  lemma TooEarlyAfterFlag(h: State, step: Step, steps: seq<Step>)
    requires Enabled(h, step) && TooEarly(h, step) && h.window.Flagged?
    requires Run(Finish(After(h, step)), steps)
    requires forall step | step in steps :: !step.Callback? && !step.CallbackGet?
    ensures var f := Finish(After(h, step));
            var e := Final(f, steps);
            if f.s.pendingAudio then Stuck(f)
            else
              && e.paused && !e.s.pendingAudio
              && e.resumes == f.resumes
              && h.s.queue.content <= e.s.queue.content
              && (e.s.queue.content != [] && e.sender.Idle? ==> Stuck(e))
  {
    if !Finish(After(h, step)).s.pendingAudio {
      LostForever(Finish(After(h, step)), steps);
    }
  }

  /** A paused stream makes no callbacks, so a pause that is not on record lasts. */
  lemma {:induction false} LostForever(h: State, steps: seq<Step>)
    requires h.paused && !h.s.pendingAudio && h.window.Closed? && Run(h, steps)
    requires h.sender.Idle? || h.sender.HasPut?
    requires forall step | step in steps :: !step.Callback? && !step.CallbackGet?
    ensures var e := Final(h, steps);
            && e.paused && !e.s.pendingAudio && e.resumes == h.resumes
            && h.s.queue.content <= e.s.queue.content
    decreases steps
  {
    if steps == [] {
    } else {
      assert steps[0] in steps;
      assert forall step | step in steps[1..] :: step in steps;
      LostForever(After(h, steps[0]), steps[1..]);
    }
  }

  /** Both kinds of run exist from the start of any stream. With a look before the flag no resume
      is sent; with a look after it the resume is sent too soon. */
  lemma SplitCallbackGetsStuck(h: State, b: byte, before: seq<Step>, after: seq<Step>)
    requires Init(h)
    requires before == [CallbackGet(1), SendPut([b]), SendCheck, CallbackFlag, CallbackReturn]
    requires after == [CallbackGet(1), CallbackFlag, SendPut([b]), SendCheck, CallbackReturn]
    ensures Run(h, before) && Stuck(Final(h, before))
    ensures Final(h, before).resumes == 0 && Final(h, before).s.pendingAudio
    ensures Run(h, after) && Stuck(Final(h, after))
    ensures Final(h, after).resumes == 1 && !Final(h, after).s.pendingAudio
  {
    StuckBeforeFlag(h, b);
    StuckAfterFlag(h, b);
  }

  lemma StuckBeforeFlag(h: State, b: byte)
    requires Init(h)
    ensures var steps := [CallbackGet(1), SendPut([b]), SendCheck, CallbackFlag, CallbackReturn];
            && Run(h, steps) && Stuck(Final(h, steps))
            && Final(h, steps).resumes == 0 && Final(h, steps).s.pendingAudio
  {
    FirstCallback(h);
    var h1 := h.(window := Found, eagains := 1);
    var h2 := h1.(s := h1.s.(queue := h1.s.queue.(content := [b])), sender := HasPut);
    var h3 := h2.(sender := Idle);
    var h4 := h3.(s := h3.s.(pendingAudio := true), window := Flagged);
    assert After(h1, SendPut([b])) == h2;
    assert After(h2, SendCheck) == h3;
    assert After(h3, CallbackFlag) == h4;
    FiveSteps(h, h1, h2, h3, h4, CallbackGet(1), SendPut([b]), SendCheck, CallbackFlag, CallbackReturn);
  }

  lemma StuckAfterFlag(h: State, b: byte)
    requires Init(h)
    ensures var steps := [CallbackGet(1), CallbackFlag, SendPut([b]), SendCheck, CallbackReturn];
            && Run(h, steps) && Stuck(Final(h, steps))
            && Final(h, steps).resumes == 1 && !Final(h, steps).s.pendingAudio
  {
    FirstCallback(h);
    var h1 := h.(window := Found, eagains := 1);
    var h2 := h1.(s := h1.s.(pendingAudio := true), window := Flagged);
    var h3 := h2.(s := h2.s.(queue := h2.s.queue.(content := [b])), sender := HasPut);
    var h4 := h3.(s := h3.s.(pendingAudio := false), sender := Idle, resumes := 1);
    assert After(h1, CallbackFlag) == h2;
    assert After(h2, SendPut([b])) == h3;
    assert After(h3, SendCheck) == h4;
    FiveSteps(h, h1, h2, h3, h4, CallbackGet(1), CallbackFlag, SendPut([b]), SendCheck, CallbackReturn);
  }

  lemma FirstCallback(h: State)
    requires Init(h)
    ensures Enabled(h, CallbackGet(1))
    ensures After(h, CallbackGet(1)) == h.(window := Found, eagains := 1)
  {
    var q := h.s.queue;
    assert Q.Get(q, 1) == q && CallbackCode(h.s, 1) == -EAGAIN;
    assert h.s.(queue := q) == h.s;
  }

  lemma FiveSteps(h: State, h1: State, h2: State, h3: State, h4: State,
                  a: Step, b: Step, c: Step, d: Step, e: Step)
    requires Enabled(h, a) && After(h, a) == h1
    requires Enabled(h1, b) && After(h1, b) == h2
    requires Enabled(h2, c) && After(h2, c) == h3
    requires Enabled(h3, d) && After(h3, d) == h4
    requires Enabled(h4, e)
    ensures Run(h, [a, b, c, d, e]) && Final(h, [a, b, c, d, e]) == After(h4, e)
  {
    assert [a, b, c, d, e][1..] == [b, c, d, e] && [b, c, d, e][1..] == [c, d, e];
    assert [c, d, e][1..] == [d, e] && [d, e][1..] == [e] && [e][1..] == [];
    assert Run(After(h4, e), []) && Final(After(h4, e), []) == After(h4, e);
    assert Run(h4, [e]) && Final(h4, [e]) == After(h4, e);
    assert Run(h3, [d, e]) && Final(h3, [d, e]) == Final(h4, [e]);
    assert Run(h2, [c, d, e]) && Final(h2, [c, d, e]) == Final(h3, [d, e]);
    assert Run(h1, [b, c, d, e]) && Final(h1, [b, c, d, e]) == Final(h2, [c, d, e]);
  }

  /** endAudio never resumes. Once the audio has ended no resume is sent in any run, and the
      stream ends up paused exactly when it was, or when a callback that had already found nothing
      still returns. */
  lemma {:induction false} EndedNeverResumes(h: State, steps: seq<Step>)
    requires h.s.queue.ended && h.sender.Idle? && Run(h, steps)
    ensures Final(h, steps).resumes == h.resumes
    ensures Final(h, steps).paused <==> h.paused || (!h.window.Closed? && CallbackReturn in steps)
    decreases steps
  {
    if steps == [] {
    } else {
      EndedNeverResumes(After(h, steps[0]), steps[1..]);
      assert steps == [steps[0]] + steps[1..];
    }
  }

  /** Any stream can meet this: its first callback finds nothing, and its audio ends. */
  lemma EndedWhilePaused(h: State)
    requires Init(h)
    ensures Enabled(h, Callback(1)) && Enabled(After(h, Callback(1)), EndAudio)
    ensures var e := After(After(h, Callback(1)), EndAudio);
            e.s.queue.ended && e.sender.Idle? && e.paused && e.window.Closed?
  {
  }
}
