/** One MSSpeechSession as a value: the state of a checkout, and what its methods do to it. */
module SessionSpec {
  import opened Bytes
  import opened Wrappers
  import Q = QueueSpec

  datatype Session = Session(
    requestId: string,
    queue: Q.Queue,
    handler: Option<string>,   // whose handler results go to, by request id
    started: bool,
    pendingAudio: bool,        // the audio callback found nothing and paused the stream
    locked: bool)              // completionLock

  function Fresh(requestId: string): Session {
    Session(requestId, Q.EMPTY, None, false, false, false)
  }

  /** recognizeStream up to its last line. */
  function Start(s: Session, handler: string): Session
    requires !s.started
  {
    s.(handler := Some(handler), pendingAudio := false, started := true)
  }

  /** The last line of recognizeStream, and all of waitForCompletion: taking completionLock. */
  function Lock(s: Session): Session
    requires !s.locked
  {
    s.(locked := true)
  }

  /** The precondition of sendAudio: it throws before the start, and put asserts after the end. */
  predicate CanSend(s: Session) {
    s.started && Q.CanPut(s.queue)
  }

  function Send(s: Session, bytes: seq<byte>): Session
    requires CanSend(s)
  {
    s.(queue := Q.Put(s.queue, bytes), pendingAudio := false)
  }

  function EndAudio(s: Session): Session
    requires s.started
  {
    s.(queue := s.queue.(ended := true))
  }

  function TurnEnd(s: Session): Session {
    s.(locked := false)
  }

  const EAGAIN := 11

  /** The return value of the audio callback: 0 says end of stream. */
  function CallbackCode(s: Session, n: nat): int {
    var size := Q.GetCode(s.queue, n);
    if size == -1 then 0 else if size == 0 then -EAGAIN else size
  }

  function Callback(s: Session, n: nat): Session {
    s.(queue := Q.Get(s.queue, n), pendingAudio := s.pendingAudio || CallbackCode(s, n) == -EAGAIN)
  }
}
