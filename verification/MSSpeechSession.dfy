/** The per-request session on the heap, proved against SessionSpec. */
module MSSpeechSessionModule {
  import opened Bytes
  import opened Wrappers
  import opened AudioQueueModule
  import Q = QueueSpec
  import Spec = SessionSpec

  /** The exceptions recognizeStream, sendAudio and endAudio throw. */
  datatype Outcome = Done | LogicError(message: string)

  class MSSpeechSession {
    var requestId: string
    var audioQueue: AudioQueue
    var sessionHandler: Option<string>
    var recognitionStarted: bool
    var pendingAudio: bool
    var completionLock: bool
    var resumes: nat  // calls of ms_speech_resume_stream

    ghost predicate Valid()
      reads this, audioQueue, audioQueue.Repr
    {
      audioQueue.Valid() && this !in audioQueue.Repr
    }

    ghost function View(): Spec.Session
      requires Valid()
      reads this, audioQueue, audioQueue.Repr
    {
      Spec.Session(requestId, audioQueue.View(), sessionHandler, recognitionStarted, pendingAudio, completionLock)
    }

    /** The C++ constructor does not set pendingAudio; recognizeStream does before its first use. */
    constructor (requestId: string)
      ensures Valid() && fresh(audioQueue) && fresh(audioQueue.Repr)
      ensures View() == Spec.Fresh(requestId) && resumes == 0
      ensures !recognitionStarted && !pendingAudio && !completionLock && sessionHandler == None
      ensures audioQueue.View() == Q.EMPTY && this.requestId == requestId
    {
      this.requestId, sessionHandler := requestId, None;
      recognitionStarted, pendingAudio, completionLock, resumes := false, false, false, 0;
      audioQueue := new AudioQueue();
    }

    /** Everything but the final lock, which another thread may have to make possible. */
    method RecognizeStream(handler: string) returns (r: Outcome)
      requires Valid()
      modifies this
      ensures Valid() && audioQueue == old(audioQueue) && resumes == old(resumes)
      ensures r.Done? <==> !old(recognitionStarted)
      ensures View() == if r.Done? then Spec.Start(old(View()), handler) else old(View())
      ensures r.Done? ==> recognitionStarted && sessionHandler == Some(handler) && !pendingAudio
      ensures requestId == old(requestId) && completionLock == old(completionLock)
      ensures audioQueue.View() == old(audioQueue.View())
    {
      if recognitionStarted {
        return LogicError("Recognition already started");
      }
      sessionHandler := Some(handler);
      pendingAudio := false;
      recognitionStarted := true;
      r := Done;
    }

    method SendAudio(buffer: array<byte>, length: nat) returns (r: Outcome)
      requires Valid() && buffer !in audioQueue.Repr && length <= buffer.Length
      requires recognitionStarted ==> Q.CanPut(audioQueue.View())
      modifies this, audioQueue
      ensures Valid() && audioQueue == old(audioQueue) && fresh(audioQueue.Repr - old(audioQueue.Repr))
      ensures r.Done? <==> old(recognitionStarted)
      ensures View() == if r.Done? then Spec.Send(old(View()), buffer[..length]) else old(View())
      ensures resumes == old(resumes) + if r.Done? && old(pendingAudio) then 1 else 0
      ensures r.Done? ==> !pendingAudio
      ensures r.Done? ==>
                audioQueue.View() == old(audioQueue.View()).(content := old(audioQueue.View()).content + buffer[..length])
    {
      if !recognitionStarted {
        return LogicError("Recognition hasn't started");
      }
      var _, _ := audioQueue.Put(buffer, length);
      if pendingAudio {
        pendingAudio := false;
        resumes := resumes + 1;
      }
      r := Done;
    }

    method EndAudio() returns (r: Outcome)
      requires Valid()
      modifies audioQueue
      ensures Valid() && audioQueue.Repr == old(audioQueue.Repr)
      ensures r.Done? <==> recognitionStarted
      ensures View() == if r.Done? then Spec.EndAudio(old(View())) else old(View())
      ensures r.Done? ==> audioQueue.View() == old(audioQueue.View()).(ended := true)
    {
      if !recognitionStarted {
        return LogicError("Recognition hasn't started");
      }
      var _ := audioQueue.MarkEnd();
      r := Done;
    }

    method Lock()
      requires Valid() && !completionLock
      modifies this
      ensures Valid() && audioQueue == old(audioQueue) && resumes == old(resumes)
      ensures View() == Spec.Lock(old(View())) == old(View()).(locked := true)
    {
      completionLock := true;
    }

    method MsspeechTurnEnd()
      requires Valid()
      modifies this
      ensures Valid() && audioQueue == old(audioQueue) && resumes == old(resumes)
      ensures View() == Spec.TurnEnd(old(View())) == old(View()).(locked := false)
    {
      completionLock := false;
    }

    method AudioCallback(buffer: array<byte>, length: nat) returns (r: int)
      requires Valid() && buffer !in audioQueue.Repr && length <= buffer.Length
      modifies this, audioQueue.Repr, buffer
      ensures Valid() && audioQueue == old(audioQueue) && audioQueue.Repr <= old(audioQueue.Repr)
      ensures resumes == old(resumes)
      ensures r == Spec.CallbackCode(old(View()), length)
      ensures View() == Spec.Callback(old(View()), length)
      // so 0 says that the audio has ended and is all handed out, -EAGAIN that there is none yet,
      // and a positive value counts the bytes handed out
      ensures 0 < length ==>
                var was := old(audioQueue.View());
                && (r == 0 <==> was.ended && was.content == [])
                && (r == -11 <==> !was.ended && was.content == [])
                && (0 < r <==> was.content != [])
      ensures 0 < r ==>
                && r <= length && r <= |old(audioQueue.View()).content|
                && buffer[..r] == old(audioQueue.View()).content[..r]
                && audioQueue.View().content == old(audioQueue.View()).content[r..]
                && (r == length || audioQueue.View().content == [])
      ensures r <= 0 ==> audioQueue.View() == old(audioQueue.View()) && buffer[..] == old(buffer[..])
      ensures 0 < length ==>
                (pendingAudio <==> old(pendingAudio) || (!old(audioQueue.ended) && old(audioQueue.View()).content == []))
      ensures requestId == old(requestId) && sessionHandler == old(sessionHandler)
      ensures recognitionStarted == old(recognitionStarted) && completionLock == old(completionLock)
    {
      var size := audioQueue.Get(buffer, length);
      if size == -1 {
        return 0;
      } else if size == 0 {
        pendingAudio := true;
        return -Spec.EAGAIN;
      }
      r := size;
    }
  }
}
