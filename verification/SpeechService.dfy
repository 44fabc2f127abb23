/** The request flow: the checks before a session is asked for, and the audio loop after. */
module SpeechService {
  import opened Bytes
  import opened Wrappers
  import opened RecoConfig
  import opened MSSpeechSessionModule
  import Spec = SessionSpec
  import Q = QueueSpec

  /** What StreamingRecognize does up to getSession: a refusal, or the URL it asks the pool for. */
  method AdmitStreaming(first: Option<StreamingRecognitionConfig>) returns (status: Status, url: string)
    ensures status == Admit(Streaming(first))
    ensures status.OK? ==> url == Url(ConfigOf(Streaming(first)))
    // that is: no configuration comes first, then the three refusals of load, and the URL asks for
    // what the client asked for
    ensures status.OK? <==>
              && first.Some?
              && var g := first.value.config;
                 g.encoding == LINEAR16 && g.maxAlternatives <= 5 && g.speechContexts == 0
    ensures first.None? <==> status == FailedPrecondition("streaming_config not provided")
    ensures status.OK? ==>
              ReadUrl(url) == Some((!first.value.singleUtterance, first.value.config.languageCode, first.value.config.profanityFilter))
  {
    url := "";
    if first.None? {
      return FailedPrecondition("streaming_config not provided"), url;
    }
    var config := new MSSpeechRecoConfig();
    status := config.LoadStreaming(first.value);
    if status.OK? {
      url := config.GetMSSpeechUrl();
      UrlSaysWanted(Streaming(first));
    }
  }

  /** What Recognize does up to getSession: the configuration is checked before the content. */
  method AdmitSync(g: RecognitionConfig, hasContent: bool) returns (status: Status, url: string)
    ensures status == Admit(Sync(g, hasContent))
    ensures status.OK? ==> url == Url(ConfigOf(Sync(g, hasContent)))
    ensures status.OK? <==> hasContent && g.encoding == LINEAR16 && g.maxAlternatives <= 5 && g.speechContexts == 0
    ensures status == InvalidArgument("audio.content not provided") <==>
              !hasContent && g.encoding == LINEAR16 && g.maxAlternatives <= 5 && g.speechContexts == 0
    ensures status.OK? ==> ReadUrl(url) == Some((false, g.languageCode, g.profanityFilter))
  {
    url := "";
    var config := new MSSpeechRecoConfig();
    status := config.Load(g);
    if !status.OK? {
      return;
    }
    if !hasContent {
      return InvalidArgument("audio.content not provided"), url;
    }
    url := config.GetMSSpeechUrl();
    UrlSaysWanted(Sync(g, hasContent));
  }

  /** One turn of the read loop: the payload of a read goes to the session. */
  method SendPayload(session: MSSpeechSession, payload: seq<byte>)
    requires session.Valid() && Spec.CanSend(session.View())
    modifies session, session.audioQueue
    ensures session.Valid() && session.audioQueue == old(session.audioQueue)
    ensures fresh(session.audioQueue.Repr - old(session.audioQueue.Repr))
    ensures session.View() == Spec.Send(old(session.View()), payload)
    ensures session.audioQueue.View() ==
            old(session.audioQueue.View()).(content := old(session.audioQueue.View()).content + payload)
    ensures !session.pendingAudio
    ensures session.resumes == old(session.resumes) + if old(session.pendingAudio) then 1 else 0
  {
    var buffer := new byte[|payload|](i requires 0 <= i < |payload| => payload[i]);
    assert buffer[..|payload|] == payload;
    var _ := session.SendAudio(buffer, |payload|);
  }

  /** The session has been sent these bytes, in how many payloads does not matter; a paused
      stream has been resumed once if there was any payload. */
  ghost predicate HasSent(session: MSSpeechSession, was: Spec.Session, resumes: nat, bytes: seq<byte>, any: bool)
    requires session.Valid()
    reads session, session.audioQueue, session.audioQueue.Repr
  {
    && session.View() == was.(queue := was.queue.(content := was.queue.content + bytes),
                              pendingAudio := was.pendingAudio && !any)
    && session.resumes == resumes + if was.pendingAudio && any then 1 else 0
  }

  method SendNext(session: MSSpeechSession, payload: seq<byte>,
                  ghost was: Spec.Session, ghost resumes: nat, ghost bytes: seq<byte>, ghost any: bool)
    requires session.Valid() && Spec.CanSend(session.View()) && HasSent(session, was, resumes, bytes, any)
    modifies session, session.audioQueue
    ensures session.Valid() && session.audioQueue == old(session.audioQueue)
    ensures fresh(session.audioQueue.Repr - old(session.audioQueue.Repr))
    ensures HasSent(session, was, resumes, bytes + payload, true)
  {
    SendPayload(session, payload);
    assert was.queue.content + bytes + payload == was.queue.content + (bytes + payload);
  }

  /** The read loop of StreamingRecognize, with nothing running beside it: the queue gets exactly
      the payloads, in order, and at most one resume is sent. */
  method SendPayloads(session: MSSpeechSession, payloads: seq<seq<byte>>)
    requires session.Valid() && Spec.CanSend(session.View())
    modifies session, session.audioQueue
    ensures session.Valid() && session.audioQueue == old(session.audioQueue)
    ensures fresh(session.audioQueue.Repr - old(session.audioQueue.Repr))
    ensures HasSent(session, old(session.View()), old(session.resumes), Flatten(payloads), payloads != [])
  {
    ghost var was, resumes := session.View(), session.resumes;
    assert was.queue.content + [] == was.queue.content;
    for i := 0 to |payloads|
      invariant session.Valid() && session.audioQueue == old(session.audioQueue)
      invariant fresh(session.audioQueue.Repr - old(session.audioQueue.Repr))
      invariant HasSent(session, was, resumes, Flatten(payloads[..i]), 0 < i)
    {
      assert payloads[..i + 1] == payloads[..i] + [payloads[i]];
      FlattenAppend(payloads[..i], payloads[i]);
      SendNext(session, payloads[i], was, resumes, Flatten(payloads[..i]), 0 < i);
    }
    assert payloads[..|payloads|] == payloads;
  }

  /** What both calls do between getSession and waitForCompletion, on a session fresh from the
      pool (Recognize sends its whole audio as one payload). */
  method SendStream(session: MSSpeechSession, handler: string, payloads: seq<seq<byte>>)
    requires session.Valid() && session.View() == Spec.Fresh(session.requestId)
    modifies session, session.audioQueue
    ensures session.Valid() && session.audioQueue == old(session.audioQueue)
    ensures session.View() == Spec.Session(
              old(session.requestId),
              Q.EMPTY.(content := Flatten(payloads), ended := true),
              Some(handler), true, false, true)
    ensures session.resumes == old(session.resumes)
  {
    var _ := session.RecognizeStream(handler);
    session.Lock();
    assert Q.EMPTY.content + Flatten(payloads) == Flatten(payloads);
    SendPayloads(session, payloads);
    var _ := session.EndAudio();
  }
}
