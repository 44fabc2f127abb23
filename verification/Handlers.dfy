/** The two result handlers: how the message stream of one turn becomes responses. */
module Handlers {
  datatype RecoStatus = SUCCESS | DICTATION_END | ERROR | NO_MATCH | INITIAL_SILENCE_TIMEOUT | BABBLE_TIMEOUT

  datatype Phrase = Phrase(display: string, confidence: real)

  datatype Message =
    | Hypothesis(text: string)
    | Fragment(text: string)
    | Result(status: RecoStatus, phrases: seq<Phrase>)

  datatype Alternative = Alternative(transcript: string, confidence: real)

  /** One result of a response; a streaming response holds exactly one. */
  datatype RecoResult = RecoResult(isFinal: bool, alternatives: seq<Alternative>)

  function Interim(text: string): RecoResult {
    RecoResult(false, [Alternative(text, 0.0)])
  }

  function Alternatives(phrases: seq<Phrase>): seq<Alternative> {
    seq(|phrases|, i requires 0 <= i < |phrases| => Alternative(phrases[i].display, phrases[i].confidence))
  }

  /** The alternatives are the phrases, position by position. */
  predicate Shows(alternatives: seq<Alternative>, phrases: seq<Phrase>) {
    && |alternatives| == |phrases|
    && forall i | 0 <= i < |phrases| ::
         alternatives[i].transcript == phrases[i].display && alternatives[i].confidence == phrases[i].confidence
  }

  /** The loop both handlers share: one alternative per phrase. */
  method AddAlternatives(phrases: seq<Phrase>) returns (alternatives: seq<Alternative>)
    ensures alternatives == Alternatives(phrases)
    ensures Shows(alternatives, phrases)
  {
    alternatives := [];
    for i := 0 to |phrases|
      invariant alternatives == Alternatives(phrases)[..i]
    {
      alternatives := alternatives + [Alternative(phrases[i].display, phrases[i].confidence)];
    }
  }

  // Specification: one message at a time

  datatype Stream = Stream(
    interim: bool,              // intermediate results were asked for
    phrase: string,             // currentDictationPhrase
    written: seq<RecoResult>)   // responses written so far

  function Extended(phrase: string, text: string): string {
    if phrase == "" then text else phrase + " " + text
  }

  function StreamStep(s: Stream, m: Message): Stream {
    match m
    case Hypothesis(text) =>
      if s.interim then s.(written := s.written + [Interim(text)]) else s
    case Fragment(text) =>
      if s.interim then
        var phrase := Extended(s.phrase, text);
        s.(phrase := phrase, written := s.written + [Interim(phrase)])
      else s
    case Result(status, phrases) =>
      s.(phrase := "",
         written := if status.SUCCESS? then s.written + [RecoResult(true, Alternatives(phrases))]
                    else s.written)
  }

  function SyncStep(results: seq<seq<Alternative>>, m: Message): seq<seq<Alternative>> {
    if m.Result? && m.status.SUCCESS? then results + [Alternatives(m.phrases)] else results
  }

  function StreamAll(s: Stream, ms: seq<Message>): Stream {
    if ms == [] then s else StreamStep(StreamAll(s, ms[..|ms| - 1]), ms[|ms| - 1])
  }

  function SyncAll(ms: seq<Message>): seq<seq<Alternative>> {
    if ms == [] then [] else SyncStep(SyncAll(ms[..|ms| - 1]), ms[|ms| - 1])
  }

  // The handlers

  class StreamingRpcRequestHandler {
    const enableIntermediateResults: bool
    var currentDictationPhrase: string
    var written: seq<RecoResult>

    ghost function View(): Stream
      reads this
    {
      Stream(enableIntermediateResults, currentDictationPhrase, written)
    }

    constructor (enableIntermediateResults: bool)
      ensures View() == Stream(enableIntermediateResults, "", [])
    {
      this.enableIntermediateResults := enableIntermediateResults;
      currentDictationPhrase, written := "", [];
    }

    method SpeechHypothesis(text: string)
      modifies this
      ensures View() == StreamStep(old(View()), Hypothesis(text))
      ensures currentDictationPhrase == old(currentDictationPhrase)
      ensures written == old(written) + if enableIntermediateResults then [RecoResult(false, [Alternative(text, 0.0)])] else []
    {
      if enableIntermediateResults {
        written := written + [Interim(text)];
      }
    }

    method SpeechFragment(text: string)
      modifies this
      ensures View() == StreamStep(old(View()), Fragment(text))
      ensures enableIntermediateResults ==>
                && currentDictationPhrase ==
                   (if old(currentDictationPhrase) == "" then text else old(currentDictationPhrase) + " " + text)
                && written == old(written) + [RecoResult(false, [Alternative(currentDictationPhrase, 0.0)])]
      ensures !enableIntermediateResults ==> View() == old(View())
    {
      if enableIntermediateResults {
        if currentDictationPhrase == "" {
          currentDictationPhrase := text;
        } else {
          currentDictationPhrase := currentDictationPhrase + " " + text;
        }
        written := written + [Interim(currentDictationPhrase)];
      }
    }

    method SpeechResult(status: RecoStatus, phrases: seq<Phrase>)
      modifies this
      ensures View() == StreamStep(old(View()), Result(status, phrases))
      ensures currentDictationPhrase == ""
      ensures status != SUCCESS ==> written == old(written)
      ensures status == SUCCESS ==>
                && |written| == |old(written)| + 1 && written[..|old(written)|] == old(written)
                && written[|old(written)|].isFinal && Shows(written[|old(written)|].alternatives, phrases)
    {
      match status {
        case SUCCESS =>
          var alternatives := AddAlternatives(phrases);
          written := written + [RecoResult(true, alternatives)];
        case _ =>
      }
      currentDictationPhrase := "";
    }
  }

  class SyncRpcRequestHandler {
    var results: seq<seq<Alternative>>

    constructor ()
      ensures results == []
    {
      results := [];
    }

    method SpeechResult(status: RecoStatus, phrases: seq<Phrase>)
      modifies this
      ensures results == SyncStep(old(results), Result(status, phrases))
      ensures status != SUCCESS ==> results == old(results)
      ensures status == SUCCESS ==>
                && |results| == |old(results)| + 1 && results[..|old(results)|] == old(results)
                && Shows(results[|old(results)|], phrases)
    {
      match status {
        case SUCCESS =>
          var alternatives := AddAlternatives(phrases);
          results := results + [alternatives];
        case _ =>
      }
    }
  }

  // Main results

  /** The final results among written responses, in order. */
  function Finals(written: seq<RecoResult>): seq<seq<Alternative>> {
    if written == [] then []
    else
      var last := written[|written| - 1];
      Finals(written[..|written| - 1]) + (if last.isFinal then [last.alternatives] else [])
  }

  lemma FinalsAppend(written: seq<RecoResult>, r: RecoResult)
    ensures Finals(written + [r]) == Finals(written) + (if r.isFinal then [r.alternatives] else [])
  {
    assert (written + [r])[..|written|] == written;
  }

  lemma AgreesStep(s: Stream, m: Message)
    ensures var t := StreamStep(s, m);
            && t.interim == s.interim
            && Finals(t.written) == SyncStep(Finals(s.written), m)
            && (!s.interim ==>
                  |t.written| == |s.written| + if m.Result? && m.status.SUCCESS? then 1 else 0)
  {
    match m
    case Hypothesis(text) => FinalsAppend(s.written, Interim(text));
    case Fragment(text) => FinalsAppend(s.written, Interim(Extended(s.phrase, text)));
    case Result(_, phrases) => FinalsAppend(s.written, RecoResult(true, Alternatives(phrases)));
  }

  /** On every message sequence the streaming call's final results are the sync call's results;
      without intermediate results it writes nothing else. */
  lemma {:induction false} StreamingAgreesWithSync(interim: bool, ms: seq<Message>)
    ensures var s := StreamAll(Stream(interim, "", []), ms);
            && s.interim == interim
            && Finals(s.written) == SyncAll(ms)
            && (!interim ==> |s.written| == |SyncAll(ms)|)
  {
    if ms == [] {
    } else {
      StreamingAgreesWithSync(interim, ms[..|ms| - 1]);
      AgreesStep(StreamAll(Stream(interim, "", []), ms[..|ms| - 1]), ms[|ms| - 1]);
    }
  }

  /** The successful results among the messages, in order. */
  function Successes(ms: seq<Message>): seq<Message>
    ensures forall m | m in Successes(ms) :: m.Result?
  {
    if ms == [] then []
    else
      var last := ms[|ms| - 1];
      Successes(ms[..|ms| - 1]) + (if last.Result? && last.status == SUCCESS then [last] else [])
  }

  /** The k-th final result of either call shows the k-th successful result message: as many
      alternatives as it has phrases, each with the display text and confidence of its phrase. */
  lemma {:induction false} FinalsShowSuccesses(interim: bool, ms: seq<Message>)
    ensures |SyncAll(ms)| == |Successes(ms)|
    ensures forall k | 0 <= k < |Successes(ms)| :: Shows(SyncAll(ms)[k], Successes(ms)[k].phrases)
    ensures Finals(StreamAll(Stream(interim, "", []), ms).written) == SyncAll(ms)
  {
    StreamingAgreesWithSync(interim, ms);
    if ms == [] {
    } else {
      FinalsShowSuccesses(interim, ms[..|ms| - 1]);
    }
  }

  /** The fragments since the last result, in order. */
  function OpenFragments(ms: seq<Message>): seq<string> {
    if ms == [] then []
    else
      match ms[|ms| - 1]
      case Hypothesis(_) => OpenFragments(ms[..|ms| - 1])
      case Fragment(text) => OpenFragments(ms[..|ms| - 1]) + [text]
      case Result(_, _) => []
  }

  function DropEmpty(texts: seq<string>): seq<string> {
    if texts != [] && texts[0] == "" then DropEmpty(texts[1..]) else texts
  }

  /** The texts with one space between neighbours. */
  function Join(texts: seq<string>): string {
    if texts == [] then ""
    else if |texts| == 1 then texts[0]
    else texts[0] + " " + Join(texts[1..])
  }

  lemma {:induction false} JoinAppend(texts: seq<string>, text: string)
    requires texts != []
    ensures Join(texts + [text]) == Join(texts) + " " + text
  {
    var all := texts + [text];
    assert all[0] == texts[0] && all[1..] == texts[1..] + [text];
    if |texts| > 1 {
      JoinAppend(texts[1..], text);
    }
  }

  lemma {:induction false} DropEmptyAppend(texts: seq<string>, text: string)
    ensures DropEmpty(texts + [text]) ==
            if DropEmpty(texts) == [] then DropEmpty([text]) else DropEmpty(texts) + [text]
    ensures DropEmpty(texts) != [] ==> DropEmpty(texts)[0] != ""
  {
    if texts == [] {
      assert texts + [text] == [text];
    } else {
      assert (texts + [text])[1..] == texts[1..] + [text];
      if texts[0] == "" {
        DropEmptyAppend(texts[1..], text);
      }
    }
  }

  lemma JoinNonEmpty(texts: seq<string>)
    requires texts != [] && texts[0] != ""
    ensures Join(texts) != ""
  {
    assert |Join(texts)| >= |texts[0]|;
  }

  /** The phrase is the space-join of the fragments since the last result, leading empty ones
      dropped; it stays empty when intermediate results are off. */
  lemma {:induction false} PhraseIsJoin(interim: bool, ms: seq<Message>)
    ensures StreamAll(Stream(interim, "", []), ms).interim == interim
    ensures StreamAll(Stream(interim, "", []), ms).phrase ==
            if interim then Join(DropEmpty(OpenFragments(ms))) else ""
  {
    if ms == [] {
    } else {
      var before, last := ms[..|ms| - 1], ms[|ms| - 1];
      PhraseIsJoin(interim, before);
      if last.Fragment? && interim {
        var texts := OpenFragments(before);
        DropEmptyAppend(texts, last.text);
        if DropEmpty(texts) != [] {
          JoinNonEmpty(DropEmpty(texts));
          JoinAppend(DropEmpty(texts), last.text);
        }
      }
    }
  }

  /** What one message makes the streaming call write, given the messages before it: a hypothesis
      its text, a fragment the join of the open fragments and itself, both only when interim
      results are asked for; a successful result its phrases, as a final result. */
  predicate Answers(interim: bool, before: seq<Message>, m: Message, responses: seq<RecoResult>) {
    match m
    case Hypothesis(text) => responses == if interim then [RecoResult(false, [Alternative(text, 0.0)])] else []
    case Fragment(text) =>
      responses ==
      if interim then [RecoResult(false, [Alternative(Join(DropEmpty(OpenFragments(before) + [text])), 0.0)])] else []
    case Result(status, phrases) =>
      if status == SUCCESS then |responses| == 1 && responses[0].isFinal && Shows(responses[0].alternatives, phrases)
      else responses == []
  }

  /** Everything the streaming call writes is that, message by message. */
  lemma WritesAnswers(interim: bool, ms: seq<Message>, m: Message)
    ensures var before := StreamAll(Stream(interim, "", []), ms).written;
            var after := StreamAll(Stream(interim, "", []), ms + [m]).written;
            before <= after && Answers(interim, ms, m, after[|before|..])
  {
    var all := ms + [m];
    assert all[..|all| - 1] == ms;
    PhraseIsJoin(interim, ms);
    PhraseIsJoin(interim, all);
    if m.Fragment? {
      assert OpenFragments(all) == OpenFragments(ms) + [m.text];
    }
  }

  /** A fragment's interim transcript extends the transcript before it. */
  lemma FragmentExtends(ms: seq<Message>, text: string)
    ensures var before := StreamAll(Stream(true, "", []), ms);
            var after := StreamAll(Stream(true, "", []), ms + [Fragment(text)]);
            && after.written == before.written
                                + [RecoResult(false, [Alternative(Join(DropEmpty(OpenFragments(ms) + [text])), 0.0)])]
            && Join(DropEmpty(OpenFragments(ms))) <= Join(DropEmpty(OpenFragments(ms) + [text]))
  {
    var all := ms + [Fragment(text)];
    assert all[..|all| - 1] == ms;
    PhraseIsJoin(true, ms);
    PhraseIsJoin(true, all);
  }
}
