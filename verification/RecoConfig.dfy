/** From the Google request configuration to the URL that keys the connection pool. */
module RecoConfig {
  import opened Wrappers

  datatype Encoding = ENCODING_UNSPECIFIED | LINEAR16 | FLAC | MULAW | AMR | AMR_WB | OGG_OPUS | SPEEX_WITH_HEADER_BYTE

  datatype RecognitionConfig = RecognitionConfig(
    encoding: Encoding,
    maxAlternatives: int,
    speechContexts: nat,       // how many are given
    enableWordTimeOffsets: bool,
    languageCode: string,
    profanityFilter: bool)

  datatype StreamingRecognitionConfig = StreamingRecognitionConfig(
    config: RecognitionConfig,
    singleUtterance: bool,
    interimResults: bool)

  datatype Status = OK | InvalidArgument(message: string) | FailedPrecondition(message: string)

  datatype RecognitionMode = INTERACTIVE | DICTATION | CONVERSATIONAL
  datatype ProfanityFilterMode = NONE | MASK | REMOVE

  datatype Config = Config(
    mode: RecognitionMode,
    profanity: ProfanityFilterMode,
    language: string,
    interim: bool)

  const DEFAULT := Config(INTERACTIVE, MASK, "", false)

  // load

  function Check(g: RecognitionConfig): Status {
    if g.encoding != LINEAR16 then InvalidArgument("only LEANEAR16 is supported")
    else if g.maxAlternatives > 5 then InvalidArgument("max_alternatives cannot be greater than 5")
    else if g.speechContexts > 0 then InvalidArgument("speech_contexts not supported")
    else OK
  }

  /** The configuration after a load on top of c; a refused load leaves it alone. */
  function Loaded(c: Config, g: RecognitionConfig): Config {
    if Check(g).OK? then
      c.(language := g.languageCode, profanity := if g.profanityFilter then MASK else NONE)
    else c
  }

  function LoadedStreaming(c: Config, g: StreamingRecognitionConfig): Config {
    if Check(g.config).OK? then
      Loaded(c, g.config).(mode := if g.singleUtterance then INTERACTIVE else DICTATION,
                           interim := g.interimResults)
    else c
  }

  class MSSpeechRecoConfig {
    var recognitionMode: RecognitionMode
    var profanityFilterMode: ProfanityFilterMode
    var language: string
    var enableIntermediateResults: bool

    ghost function View(): Config
      reads this
    {
      Config(recognitionMode, profanityFilterMode, language, enableIntermediateResults)
    }

    constructor ()
      ensures View() == DEFAULT == Config(INTERACTIVE, MASK, "", false)
    {
      recognitionMode, profanityFilterMode := INTERACTIVE, MASK;
      language, enableIntermediateResults := "", false;
    }

    method Load(g: RecognitionConfig) returns (r: Status)
      modifies this
      ensures r == Check(g)
      ensures View() == Loaded(old(View()), g)
      // that is: three reasons to refuse, the first that applies, and two fields taken otherwise
      ensures r.OK? <==> g.encoding == LINEAR16 && g.maxAlternatives <= 5 && g.speechContexts == 0
      ensures g.encoding != LINEAR16 ==> r == InvalidArgument("only LEANEAR16 is supported")
      ensures g.encoding == LINEAR16 && 5 < g.maxAlternatives ==>
                r == InvalidArgument("max_alternatives cannot be greater than 5")
      ensures g.encoding == LINEAR16 && g.maxAlternatives <= 5 && 0 < g.speechContexts ==>
                r == InvalidArgument("speech_contexts not supported")
      ensures View() == if !r.OK? then old(View())
                        else old(View()).(language := g.languageCode, profanity := if g.profanityFilter then MASK else NONE)
    {
      if g.encoding != LINEAR16 {
        return InvalidArgument("only LEANEAR16 is supported");
      }
      if g.maxAlternatives > 5 {
        return InvalidArgument("max_alternatives cannot be greater than 5");
      }
      if g.speechContexts > 0 {
        return InvalidArgument("speech_contexts not supported");
      }
      language := g.languageCode;
      profanityFilterMode := NONE;
      if g.profanityFilter {
        profanityFilterMode := MASK;
      }
      r := OK;
    }

    method LoadStreaming(g: StreamingRecognitionConfig) returns (r: Status)
      modifies this
      ensures r == Check(g.config)
      ensures View() == LoadedStreaming(old(View()), g)
      ensures r.OK? <==> g.config.encoding == LINEAR16 && g.config.maxAlternatives <= 5 && g.config.speechContexts == 0
      ensures View() == if !r.OK? then old(View())
                        else Config(if g.singleUtterance then INTERACTIVE else DICTATION,
                                    if g.config.profanityFilter then MASK else NONE,
                                    g.config.languageCode, g.interimResults)
    {
      r := Load(g.config);
      if !r.OK? {
        return;
      }
      recognitionMode := INTERACTIVE;
      if !g.singleUtterance {
        recognitionMode := DICTATION;
      }
      enableIntermediateResults := g.interimResults;
    }

    method GetMSSpeechUrl() returns (url: string)
      ensures url == Url(View())
      ensures url == "wss://speech.platform.bing.com/speech/recognition/"
                     + (if recognitionMode == INTERACTIVE then "interactive" else "dictation")
                     + "/cognitiveservices/v1?language=" + language
                     + "&profanity=" + (if profanityFilterMode == MASK then "mask" else "raw")
                     + "&format=detailed"
    {
      url := HOST + (if recognitionMode == INTERACTIVE then "interactive" else "dictation")
           + PATH + language
           + PROFANITY + (if profanityFilterMode == MASK then "mask" else "raw")
           + FORMAT;
    }
  }

  // The URL

  const HOST := "wss://speech.platform.bing.com/speech/recognition/"
  const PATH := "/cognitiveservices/v1?language="
  const PROFANITY := "&profanity="
  const FORMAT := "&format=detailed"

  function ModeName(mode: RecognitionMode): string {
    if mode == INTERACTIVE then "interactive" else "dictation"
  }

  function ProfanityName(profanity: ProfanityFilterMode): string {
    if profanity == MASK then "mask" else "raw"
  }

  function Url(c: Config): string {
    HOST + ModeName(c.mode) + PATH + c.language + PROFANITY + ProfanityName(c.profanity) + FORMAT
  }

  // A reader of URLs, apart from the code that builds them

  function Without(prefix: string, s: string): Option<string> {
    if prefix <= s then Some(s[|prefix|..]) else None
  }

  function WithoutEnd(s: string, suffix: string): Option<string> {
    if |suffix| <= |s| && s[|s| - |suffix|..] == suffix then Some(s[..|s| - |suffix|]) else None
  }

  /** What a URL asks for: dictation or not, the language, and profanity filtering. */
  function ReadUrl(url: string): Option<(bool, string, bool)> {
    var dictation := Without(HOST + "dictation" + PATH, url);
    var interactive := Without(HOST + "interactive" + PATH, url);
    if dictation.Some? then ReadLanguage(true, dictation.value)
    else if interactive.Some? then ReadLanguage(false, interactive.value)
    else None
  }

  function ReadLanguage(dictation: bool, rest: string): Option<(bool, string, bool)> {
    var mask := WithoutEnd(rest, PROFANITY + "mask" + FORMAT);
    var raw := WithoutEnd(rest, PROFANITY + "raw" + FORMAT);
    if mask.Some? then Some((dictation, mask.value, true))
    else if raw.Some? then Some((dictation, raw.value, false))
    else None
  }

  lemma WithoutOwn(prefix: string, other: string, k: nat, x: string)
    ensures Without(prefix, prefix + x) == Some(x)
    ensures k < |prefix| && k < |other| && prefix[k] != other[k] ==> Without(other, prefix + x) == None
  {
    if k < |prefix| && k < |other| && prefix[k] != other[k] {
      assert (prefix + x)[k] == prefix[k];
    }
  }

  lemma WithoutOwnEnd(x: string, suffix: string, other: string, k: nat)
    ensures WithoutEnd(x + suffix, suffix) == Some(x)
    ensures k < |suffix| && k < |other| && suffix[|suffix| - 1 - k] != other[|other| - 1 - k] ==>
              WithoutEnd(x + suffix, other) == None
  {
    var s := x + suffix;
    if k < |suffix| && k < |other| && suffix[|suffix| - 1 - k] != other[|other| - 1 - k] && |other| <= |s| {
      assert s[|s| - |other|..][|other| - 1 - k] == s[|s| - 1 - k] == suffix[|suffix| - 1 - k];
    }
  }

  lemma ReadsMode(dictation: bool, rest: string)
    ensures ReadUrl(HOST + (if dictation then "dictation" else "interactive") + PATH + rest)
            == ReadLanguage(dictation, rest)
  {
    var own := HOST + (if dictation then "dictation" else "interactive") + PATH;
    var other := HOST + (if dictation then "interactive" else "dictation") + PATH;
    assert own[|HOST|] != other[|HOST|];
    WithoutOwn(own, other, |HOST|, rest);
  }

  lemma ReadsMask(dictation: bool, language: string, mask: bool)
    ensures ReadLanguage(dictation, language + (PROFANITY + (if mask then "mask" else "raw") + FORMAT))
            == Some((dictation, language, mask))
  {
    var own := PROFANITY + (if mask then "mask" else "raw") + FORMAT;
    var other := PROFANITY + (if mask then "raw" else "mask") + FORMAT;
    var k := |FORMAT|;
    assert own[|own| - 1 - k] == if mask then 'k' else 'w';
    assert other[|other| - 1 - k] == if mask then 'w' else 'k';
    WithoutOwnEnd(language, own, other, k);
  }

  lemma Regroup(c: Config)
    ensures Url(c) == HOST + ModeName(c.mode) + PATH + (c.language + (PROFANITY + ProfanityName(c.profanity) + FORMAT))
  {
  }

  /** Reading a URL gives back the parameters it was built from, for all language strings ... */
  lemma UrlReadsBack(c: Config)
    ensures ReadUrl(Url(c)) == Some((c.mode != INTERACTIVE, c.language, c.profanity == MASK))
  {
    Regroup(c);
    ReadsMode(c.mode != INTERACTIVE, c.language + (PROFANITY + ProfanityName(c.profanity) + FORMAT));
    ReadsMask(c.mode != INTERACTIVE, c.language, c.profanity == MASK);
  }

  /** ... and only what such a URL looks like is read at all ... */
  lemma ReadWritesBack(url: string, interim: bool)
    requires ReadUrl(url).Some?
    ensures var (dictation, language, mask) := ReadUrl(url).value;
            url == Url(Config(if dictation then DICTATION else INTERACTIVE, if mask then MASK else NONE, language, interim))
  {
    var (dictation, language, mask) := ReadUrl(url).value;
    var prefix := HOST + (if dictation then "dictation" else "interactive") + PATH;
    var suffix := PROFANITY + (if mask then "mask" else "raw") + FORMAT;
    assert url == prefix + url[|prefix|..];
    assert url[|prefix|..] == language + suffix;
    Regroup(Config(if dictation then DICTATION else INTERACTIVE, if mask then MASK else NONE, language, interim));
  }

  /** ... so two configurations have the same URL exactly when they agree on the language, on
      being interactive and on masking. */
  lemma UrlExactly(c: Config, d: Config)
    ensures Url(c) == Url(d) <==>
            && c.language == d.language
            && (c.mode == INTERACTIVE <==> d.mode == INTERACTIVE)
            && (c.profanity == MASK <==> d.profanity == MASK)
  {
    UrlReadsBack(c);
    UrlReadsBack(d);
  }

  // Requests

  /** What a client asks for: Recognize or StreamingRecognize. */
  datatype Request =
    | Sync(config: RecognitionConfig, hasContent: bool)
    | Streaming(streamingConfig: Option<StreamingRecognitionConfig>)

  /** The checks both calls make before they ask the pool for a session. */
  function Admit(g: Request): Status {
    match g
    case Sync(config, hasContent) =>
      if !Check(config).OK? then Check(config)
      else if !hasContent then InvalidArgument("audio.content not provided")
      else OK
    case Streaming(None) => FailedPrecondition("streaming_config not provided")
    case Streaming(Some(config)) => Check(config.config)
  }

  function ConfigOf(g: Request): Config
    requires Admit(g).OK?
  {
    match g
    case Sync(config, _) => Loaded(DEFAULT, config)
    case Streaming(config) => LoadedStreaming(DEFAULT, config.value)
  }

  /** The parameters a client sets: dictation or not, the language, and profanity filtering. */
  function Wanted(g: Request): (bool, string, bool)
    requires Admit(g).OK?
  {
    match g
    case Sync(config, _) => (false, config.languageCode, config.profanityFilter)
    case Streaming(config) =>
      (!config.value.singleUtterance, config.value.config.languageCode, config.value.config.profanityFilter)
  }

  /** Among admitted requests the URL is a perfect key: equal exactly when all three parameters
      the clients set are equal. */
  lemma UrlIsKey(g: Request, h: Request)
    requires Admit(g).OK? && Admit(h).OK?
    ensures Url(ConfigOf(g)) == Url(ConfigOf(h)) <==> Wanted(g) == Wanted(h)
  {
    UrlExactly(ConfigOf(g), ConfigOf(h));
  }

  /** The URL of an admitted request says what its client asked for. */
  lemma UrlSaysWanted(g: Request)
    requires Admit(g).OK?
    ensures ReadUrl(Url(ConfigOf(g))) == Some(Wanted(g))
  {
    UrlReadsBack(ConfigOf(g));
  }
}
