/**
  `translate_text` and the handler `on_transcription_complete`: the request the client
  sends for a piece of text, and what it makes of the service's reply.

  The POST itself is not modelled: the service is a function `post` from the request
  to the `Reply` it produces, and every property below holds whatever that function is.
*/
module Translation {
  import opened Wrappers
  import opened Text
  import opened Chunking
  import opened Endpoint
  import opened Languages

  /** The number of words per sentence sent to the service. */
  const ChunkSize: nat := 15

  /** The headers of every request. */
  const Headers: seq<(string, string)> := [("accept", "application/json"), ("Content-Type", "application/json")]

  /** One POST: the query URL, its headers and the JSON body `{sentences, src_lang, tgt_lang}`. */
  datatype Request = Request(
    url: string,
    headers: seq<(string, string)>,
    sentences: seq<string>,
    srcLang: string,
    tgtLang: string)

  /**
    What the POST yields: the request failed (no connection, a timeout, a 4xx or 5xx
    status, which `raise_for_status` turns into an exception), or the service answered
    with a JSON body whose `translations` field may be absent.
  */
  datatype Reply = RequestFailed | Answered(translations: Option<seq<string>>)

  /** The dictionary `{'translations': [...]}` that `translate_text` returns. */
  datatype Translated = Translated(translations: seq<string>)

  /** `"cuda" if use_gpu else "cpu"`. */
  function DeviceType(useGpu: bool): (device: string)
    ensures device == "cuda" <==> useGpu
    ensures device == "cpu" <==> !useGpu
  {
    if useGpu then "cuda" else "cpu"
  }

  /** `{base_url}/translate?src_lang={src_lang}&tgt_lang={tgt_lang}&device_type={device_type}`, without escaping. */
  function QueryUrl(baseUrl: string, srcLang: string, tgtLang: string, device: string): string {
    baseUrl + "/translate?src_lang=" + srcLang + "&tgt_lang=" + tgtLang + "&device_type=" + device
  }

  /** The request `translate_text` posts for `text`. */
  function TranslationRequest(text: string, srcLang: string, tgtLang: string, useGpu: bool, useLocalhost: bool): Request {
    var baseUrl := GetEndpoint(useGpu, useLocalhost, "translate");
    Request(QueryUrl(baseUrl, srcLang, tgtLang, DeviceType(useGpu)), Headers, Chunked(text, ChunkSize), srcLang, tgtLang)
  }

  /**
    The result `translate_text` builds from the reply: the translations merged into one
    space-joined string, or the empty string when the request failed. The list always
    has exactly one element, so `translation['translations'][0]` cannot fail.
  */
  function Merge(reply: Reply): (t: Translated)
    ensures |t.translations| == 1
    ensures reply.RequestFailed? ==> t.translations == [""]
    ensures reply == Answered(None) || reply == Answered(Some([])) ==> t.translations == [""]
    ensures reply.Answered? ==> Words(t.translations[0]) == WordsOfEach(reply.translations.GetOr([]))
  {
    match reply
    case RequestFailed => Translated([""])
    case Answered(ts) =>
      WordsOfJoin(ts.GetOr([]));
      Translated([JoinSpaced(ts.GetOr([]))])
  }

  /**
    `translate_text(transcription, src_lang, tgt_lang, use_gpu, use_localhost)`, with
    the service given as `post`.
  */
  method TranslateText(transcription: string, srcLang: string, tgtLang: string, useGpu: bool, useLocalhost: bool,
                       post: Request -> Reply)
    returns (result: Translated)
    ensures result == Merge(post(TranslationRequest(transcription, srcLang, tgtLang, useGpu, useLocalhost)))
    ensures |result.translations| == 1
  {
    var baseUrl := GetEndpoint(useGpu, useLocalhost, "translate");
    var deviceType := DeviceType(useGpu);
    var url := QueryUrl(baseUrl, srcLang, tgtLang, deviceType);
    var chunked := ChunkText(transcription, ChunkSize);
    var data := Request(url, Headers, chunked.value, srcLang, tgtLang);
    var reply := post(data);
    match reply {
      case RequestFailed =>
        result := Translated([""]);
      case Answered(translations) =>
        var translatedTexts := translations.GetOr([]);
        var merged := JoinSpaced(translatedTexts);
        result := Translated([merged]);
    }
  }

  /**
    `on_transcription_complete`: look up both display names (a name outside the table
    raises KeyError, the source language first), translate, and return the first and
    only element of the result.
  */
  method OnTranscriptionComplete(transcription: string, srcName: string, tgtName: string,
                                 useGpu: bool, useLocalhost: bool, post: Request -> Reply)
    returns (r: Result<string, LookupError>)
    ensures r.Success? <==> Lists(LanguageTable, srcName) && Lists(LanguageTable, tgtName)
    ensures !Lists(LanguageTable, srcName) ==> r == Failure(KeyError(srcName))
    ensures Lists(LanguageTable, srcName) && !Lists(LanguageTable, tgtName) ==> r == Failure(KeyError(tgtName))
    ensures r.Success? ==>
      r.value == Merge(post(TranslationRequest(transcription, Lookup(srcName).value, Lookup(tgtName).value,
                                               useGpu, useLocalhost))).translations[0]
  {
    var srcLangId := Lookup(srcName);
    if srcLangId.Failure? {
      return Failure(srcLangId.error);
    }
    var tgtLangId := Lookup(tgtName);
    if tgtLangId.Failure? {
      return Failure(tgtLangId.error);
    }
    var translation := TranslateText(transcription, srcLangId.value, tgtLangId.value, useGpu, useLocalhost, post);
    var translatedText := translation.translations[0];
    return Success(translatedText);
  }

  /** The URL carries the device type, so two requests differing only in `use_gpu` go to different URLs. */
  lemma UrlNamesDevice(baseUrl: string, srcLang: string, tgtLang: string, useGpu: bool, useGpu': bool)
    requires QueryUrl(baseUrl, srcLang, tgtLang, DeviceType(useGpu)) == QueryUrl(baseUrl, srcLang, tgtLang, DeviceType(useGpu'))
    ensures useGpu == useGpu'
  {
  }

  /**
    The request goes to the resolved base's `/translate` path, carries the language codes
    in both the query and the body, and its sentences are the 15-word chunks of the text.
  */
  lemma RequestShape(text: string, srcLang: string, tgtLang: string, useGpu: bool, useLocalhost: bool)
    ensures var req := TranslationRequest(text, srcLang, tgtLang, useGpu, useLocalhost);
      && req.url == (if useLocalhost then LocalBase else RemoteBase) + "/translate?src_lang=" + srcLang
                    + "&tgt_lang=" + tgtLang + "&device_type=" + (if useGpu then "cuda" else "cpu")
      && req.srcLang == srcLang && req.tgtLang == tgtLang
      && |req.sentences| == (|Words(text)| + ChunkSize - 1) / ChunkSize
      && WordsOfEach(req.sentences) == Words(text)
  {
    ChunkCount(text, ChunkSize);
    ChunksKeepWords(text, ChunkSize);
  }

  /** A service that echoes `sentences` back as `translations`. */
  function Echo(req: Request): Reply {
    Answered(Some(req.sentences))
  }

  /** Through an echoing service, the text comes back as `' '.join(text.split())`. */
  lemma EchoRoundTrip(text: string, srcLang: string, tgtLang: string, useGpu: bool, useLocalhost: bool)
    ensures Merge(Echo(TranslationRequest(text, srcLang, tgtLang, useGpu, useLocalhost))).translations == [Normalise(text)]
  {
    ChunksJoin(text, ChunkSize);
  }

  /** Text that is already single-spaced, such as the sample input "Hello world this is a test", comes back unchanged. */
  lemma EchoOfNormalised(text: string, srcLang: string, tgtLang: string, useGpu: bool, useLocalhost: bool)
    requires text == Normalise(text)
    ensures Merge(Echo(TranslationRequest(text, srcLang, tgtLang, useGpu, useLocalhost))).translations == [text]
  {
    EchoRoundTrip(text, srcLang, tgtLang, useGpu, useLocalhost);
  }

  /** The six words of the sample input "Hello world this is a test". */
  const HelloWorld: seq<string> := ["Hello", "world", "this", "is", "a", "test"]

  /** The sample input splits into its six words and is already single-spaced. */
  lemma HelloWorldWords()
    ensures Words("Hello world this is a test") == HelloWorld
    ensures Normalise("Hello world this is a test") == "Hello world this is a test"
  {
    HelloWorldJoined();
    HelloWorldAreWords();
    SplitOfJoin(HelloWorld);
  }

  lemma HelloWorldJoined()
    ensures JoinSpaced(HelloWorld) == "Hello world this is a test"
  {
    var ws := HelloWorld;
    HelloWorldTailJoined();
    assert JoinSpaced(ws[1..]) == "world this is a test" by { assert ws[1..][1..] == ws[2..]; }
  }

  lemma HelloWorldTailJoined()
    ensures JoinSpaced(HelloWorld[2..]) == "this is a test"
  {
    var ws := HelloWorld;
    assert JoinSpaced(ws[4..]) == "a test" by { assert ws[4..][1..] == ws[5..]; }
    assert JoinSpaced(ws[3..]) == "is a test" by { assert ws[3..][1..] == ws[4..]; }
    assert ws[2..][1..] == ws[3..];
  }

  lemma HelloWorldAreWords()
    ensures AllWords(HelloWorld)
  {
    forall i | 0 <= i < |HelloWorld|
      ensures IsWord(HelloWorld[i])
    {
      LettersMakeWord(HelloWorld[i]);
    }
  }

  /** A non-empty string of ASCII letters is a word. */
  lemma LettersMakeWord(w: string)
    requires |w| > 0 && forall i :: 0 <= i < |w| ==> 'A' <= w[i] <= 'z'
    ensures IsWord(w)
  {
  }

  /** Text of at most 15 words (and at least one) is sent as one sentence: the text, normalised. */
  lemma ShortTextOneChunk(text: string)
    requires 0 < |Words(text)| <= ChunkSize
    ensures Chunked(text, ChunkSize) == [Normalise(text)]
  {
    var ws := Words(text);
    assert ws[..Min(ChunkSize, |ws|)] == ws && ws[Min(ChunkSize, |ws|)..] == [];
    assert Batches(ws, ChunkSize) == [ws] + Batches([], ChunkSize);
  }

  /** The sample input is one chunk, and an echoing service returns it unchanged. */
  lemma HelloWorldExample()
    ensures Chunked("Hello world this is a test", ChunkSize) == ["Hello world this is a test"]
    ensures Merge(Echo(TranslationRequest("Hello world this is a test", "kan_Knda", "eng_Latn", false, false))).translations
         == ["Hello world this is a test"]
  {
    HelloWorldWords();
    ShortTextOneChunk("Hello world this is a test");
    EchoOfNormalised("Hello world this is a test", "kan_Knda", "eng_Latn", false, false);
  }
}
