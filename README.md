# Indic translate demo client, in Dafny

A model of the client logic of the translation demo in `src/ux/app.py`. The demo is a
Gradio form that sends text to a remote translation service. The model covers:

- the word chunker `chunk_text`: split on whitespace, group into batches of at most
  `chunk_size` words, rejoin each batch with single spaces;
- the request `translate_text` builds: the device type, the query URL, the headers, and a
  body whose `sentences` are the 15-word chunks of the input;
- what `translate_text` makes of the reply: the translations joined with single spaces
  in a one-element list, or `[""]` when the request fails;
- the endpoint resolver `get_endpoint`;
- the language table `language_mapping` and the handler `on_transcription_complete`,
  which looks up both languages, translates and returns element `[0]` of the result.

The service itself is a parameter `post: Request -> Reply`. A `Reply` is either
`RequestFailed` (connection error, timeout, a 4xx or 5xx status, which
`raise_for_status` turns into an exception) or `Answered` with the
`translations` field of the JSON body, which may be absent. Every property holds for
every such function.

Modules, one per component of the source file:

- `Text` (`text.dfy`): Python's `str.split()` as `Words`, the maximal runs of characters
  outside `IsWhitespace`. `IsWhitespace` lists the 29 characters `str.isspace()` accepts.
  Also `' '.join` as `JoinSpaced`, and the round trip between the two.
- `Chunking` (`chunking.dfy`): `chunk_text` as the method `ChunkText`. Its loop is proved
  against the recursive specification `Batches`.
- `Endpoint` (`endpoint.dfy`): `get_endpoint`.
- `Languages` (`languages.dfy`): the table as an ordered list of pairs, and dictionary
  lookup as a scan that keeps the last match. That is how a Python dict literal treats a
  repeated key.
- `Translation` (`translation.dfy`): `translate_text` and `on_transcription_complete` as
  methods, specified by the functions `TranslationRequest` and `Merge`.
- `Wrappers` (`wrappers.dfy`): `Option` and `Result`. A `Result` failure stands for the
  exception the source raises.

Three facts about the source that the model states outright:

- the table `language_mapping` (src/ux/app.py:13-40) has 26 entries (`TableWellFormed`);
- a display name outside the table raises `KeyError` at src/ux/app.py:125-126; there is no
  dedicated "unknown language" error (`LookupUnknown`);
- a service that echoes `sentences` back as `translations` makes `translate_text` return
  `' '.join(text.split())` (src/ux/app.py:58-61 and :88), which equals `text` only when
  `text` is already single-spaced (`EchoRoundTrip`, `EchoOfNormalised`).

## Model

| member | source | states |
|---|---|---|
| Text.IsWhitespace | src/ux/app.py:58 | a definition without a contract: the 29 characters `str.isspace()` accepts, which are the separators `split()` cuts at. `RunLength`, `NoWordsIffBlank` and `WordsAcross` state how `Words` uses it |
| Text.RunLength | src/ux/app.py:58 | the length of the longest whitespace-free prefix: every character before it is non-whitespace, and the character at it, if any, is whitespace |
| Text.Words | src/ux/app.py:58 | `text.split()` returns only words: non-empty strings without whitespace |
| Text.JoinSpaced | src/ux/app.py:61 | a definition without a contract: `' '.join(xs)`, also used at line 88 to merge the translations. `SplitOfJoin`, `WordsOfJoin`, `JoinIsSingleSpaced` and `JoinAppend` specify it |
| Text.NoWordsIffBlank | src/ux/app.py:58 | `split()` returns no words exactly when the text is empty or all whitespace |
| Text.RunLengthAcross | src/ux/app.py:58 | a whitespace character ends a run, so the first run of `x + c + y` is the first run of `x` |
| Text.WordsAcross | src/ux/app.py:58 | splitting at a whitespace character: the words of `x + c + y` are the words of `x` followed by those of `y` |
| Text.WordsOfWord | src/ux/app.py:58 | a word splits into the one-element list holding itself |
| Text.WordsOfJoin | src/ux/app.py:61 | the words of `' '.join(xs)` are the words of the elements of `xs`, in order |
| Text.WordsOfEachWords | src/ux/app.py:58 | taking the words of each element of a list of words gives the list back |
| Text.SplitOfJoin | src/ux/app.py:58-61 | round trip: `' '.join(ws).split() == ws` for every list of words |
| Text.NormaliseKeepsWords | src/ux/app.py:58-61 | `' '.join(s.split())` has the same words as `s`, and normalising twice equals normalising once |
| Text.JoinIsSingleSpaced | src/ux/app.py:61 | joining a non-empty list of words gives a non-empty string. It has no leading or trailing whitespace, and each separator is one space followed by a non-whitespace character |
| Text.JoinAppend | src/ux/app.py:61 | `' '.join(a + b)` is `' '.join(a)`, one space, then `' '.join(b)`, for non-empty `a` and `b` |
| Chunking.Batches | src/ux/app.py:58-61 | a definition without a contract: the slices `words[i:i + k]` for `i` in `range(0, len(words), k)`. `BatchesShape`, `BatchCount`, `BatchesAreWords`, `BatchesKeepWords` and `BatchesJoin` specify it |
| Chunking.Chunked | src/ux/app.py:57-62 | a definition without a contract: the list `chunk_text(text, k)` returns for a positive `k`. `ChunkText` is proved to compute it; `ChunkCount`, `ChunkShape`, `ChunksKeepWords` and `ChunksJoin` specify it |
| Chunking.BatchesShape | src/ux/app.py:60-61 | the slices `words[i:i + k]` the loop visits: each has 1 to k words, all but the last have exactly k, and together in order they are the word list |
| Chunking.ChunkText | src/ux/app.py:57-62 | `chunk_text` returns each batch joined by single spaces. A zero `chunk_size` raises ValueError from `range`; a negative one gives `[]` |
| Chunking.BatchesFrom | src/ux/app.py:60-61 | the batches from word `i` onward are the slice `words[i:i + k]`, then the batches from `i + k` |
| Chunking.BatchCount | src/ux/app.py:60 | the loop runs ceil(N / k) times for N words, and not at all exactly when N is 0 |
| Chunking.ChunkCount | src/ux/app.py:57-62 | `chunk_text` returns ceil(N / k) chunks for N words, and zero for empty or all-whitespace text |
| Chunking.ChunkShape | src/ux/app.py:60-61 | chunk j splits into batch j: 1 to k words, exactly k for all but the last. It is single-spaced and unchanged by normalising |
| Chunking.BatchesAreWords | src/ux/app.py:58-61 | every batch consists of words |
| Chunking.ChunksKeepWords | src/ux/app.py:58-61 | splitting the chunks again gives exactly `text.split()`: no word lost, duplicated or reordered |
| Chunking.BatchesKeepWords | src/ux/app.py:58-61 | the words of the joined batches are the original word list |
| Chunking.ChunksJoin | src/ux/app.py:58-61 | `' '.join(chunk_text(text, k)) == ' '.join(text.split())` |
| Chunking.BatchesJoin | src/ux/app.py:60-61 | joining the joined batches with spaces equals joining the word list with spaces |
| Endpoint.GetEndpoint | src/ux/app.py:42-55 | the result is `http://localhost:7860` exactly when `use_localhost` holds, and the hf.space base exactly when it does not |
| Endpoint.EndpointIgnoresGpuAndService | src/ux/app.py:42-55 | the base URL does not depend on `use_gpu` or `service_type` |
| Languages.LanguageTable | src/ux/app.py:13-40 | a definition without a contract: the 26 pairs of the dictionary literal, in source order. `TableWellFormed`, `LookupListed` and `LookupExamples` specify it |
| Languages.FindLast | src/ux/app.py:13-40 | a dict literal's lookup: finds a code exactly when the name is listed, and the code is one listed beside that name |
| Languages.Lookup | src/ux/app.py:125-126 | `language_mapping[name]` succeeds exactly when the name is in the table, with a well-formed code listed beside it; otherwise KeyError(name) |
| Languages.TableWellFormed | src/ux/app.py:13-40 | the table has 26 entries, distinct names, distinct codes, and every code is three lower-case letters, `_`, then a capitalised four-letter script tag |
| Languages.AppendWellFormed | src/ux/app.py:13-40 | two parts of the table with distinct names, distinct well-formed codes, and no name or code in common make a table with the same properties; the four runs of the literal are joined this way |
| Languages.FindLastListed | src/ux/app.py:13-40 | with distinct names, looking up the name of entry i gives exactly the code of entry i |
| Languages.LookupListed | src/ux/app.py:13-40 | every display name of the table resolves to the code listed beside it |
| Languages.LookupExamples | src/ux/app.py:18-21 | "Kannada" resolves to `kan_Knda` and "English" to `eng_Latn` |
| Languages.LookupUnknown | src/ux/app.py:125-126 | every name outside the table raises KeyError(name) and gets no default |
| Languages.LookupFrench | src/ux/app.py:125-126 | "French" is not in the table, so its lookup raises KeyError("French") |
| Translation.DeviceType | src/ux/app.py:67 | the device type is "cuda" exactly when `use_gpu` holds, and "cpu" exactly when it does not |
| Translation.QueryUrl | src/ux/app.py:68 | a definition without a contract: the f-string URL, plain concatenation. `RequestShape` and `UrlNamesDevice` specify it |
| Translation.TranslationRequest | src/ux/app.py:66-81 | a definition without a contract: the URL, headers and body `translate_text` posts. `RequestShape`, `EchoRoundTrip` and `ShortTextOneChunk` specify it |
| Translation.UrlNamesDevice | src/ux/app.py:67-68 | two query URLs that differ only in the GPU flag are different strings |
| Translation.RequestShape | src/ux/app.py:66-81 | the URL is `base + "/translate?src_lang=" + src + "&tgt_lang=" + tgt + "&device_type=" + device`. Both codes are in the body. The body has ceil(N / 15) sentences whose words, in order, are `text.split()` |
| Translation.Merge | src/ux/app.py:87-92 | the result always has exactly one element, so `[0]` cannot fail. It is `[""]` on request failure and on an absent or empty `translations`. Otherwise its words are the words of the translations, in order |
| Translation.TranslateText | src/ux/app.py:64-92 | `translate_text` posts the request of `TranslationRequest` once and returns `Merge` of the reply, a one-element list |
| Translation.OnTranscriptionComplete | src/ux/app.py:124-130 | an unknown source name raises KeyError before the target name is looked up. An unknown target name raises KeyError. Otherwise the result is element 0 of the translation of the text between the two codes |
| Translation.EchoRoundTrip | src/ux/app.py:75-88 | if the service echoes `sentences` as `translations`, the result is `[' '.join(text.split())]` |
| Translation.EchoOfNormalised | src/ux/app.py:75-88 | through an echoing service, text that is already single-spaced comes back unchanged |
| Translation.HelloWorldWords | src/ux/app.py:58 | "Hello world this is a test" splits into its six words and is already single-spaced |
| Translation.HelloWorldJoined | src/ux/app.py:61 | `' '.join` of the six words of the sample input gives the sample input back |
| Translation.ShortTextOneChunk | src/ux/app.py:57-62 | text of 1 to 15 words is sent as one sentence: the text, normalised |
| Translation.HelloWorldExample | src/ux/app.py:74-88 | "Hello world this is a test" is one chunk, and an echoing service returns it unchanged |

## Left out

- The Gradio form, its widgets, the event wiring and `demo.launch()` (src/ux/app.py:95-140): interface glue with no logic. The one exception is `on_transcription_complete`, which is modelled.
- Logging (`logging.basicConfig` and every `logging.info` / `logging.error`): side effects only.
- `requests.post`, `raise_for_status`, `json.dumps` and `response.json()`: network I/O and library calls, replaced by the `post` parameter. A body that is not valid JSON belongs under `RequestFailed`, because recent versions of `requests` raise a `RequestException` for it.
- Translation.Merge: a `translations` value that is JSON `null`, or holds something other than strings, makes `' '.join` raise TypeError. A JSON body that is not an object makes `.get` raise AttributeError. Neither is caught by the source. `Reply` carries only lists of strings, so these crashes are not modelled. A JSON string is joined character by character and a JSON object by its keys, without a crash; both give the same merge as `Answered(Some(xs))` with `xs` the characters or the keys, so the oracle still covers them.
- URL encoding and JSON escaping: the source does none of its own, so the URL is plain concatenation.
- The `port_mapping` dictionary and the `device_type_ep` string in `get_endpoint`: dead values that never reach the result. `EndpointIgnoresGpuAndService` states that the result is independent of them.
- The default values `use_gpu=False` and `use_localhost=False` of `translate_text`: its only caller passes both.
- Blocking, timeouts and concurrency of the single POST: the oracle answers at once.
