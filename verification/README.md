# xhsai content studio — a Dafny model of its core

xhsai is a browser front end for writing and publishing Xiaohongshu (RedNote) posts. Users sign
in against a hosted database, keep "projects" of source material, import notes from
Xiaohongshu links, let a hosted language model write drafts, edit them in a phone-shaped
preview, upload images to Tencent COS object storage, and publish through a proxy that answers
with a QR code. An administrator panel manages the accounts and the system configuration.

This project models the logic of that front end in Dafny and proves what it promises:

- **The model-output segmenter** (`GeminiService`). The language model streams one text that
  carries a thought span between `[[THOUGHT]]` and `[[/THOUGHT]]`, the dialogue, and a JSON
  payload after `###MATRIX_DATA_START###`. The per-chunk loop is the class `StreamSegmenter`,
  proved against a specification run over the chunks. The final pass `Segment` is a function of
  the accumulated text alone. Two facts follow: chunking never changes the result, and after the
  data marker the loop's buffers freeze. The JSON recovery ladder and `cleanMarkdown` are
  modelled too. JavaScript `substring` swaps reversed bounds; the model keeps that, so a
  closing marker that comes first yields a thought that holds both markers (`ThoughtReversed`).
  The loop keeps two flags, and it does not guarantee a marker-free thought.
- **Request shaping for the language model** (`GeminiRequest`): endpoint normalisation for
  OpenAI-compatible and Google back ends, and the loops that build the chat messages.
- **Link extraction and note fetching** (`XhsService`): the link pattern as a greedy scanner,
  proved sound and complete against the pattern's language; order-preserving de-duplication; and the
  classification of the scraping service's answers.
- **The phone preview** (`MobilePreview`): the weighted post length, the placeholder-image hash,
  the title/body split and its edits, the grouping of drafts and published posts (a loop that
  fills a keyed map in place), and the publish guard.
- **Object storage** (`CosService`): file names, upload keys, reading a key back from an object
  URL (a round trip), the cached client (a class), and the upload and delete fallbacks.
- **Publishing** (`PublishService`): the truncated title, the proxied URL with
  `encodeURIComponent` (percent-encoding as in section 2.1 of RFC 3986, proved to decode back to
  the UTF-8 bytes), and the classification of the answer.
- **The data layer** (`Repository`): error-message extraction, the configuration merge, the
  login checks, and the account and project operations. The `profiles` and `projects` tables
  are maps updated in place by the methods of the class `Repository`. Each read-then-write
  method takes the outcome of its read: after a failed read the new fields replace the row's
  whole `data` (`FailedReadForgetsFlags`). Unique usernames hold as long as the lookup of
  `createUser` succeeds; a failed lookup inserts under a name that may be taken
  (`BlindInsertDuplicates`).
- **The screens' state** (`Workstation`, `AdminPanel`, `App`): each component's state hooks are
  the fields of a class, and each handler is a method that states its whole new state.

Shared modules: `Wrappers` (Option and Result), `Strings` (the JavaScript string operations
used: `indexOf`, `includes`, `split`, `replace` of the first occurrence, `substring`, `trim`
with JavaScript white space, and the UTF-16 form that `length` and `charCodeAt` count), `JsValue` (a JSON value with JavaScript truthiness, property
reads, `String()` and object spread), `Types` (the records of `types.ts`), `TextHash` (the
string hash shared by `getRandomImage` and `getTagColor`, with `<<` wrapped to 32 bits) and
`Seqs` (filtering and small sequence facts).

Whatever the program receives from outside is a parameter of the model. This covers the
database, the language model, the scraping and publishing services, the COS SDK, the clock,
`Math.random`, the id generator and `JSON.parse`/`JSON.stringify`.

## Model

| member | source | states |
|---|---|---|
| JsValue.Or | services/repository.ts:91 | a value or-ed with a fallback is the value when it is truthy and the fallback otherwise |
| JsValue.AddNumber | services/repository.ts:102 | adding to a stored counter gives n for a falsy counter and the numeric sum for a number |
| JsValue.Get | services/repository.ts:66-70 | a property read finds a value exactly for an object that has the key |
| JsValue.ToJsString | services/repository.ts:17-33 | `String()` keeps a string, and only a string or an array can become the empty text |
| JsValue.Spread | services/repository.ts:66-70 | spreading copies only an object's own fields, all of them, unchanged |
| JsValue.NumberOr0 | services/repository.ts:183-189 | `x || 0` for a numeric field: a falsy value gives 0 and a number gives itself |
| Strings.IndexOf | services/geminiService.ts:371-372 | the position returned is the first occurrence of the pattern, and -1 means there is none |
| Strings.ReplaceFirst | services/geminiService.ts:344 | `replace` with a string pattern: the first occurrence is replaced by the replacement and the text around it is kept; a string without the pattern is returned unchanged |
| Strings.Substring | services/geminiService.ts:374-375 | the result is a slice of the string between the clamped bounds, never longer than the string |
| Strings.SubstringSwapped | services/geminiService.ts:374 | with reversed bounds the slice is taken between them the other way round |
| Strings.Trim | services/repository.ts:121-122 | the result is the slice of the string that starts after its leading white space and ends before its trailing white space: it has no white space at either end, and everything cut off is white space |
| Strings.TrimIdempotent | services/repository.ts:121-122 | trimming twice is trimming once |
| Strings.Split | services/geminiService.ts:352 | splitting always yields at least one piece |
| Strings.SplitFirst | services/geminiService.ts:378-379 | the first piece of `split` is the text before the first separator, or the whole text, and there is a second piece exactly when the separator occurs |
| Strings.SplitSecond | services/geminiService.ts:380-382 | the second piece is the text between the first and second separators, or everything after the first |
| Strings.ReplaceFirstSelf | services/geminiService.ts:344 | replacing a pattern by itself changes nothing |
| Strings.CharUnits | components/MobilePreview.tsx:52-53 | a character is one UTF-16 code unit below U+10000 and a surrogate pair above |
| Strings.Utf16 | components/MobilePreview.tsx:52-53 | the UTF-16 form of a string has between one and two code units per character |
| Strings.Utf16Append | components/MobilePreview.tsx:52-53 | the UTF-16 form of a concatenation is the concatenation of the forms |
| Strings.Utf16OfBmp | components/MobilePreview.tsx:52-53 | for characters below U+10000, `length` is the character count and `charCodeAt(i)` the i-th character |
| Strings.FromUtf16 | services/publishService.ts:21 | decoding code units fails exactly on an unpaired surrogate |
| Strings.Utf16RoundTrip | services/publishService.ts:21 | decoding the UTF-16 form of a string gives the string back |
| Strings.LoneHighSurrogate | services/publishService.ts:21 | code units that end in a high surrogate do not decode |
| TextHash.ToInt32 | components/MobilePreview.tsx:23 | the 32-bit conversion lies in the signed 32-bit range and differs from its input by a multiple of 2^32 |
| TextHash.Hash | components/MobilePreview.tsx:21-24 | the hash loop computes the string hash, one step per UTF-16 code unit (`charCodeAt`) from the left |
| TextHash.Bucket | components/MobilePreview.tsx:25 | the absolute hash modulo the list length is a valid index into the list |
| TextHash.HashBound | components/MobilePreview.tsx:21-24 | the hash grows at most linearly with the number of code units |
| TextHash.HashExact | components/Workstation.tsx:39-42 | for strings of fewer than 2^20 characters the hash stays below 2^53 in magnitude, where the source's floating-point arithmetic is exact |
| TextHash.HashOfUnits | components/MobilePreview.tsx:21-24 | the hash of no units is 0, and each further unit applies one step |
| TextHash.HashOfBmp | components/MobilePreview.tsx:21-24 | for characters below U+10000 the hash takes one step per character |
| TextHash.HashOfUnitsPair | components/MobilePreview.tsx:21-24 | two more code units apply two more steps, in order |
| TextHash.HashOfAstral | components/MobilePreview.tsx:21-24 | a character above U+FFFF adds two hash steps, one per surrogate |
| GeminiRequest.DropTrailingSlash | services/geminiService.ts:72 | at most one character is removed, and one is removed exactly when the URL ends in '/' |
| GeminiRequest.OpenAiEndpoint | services/geminiService.ts:71-76 | the endpoint extends the slash-stripped base URL and always ends in "/v1/chat/completions"; a base already ending so is kept as it is, and a base ending in "/v1" gets only "/chat/completions" |
| GeminiRequest.OpenAiEndpointIdempotent | services/geminiService.ts:71-76 | normalising an already normalised endpoint gives it back unchanged |
| GeminiRequest.GoogleEndpoint | services/geminiService.ts:120-128 | the Google URL extends the slash-stripped base URL and ends in the separator and `key=<apiKey>`; the model path is inserted exactly when the base does not already contain "/models/" |
| GeminiRequest.RequestTarget | services/geminiService.ts:64-67 | the request fails with the missing-key message exactly when no key is configured |
| GeminiRequest.RequestTargetRoutes | services/geminiService.ts:69-128 | with a key, the OpenAI-compatible target is chosen exactly when the key starts with "sk-" or the base URL names vectorengine or openai; that target ends in the chat path and carries the key as bearer token, and the Google target ends in `key=<apiKey>` |
| GeminiRequest.CheckStatus | services/geminiService.ts:116-136 | an error is raised exactly when the response is not ok, and its text ends with the status |
| GeminiRequest.DataUrl | services/geminiService.ts:92 | an inline image becomes a `data:` URL that ends with its base64 payload |
| GeminiRequest.ConvertPart | services/geminiService.ts:86-95 | a part with text becomes exactly that text part; a part with inline data and no text becomes exactly the image part of its `data:` URL; a part with neither is dropped; at most one part results |
| GeminiRequest.TextPartsKept | services/geminiService.ts:86-95 | every non-empty text part of a content entry reaches the converted parts |
| GeminiRequest.ImagePartsKept | services/geminiService.ts:89-93 | every part with inline data and no text reaches the converted parts as the image part of its `data:` URL |
| GeminiRequest.ConvertPartsAppend | services/geminiService.ts:86-95 | converting two runs of parts one after the other gives the concatenation of their conversions |
| GeminiRequest.ConvertAround | services/geminiService.ts:86-95 | the conversion of a part sits between the conversions of the parts before it and after it |
| GeminiRequest.PartAt | services/geminiService.ts:86-95 | the conversion of the i-th part sits at the position given by the conversion of the parts before it |
| GeminiRequest.PartsInOrder | services/geminiService.ts:86-95 | two parts that both convert appear in the converted parts in their original order, each at its own position |
| GeminiRequest.ToMessage | services/geminiService.ts:97-98 | the message role is the entry's role, or "user" when that is empty |
| GeminiRequest.ContentMessages | services/geminiService.ts:82-100 | one message per content entry, the i-th message being the conversion of the i-th entry |
| GeminiRequest.ToMessages | services/geminiService.ts:78-100 | the system instruction, when present, is the first message and the content messages follow it in order |
| GeminiRequest.BuildParts | services/geminiService.ts:84-96 | the inner push loop builds exactly the converted parts of the entry |
| GeminiRequest.BuildMessage | services/geminiService.ts:84-98 | the body of the outer loop builds exactly the message of its entry |
| GeminiRequest.BuildMessages | services/geminiService.ts:78-100 | the push loops build exactly the message list `ToMessages` describes |
| GeminiRequest.MaxTokens | services/geminiService.ts:107 | the token limit is the requested one when it is present and non-zero, otherwise 4096, and is never 0 |
| GeminiService.StripHeadings | services/geminiService.ts:17 | removing heading marks never lengthens the text and introduces no character |
| GeminiService.CleanMarkdown | services/geminiService.ts:11-19 | the result holds no '*' and no '`', is trimmed, uses only characters of the input, and "" gives "" |
| GeminiService.BraceSpan | services/geminiService.ts:30 | a match starts with '{' and ends with '}' |
| GeminiService.BraceSpanFound | services/geminiService.ts:30-31 | the pattern matches exactly when some '{' is followed later by a '}' |
| GeminiService.Candidates | services/geminiService.ts:24-32 | the texts tried are the input, then the input without code fences, then (when there is one) the brace span |
| GeminiService.Recover | services/geminiService.ts:23-34 | a recovered value is always truthy |
| GeminiService.RecoverIsFirstSuccess | services/geminiService.ts:23-34 | recovery fails exactly when every candidate fails to parse to a truthy value, and otherwise yields the first candidate that does |
| GeminiService.WithCleanedField | services/geminiService.ts:36-38 | one string field is replaced by its cleaned form, every other field and the key set are kept |
| GeminiService.CleanField | services/geminiService.ts:36-38 | a truthy non-string field throws the `replace is not a function` error; otherwise only that field changes, and a string field becomes markdown-free |
| GeminiService.CleanFields | services/geminiService.ts:35-39 | the clean-up throws exactly when one of tone, structure or emojiDensity is a truthy non-string; otherwise those three string fields are markdown-free and all other fields are kept |
| GeminiService.ExtractAndParseJson | services/geminiService.ts:21-41 | a falsy value exactly for empty input or failed recovery; a recovered value is truthy and is the field clean-up of the recovered parse |
| GeminiService.CutThought | services/geminiService.ts:367-376 | the thought is always trimmed |
| GeminiService.NotesOf | services/geminiService.ts:384-390 | notes are `[]` or the truthy `notes` field of a recovered value; a failed recovery never propagates |
| GeminiService.Segment | services/geminiService.ts:367-396 | dialogue and thought are trimmed, the dialogue holds no data marker, and without a data marker in the text left after the thought cut the notes are `[]` |
| GeminiService.Assemble | services/geminiService.ts:378-390 | the thought is passed through; the dialogue is trimmed and marker-free; no marker means no notes |
| GeminiService.DialogueHasNoMarker | services/geminiService.ts:378-379 | the trimmed text before the first data marker holds no data marker |
| GeminiService.ThoughtMarkersDisjoint | services/geminiService.ts:8-9 | an occurrence of `[[THOUGHT]]` and one of `[[/THOUGHT]]` never overlap |
| GeminiService.ThoughtInOrder | services/geminiService.ts:371-376 | when the opening marker comes first, the thought is the trimmed text strictly between the first opening and the first closing marker, and both markers and that text are cut from the rest |
| GeminiService.InOrderCut | services/geminiService.ts:374-375 | with ordered bounds the two `substring` calls are plain slices |
| GeminiService.ThoughtHasNoClosingMarker | services/geminiService.ts:371-376 | in that case the thought holds no closing marker |
| GeminiService.ThoughtReversed | services/geminiService.ts:371-376 | when the closing marker comes first, `substring` swaps its bounds: the thought runs from the closing marker through the opening one, and the text between them appears twice in the rest |
| GeminiService.ReversedCut | services/geminiService.ts:374-375 | the swapped cut, as slices, for both outputs |
| GeminiService.ReversedThought | services/geminiService.ts:374 | the swapped thought includes both markers and is left whole by trimming |
| GeminiService.ReversedRest | services/geminiService.ts:375 | the rest keeps the text up to the closing marker and from the opening one, so the text between is duplicated |
| GeminiService.CutAt | services/geminiService.ts:373-376 | the cut thought is trimmed and no longer than the text |
| GeminiService.NoThought | services/geminiService.ts:367-376 | without both markers the thought is "" and the text is left whole |
| GeminiService.AssembleSplitsAtMarker | services/geminiService.ts:378-390 | the dialogue is the trimmed text before the first data marker and the notes come from the trimmed text between the first and second marker; with no marker the dialogue is the whole trimmed text and notes are `[]` |
| GeminiService.RemoveThoughtSpans | services/geminiService.ts:353 | removing thought spans never lengthens the text and leaves text without an opening marker unchanged |
| GeminiService.DialogueBeforeMarker | services/geminiService.ts:350-353 | the dialogue is no longer than the text, and is the trimmed text when it holds neither the data marker nor a thought |
| GeminiService.Step | services/geminiService.ts:331-362 | each content string lengthens `fullText` by itself; an empty string or any content after the data marker changes nothing else and shows no frame; otherwise exactly one frame is shown |
| GeminiService.ThoughtStep | services/geminiService.ts:336-348 | inside a thought the full text grows, a frame is shown and the marker flag is unchanged |
| GeminiService.DialogueStep | services/geminiService.ts:349-361 | outside a thought a frame is shown, the thought flag is unchanged and the marker flag becomes whether the full text now holds the data marker |
| GeminiService.StepKeepsInvariant | services/geminiService.ts:331-362 | each step keeps the loop invariant: the marker flag implies the marker is in the text, and never holds together with an open thought |
| GeminiService.Run | services/geminiService.ts:310-365 | after any content strings, `fullText` is their concatenation, the invariant holds and at most one frame per string was shown |
| GeminiService.RunSnoc | services/geminiService.ts:317-363 | one more content string is one more step from the state reached so far |
| GeminiService.MarkerFreezesStream | services/geminiService.ts:332-334 | once the data marker is found, later content only lengthens `fullText`; buffers, flags and the frames shown stay unchanged |
| GeminiService.ChunkingIrrelevant | services/geminiService.ts:332-396 | two streams with the same concatenated text give the same final result |
| GeminiService.StreamSegmenter.constructor | services/geminiService.ts:304-308 | the loop variables start empty and false, with no frames and no content |
| GeminiService.StreamSegmenter.Ingest | services/geminiService.ts:331-362 | processing one content string keeps the segmenter equal to the specification run over all content so far, and shows no frame for empty content or content after the marker |
| GeminiService.ReachedSnoc | services/geminiService.ts:331-362 | a state reached after some content, moved by one `Step`, is the state reached after that content and one more string |
| GeminiService.StreamSegmenter.Absorb | services/geminiService.ts:331-362 | one content string moves the loop variables and frames exactly as `Step` says, and the content log is unchanged |
| GeminiService.StreamSegmenter.IngestThought | services/geminiService.ts:336-348 | the in-thought branch updates the variables and frames exactly as `Step` says (its `ThoughtStep` case) |
| GeminiService.StreamSegmenter.IngestDialogue | services/geminiService.ts:349-361 | the dialogue branch updates the variables and frames exactly as `Step` says (its `DialogueStep` case) |
| GeminiService.StreamSegmenter.Finish | services/geminiService.ts:367-396 | the final pass computes `Segment` of the accumulated text |
| GeminiService.StreamGeneration | services/geminiService.ts:304-396 | the result is `Segment` of the concatenated stream, and the frames shown are those of the specification run (none without a callback), at most one per content string |
| XhsService.RunEnd | services/xhsService.ts:22 | the greedy `+` run: every character in the run is in the class and the character after it is not |
| XhsService.MatchPath | services/xhsService.ts:22 | a path match ends after its start, inside the text |
| XhsService.MatchAt | services/xhsService.ts:22 | a match at a position ends after it, inside the text |
| XhsService.MatchHost | services/xhsService.ts:22 | a match after the scheme ends after its start, inside the text |
| XhsService.MatchPathSound | services/xhsService.ts:22 | a path match is a note-item path or a short link with a non-empty run, and the run is maximal |
| XhsService.MatchHostSound | services/xhsService.ts:22 | a host match is an optional "www." and a path match, and its run is maximal |
| XhsService.MatchAtSound | services/xhsService.ts:22 | every match is in the language of the pattern, and the character after it could not have extended it |
| XhsService.Scan | services/xhsService.ts:22-23 | the global match finds matches in increasing, non-overlapping order, each one a match of the pattern at its start |
| XhsService.MatchedTexts | services/xhsService.ts:23 | the i-th matched text is the text of the i-th span |
| XhsService.MatchIsTrimmed | services/xhsService.ts:24 | a matched link is left unchanged by `trim()` |
| XhsService.Dedup | services/xhsService.ts:24 | `Array.from(new Set(...))` keeps exactly the same elements, each once |
| XhsService.DedupKeepsFirstOrder | services/xhsService.ts:24 | the de-duplicated links are ordered by their first occurrence |
| XhsService.TrimAll | services/xhsService.ts:24 | each match is trimmed, in place |
| XhsService.ExtractXhsUrls | services/xhsService.ts:20-25 | the returned links hold no duplicates |
| XhsService.SpanSound | services/xhsService.ts:22-24 | each span of the scan is a well-formed link that trimming leaves alone, followed by no class character |
| XhsService.SpanOfUrl | services/xhsService.ts:20-25 | every returned link is the text of some match of the scan |
| XhsService.LinkAtSpan | services/xhsService.ts:22-23 | a span the matcher reports is a link found at its start |
| XhsService.ExtractedUrlsWellFormed | services/xhsService.ts:22-24 | every returned link is "http(s)://", an optional "www.", then a note-item path or a short link with a non-empty run; it occurs in the text, and the character after it is not in the class |
| XhsService.NoLinkNoUrls | services/xhsService.ts:24 | a text with no well-formed link anywhere yields `[]` |
| XhsService.NoMatchScan | services/xhsService.ts:23 | with no match from a position on, the scan finds nothing there |
| XhsService.RunEndReaches | services/xhsService.ts:22 | a character run ends no earlier than any point up to which the run holds |
| XhsService.MatchPathComplete | services/xhsService.ts:22 | whenever a well-formed path follows the host, the path matcher finds a match at least as long |
| XhsService.PathPartStart | services/xhsService.ts:22 | both path alternatives start with "x" |
| XhsService.HostPartStart | services/xhsService.ts:22 | a host part starts with a letter of the host name, never with "/" |
| XhsService.MatchHostComplete | services/xhsService.ts:22 | whenever a well-formed host and path start at a position, the host matcher finds a match at least as long |
| XhsService.MatchAtComplete | services/xhsService.ts:22 | whenever a well-formed link starts at a position, the scanner matches there, at least as far |
| XhsService.LinkGivesUrl | services/xhsService.ts:20-25 | a text that contains a well-formed link yields at least one URL |
| XhsService.ScanFinds | services/xhsService.ts:22-23 | when the scanner matches at some position at or after the start, the scan finds at least one match |
| XhsService.StatusError | services/xhsService.ts:52-54 | the status error message is never empty |
| XhsService.CodeOk | services/xhsService.ts:60 | only an object that carries a `code` passes, and code 200 does |
| XhsService.Rethrow | services/xhsService.ts:70 | the rethrown message is never empty: an empty message becomes "网络请求失败" and any other is kept |
| XhsService.Classify | services/xhsService.ts:51-66 | a network error keeps its message; 401, 402 and other non-ok statuses give their status errors; a body that is not JSON keeps the parse error and a null body fails on the property read; success holds exactly for an ok JSON body with code 0 or 200 and yields `result.data`, or `result` when `data` is falsy; any other code gives `msg`, else `message`, else "解析服务返回异常" |
| XhsService.FetchXhsNote | services/xhsService.ts:30-72 | a blank URL is rejected first, then a missing key; otherwise the answer for the trimmed URL is classified, success returns the classified data, and an error is rethrown with a non-empty message |
| XhsService.RejectedBeforeRequest | services/xhsService.ts:31-39 | for a blank URL or a missing key, the service's reply has no influence and the call fails |
| XhsService.StatusErrorsDistinct | services/xhsService.ts:52-54 | HTTP 401, HTTP 402 and any other failure status give three different messages |
| XhsService.FetchReturnsData | services/xhsService.ts:57-66 | for a non-blank URL and a configured key, an ok JSON answer with code 0 or 200 returns its `data`, or the answer itself when `data` is falsy |
| MobilePreview.AsciiCount | components/MobilePreview.tsx:53-54 | the count of code units 0..127 is at most the number of code units |
| MobilePreview.GetLength | components/MobilePreview.tsx:49-61 | the loop over the UTF-16 code units computes the weighted length: one per non-ASCII unit plus half per ASCII unit, rounded up; "" gives 0 |
| MobilePreview.AsciiCountAppend | components/MobilePreview.tsx:52-59 | the ASCII count of concatenated code units is the sum of the counts |
| MobilePreview.WeightBounds | components/MobilePreview.tsx:49-61 | the weighted length lies between half the code-unit count and the code-unit count, and is 0 only for "" |
| MobilePreview.WeightMonotone | components/MobilePreview.tsx:49-61 | appending text never lowers the weighted length |
| MobilePreview.UnitsWeight | components/MobilePreview.tsx:49-61 | the weighted length of code units is half the ASCII units plus the others, rounded up |
| MobilePreview.Weight | components/MobilePreview.tsx:49-61 | `getLength`: the weighted length of the string's UTF-16 form; 0 exactly for "" |
| MobilePreview.UnitsWeightNonAscii | components/MobilePreview.tsx:52-59 | code units none of which is ASCII add one unit each |
| MobilePreview.UnitsWeightAscii | components/MobilePreview.tsx:52-59 | one more ASCII code unit adds nothing or one unit |
| MobilePreview.WeightOfChar | components/MobilePreview.tsx:52-59 | one more ASCII character adds at most 1, another character below U+10000 adds exactly 1, and a character above U+FFFF adds 2 |
| MobilePreview.SafeSeed | components/MobilePreview.tsx:20 | the seed used is never empty, and is the seed itself when that is not empty |
| MobilePreview.PlaceholderFor | components/MobilePreview.tsx:18-26 | the image chosen for a seed is always one of the seven pool entries |
| MobilePreview.GetRandomImage | components/MobilePreview.tsx:18-26 | the hash loop picks the pool entry `PlaceholderFor` describes, always within the pool; the result depends on the seed alone |
| MobilePreview.EmptySeedIsDefault | components/MobilePreview.tsx:20 | an empty seed picks the same image as "default" |
| MobilePreview.Title | components/MobilePreview.tsx:294-295 | the title is a prefix of the content holding no line break: the text before the first '\n', or the whole content without one |
| MobilePreview.FullBody | components/MobilePreview.tsx:297 | without a line break the body is "" |
| MobilePreview.ContentIsTitleAndBody | components/MobilePreview.tsx:294-297 | the content is the title, then '\n' and the body when it has a line break, and the title alone otherwise |
| MobilePreview.ParseJoined | components/MobilePreview.tsx:294-297 | joining a title without line breaks to a body with '\n' and parsing gives both back |
| MobilePreview.TitleOfJoin | components/MobilePreview.tsx:294-295 | text after a line break never reaches the title, and after a one-line title it is the body |
| MobilePreview.TitleChanged | components/MobilePreview.tsx:362-366 | `handleTitleChange`: the title read back is the first line of what was typed |
| MobilePreview.TitleChangeKeepsBody | components/MobilePreview.tsx:362-366 | a title edit keeps the body exactly, and a title without a line break reads back as typed |
| MobilePreview.TitleChangeWithBreak | components/MobilePreview.tsx:362-366 | a typed title with a line break: only its first line becomes the title, the rest moves in front of the old body |
| MobilePreview.FooterPart | components/MobilePreview.tsx:357 | the footer part is empty exactly when the footer is |
| MobilePreview.UpdateFullContent | components/MobilePreview.tsx:356-360 | `updateFullContent`: the title is kept, and the body reads back as the new body followed by the footer part |
| MobilePreview.BodyChanged | components/MobilePreview.tsx:368-375 | `handleBodyChange` never changes the title |
| MobilePreview.BodyChangeKeepsTitle | components/MobilePreview.tsx:356-375 | a body edit keeps the title, and the body reads back as typed, followed in custom mode by "\n\n" and the footer when the footer is not empty |
| MobilePreview.Category | components/MobilePreview.tsx:388 | a draft's group is never the published group |
| MobilePreview.DraftsIn | components/MobilePreview.tsx:387-391 | the items of a group are drafts of the input whose category is that group |
| MobilePreview.PublishedItems | components/MobilePreview.tsx:392-396 | one item per published record, in order |
| MobilePreview.GroupOf | components/MobilePreview.tsx:383-398 | a group holds only drafts of its own category and, in the published group, published records |
| MobilePreview.TotalPush | components/MobilePreview.tsx:389-390 | a push onto a listed group adds one to the total size |
| MobilePreview.TotalFresh | components/MobilePreview.tsx:389 | creating a new group leaves the total of the listed groups unchanged |
| MobilePreview.File | components/MobilePreview.tsx:389-395 | filing an item creates its group at the end of the key order when missing, then pushes the item; the total grows by one and keys and map stay in step |
| MobilePreview.DraftGroupsByCategory | components/MobilePreview.tsx:387-391 | after the drafts are filed, the groups are exactly the non-empty categories, each holding its drafts in input order |
| MobilePreview.DraftGroups | components/MobilePreview.tsx:387-391 | every draft group is non-empty and holds only drafts of its category |
| MobilePreview.DraftOrder | components/MobilePreview.tsx:387-391 | the draft categories in the order of their first draft |
| MobilePreview.DraftOrderMembers | components/MobilePreview.tsx:387-391 | the category order has no repeats and lists exactly the categories that have drafts |
| MobilePreview.FileDraft | components/MobilePreview.tsx:388-390 | filing one more draft gives the groups of the longer draft list, and the key order stays the categories in order of first appearance |
| MobilePreview.FileDrafts | components/MobilePreview.tsx:387-391 | the first loop builds the draft groups; the keys are the categories in order of their first draft, and the group sizes add up to the number of drafts |
| MobilePreview.WithPublishedPush | components/MobilePreview.tsx:392-396 | one more published record extends the published group by its item |
| MobilePreview.WithPublished | components/MobilePreview.tsx:392-396 | appending records leaves every other group as it was and grows the published group by the number of records |
| MobilePreview.FileRecord | components/MobilePreview.tsx:393-395 | filing one more record gives the groups of the longer record list, grows the total by one, and adds the published key last when it is new |
| MobilePreview.FilePublished | components/MobilePreview.tsx:392-396 | the second loop appends every record to the published group, the total grows by the number of records, and the published key is added last when there is a record |
| MobilePreview.GroupItems | components/MobilePreview.tsx:383-398 | `groupedItems`: each group is a draft category or the published group, holds exactly its items in input order, exists only when non-empty, the sizes sum to drafts plus published records, and the keys are the draft categories in order of first appearance followed by the published group |
| MobilePreview.GroupsAreGroupOf | components/MobilePreview.tsx:383-398 | the filed groups are exactly the groups `GroupOf` describes |
| MobilePreview.DraftFiledByCategory | components/MobilePreview.tsx:388-390 | every draft lands in the group of its category |
| MobilePreview.PublishedGroupIsRecords | components/MobilePreview.tsx:392-396 | the published group holds every published record in order, and no draft |
| MobilePreview.NoDraftPublished | components/MobilePreview.tsx:388-393 | no draft is filed under the published group |
| MobilePreview.PlanPublish | components/MobilePreview.tsx:411-419 | publishing is refused exactly for a blank title (checked first) or a blank displayed body; otherwise the images are sent unchanged, or, when there are none, exactly one placeholder chosen from the title |
| CosService.Extension | services/cosService.ts:60 | the extension is the text after the last '.', the whole name without a '.', and "tmp" when that text is empty; it is never empty and holds no '.' |
| CosService.ExtensionOfPlainName | services/cosService.ts:60 | a non-empty name without a '.' is its own extension |
| CosService.StampedName | services/cosService.ts:64 | the file name starts with the timestamp, '_', the random text and '.', and ends with '.' and the extension |
| CosService.SafeFilename | services/cosService.ts:59-65 | `generateSafeFilename` has the form `${timestamp}_${random}.${ext}` with the extension of the original name |
| CosService.UploadKey | services/cosService.ts:95-96 | every upload key starts with "matrix_studio/" |
| CosService.GetKeyFromUrl | services/cosService.ts:69-77 | "" gives ""; a URL without ".myqcloud.com/" is returned unchanged; otherwise the key is the text between the first and the second occurrence of the domain, or to the end |
| CosService.KeyHasNoDomain | services/cosService.ts:72-74 | a key read back from a storage URL never holds the domain |
| CosService.DomainAfterRegion | services/cosService.ts:115 | in an object URL whose bucket and region hold no '/', the first occurrence of the domain is the one after the region |
| CosService.KeyRoundTrip | services/cosService.ts:69-115 | reading the key back from an object URL gives the key, when bucket and region hold no '/' and the key does not hold the domain |
| CosService.SingleDotHasNoDomain | services/cosService.ts:64 | a text with one '.' never holds the two-dot domain |
| CosService.UploadKeyHasNoDomain | services/cosService.ts:59-96 | an upload key never holds the domain |
| CosService.DigitsHaveNoDot | services/cosService.ts:61-64 | the decimal timestamp holds no '.' |
| CosService.UploadUrlRoundTrip | services/cosService.ts:69-115 | the URL of an uploaded object reads back to its upload key |
| CosService.NewClient | services/cosService.ts:21-43 | without both credentials the client is the stub reporting "COS 未配置"; an SDK client carries the configured credentials |
| CosService.StubNeverAccepts | services/cosService.ts:28-43 | without credentials, or when the SDK constructor throws, no upload is accepted |
| CosService.CosClient.constructor | services/cosService.ts:7 | the cache starts empty |
| CosService.CosClient.GetInstance | services/cosService.ts:10-46 | a missing SDK fails with its message and leaves the cache alone; a cached client is returned unchanged; otherwise the new client is cached and returned |
| CosService.CosClient.Upload | services/cosService.ts:80-125 | a missing bucket or region or a missing SDK takes the data-URL fallback and leaves the cached client alone; otherwise the client is the cached one or, on first use, the one built from the configuration; an accepted upload gives the object URL of the upload key, a refused one the fallback, and a failed read after a refusal "图片读取失败" |
| CosService.CosClient.Delete | services/cosService.ts:128-166 | nothing is sent and the cache is untouched for an empty URL or a missing bucket or region; a missing SDK sends nothing; otherwise the client is the cached one or, on first use, the one built from the configuration, and the request names the key read back from the URL; no error ever surfaces |
| PublishService.HexDigit | services/publishService.ts:19 | each digit value has an upper-case hexadecimal digit that reads back to it |
| PublishService.Utf8 | services/publishService.ts:19 | a character has one to four bytes, each below 256, and is a single byte (its own code) exactly when it is ASCII |
| PublishService.PercentBytes | services/publishService.ts:19 | each byte becomes three characters |
| PublishService.EncodeUriComponent | services/publishService.ts:19 | the encoded text is at least as long as the input and at most twelve times as long |
| PublishService.DecodeEscape | services/publishService.ts:19 | one `%XY` escape decodes to its byte, ahead of whatever follows it |
| PublishService.DecodePercentBytes | services/publishService.ts:19 | the escapes of a byte string decode back to those bytes |
| PublishService.PercentDecode | services/publishService.ts:19 | a decoded percent-encoding has byte values below 256, is no longer than the text, and the text is ASCII |
| PublishService.EncodeDecodes | services/publishService.ts:19 | round trip: percent-decoding the encoded text gives the UTF-8 bytes of the original |
| PublishService.EncodedIsSafe | services/publishService.ts:19 | the encoded text holds only unreserved characters and '%' |
| PublishService.PercentBytesSafe | services/publishService.ts:19 | escapes hold only '%' and hexadecimal digits |
| PublishService.UnreservedUnchanged | services/publishService.ts:19 | a text of unreserved characters is encoded as itself |
| PublishService.SafeTitle | services/publishService.ts:21 | the title sent is a prefix of the title's UTF-16 code units: the first 20 when it has more, all of them otherwise |
| PublishService.SafeTitleOfBmp | services/publishService.ts:21 | for characters below U+10000 the title sent is the first 20 characters |
| PublishService.SafeTitleCanSplitPair | services/publishService.ts:21 | 19 characters below U+10000 followed by an emoji are cut inside the emoji's surrogate pair, leaving a lone high surrogate that does not decode |
| PublishService.TargetOf | services/publishService.ts:16 | the target is the configured one when set, otherwise the default, and never empty |
| PublishService.ProxyOf | services/publishService.ts:17 | the proxy is the configured one when set, otherwise the default, and never empty |
| PublishService.BuildRequest | services/publishService.ts:10-34 | a missing key fails before any request; otherwise the URL is the proxy followed by the encoded target (so it starts with the proxy), and the body carries the key, "normal", the truncated title, and content and images unchanged |
| PublishService.ClassifyBody | services/publishService.ts:42-50 | a null body fails with the property-of-null message; success exactly when `success === true` and `data` is truthy, yielding `data.qrcode`; otherwise a truthy `error` gives its message or "参数验证失败", and anything else "接口返回了未知的格式" |
| PublishService.StatusError | services/publishService.ts:36-38 | the status error message is never empty |
| PublishService.Rethrow | services/publishService.ts:54 | the rethrown message is never empty, and a non-empty message is kept |
| PublishService.Publish | services/publishService.ts:10-56 | a missing key fails first; a network error or an unreadable body is rethrown; otherwise it succeeds exactly when the answer classifies as success, returning `data.qrcode`, and a classified error is rethrown; every error message is non-empty |
| PublishService.PublishReturnsQrcode | services/publishService.ts:42-43 | an ok answer `{success: true, data: {qrcode: q}}` returns `q` |
| Repository.FirstTruthy | services/repository.ts:22-25 | the detail property picked is always a truthy value |
| Repository.FirstTruthyPriority | services/repository.ts:22-25 | the detail search yields the first key, in the order message, error_description, details, hint, whose property is truthy, and yields nothing exactly when none is truthy |
| Repository.GetErrorMessage | services/repository.ts:17-33 | a falsy error gives "Unknown error", a string error is its own message, otherwise the first truthy detail property, otherwise the serialisation or the plain string conversion when serialising throws; the message is never a falsy value other than "" |
| Repository.MessageOf | services/repository.ts:17-33 | the shown message is "Unknown error" for a falsy error and a non-empty string error itself |
| Repository.Loaded | services/repository.ts:61-64 | a stored configuration is used only with a database client, a successful query and a truthy `value` |
| Repository.GetSystemConfig | services/repository.ts:60-75 | the result has exactly the four default sections, and is the default configuration whenever no stored value is used |
| Repository.ConfigFieldOrigin | services/repository.ts:66-71 | each field of a merged section is the stored field when the stored section has it and the default field otherwise, and no other field appears |
| Repository.MissingSectionIsDefault | services/repository.ts:67-70 | a stored value whose section is missing or falsy leaves that section equal to its default |
| Repository.LoginStamp | services/repository.ts:91-93 | the recorded data keep every other field and set lastIp, location and lastLoginAt |
| Repository.Heartbeat | services/repository.ts:101-103 | the online-time counter grows by exactly the seconds reported, lastActiveAt is the current time, every other field is kept |
| Repository.Bump | services/repository.ts:111-113 | the interaction counter grows by exactly one (a missing counter counts as 0) and every other field is kept |
| Repository.HeartbeatsAccumulate | services/repository.ts:97-105 | two heartbeats raise the online time by the sum of their seconds |
| Repository.BumpTimesCounts | services/repository.ts:107-115 | n counted interactions raise the counter by n |
| Repository.Revived | services/repository.ts:232-236 | a revived account is neither deleted nor suspended and keeps its other data fields |
| Repository.SoftDeleted | services/repository.ts:265 | a soft-deleted account is flagged deleted with the deletion time and keeps its other data fields |
| Repository.NewProfile | services/repository.ts:240-244 | a new account is a regular user with a quota of 100, not deleted, not suspended, and with both counters at 0 |
| Repository.InsertKeepsUnique | services/repository.ts:229-244 | inserting a row under an unused name keeps usernames unique |
| Repository.ReplaceKeepsUnique | services/repository.ts:232-236 | reviving a row under its own name keeps usernames unique |
| Repository.WithData | services/repository.ts:93 | rewriting one row's data keeps every row and every username |
| Repository.FailedReadForgetsFlags | services/repository.ts:90-93 | when the read before a login, heartbeat or interaction write fails, the written data hold only the new fields: the suspension and deletion marks and the other counter are gone |
| Repository.Holders | services/repository.ts:230 | the rows the username lookup matches are exactly the rows holding that name |
| Repository.SingleHolder | services/repository.ts:230 | with unique names, the lookup of a taken name matches exactly one row |
| Repository.BlindInsertDuplicates | services/repository.ts:230-244 | inserting under a name that is already taken, as `createUser` does when its lookup fails, breaks the uniqueness of usernames |
| Repository.FetchRow | services/repository.ts:124-168 | a successful procedure answer gives its row (the first element of an array), a non-schema error gives its message, a schema error falls back to the direct query whose failure, missing row or row decide the outcome, and a thrown exception gives a "请求失败: " message |
| Repository.Admit | services/repository.ts:170-195 | a missing row is refused as wrong credentials, then a deleted account as missing, then a suspended one as suspended; otherwise the user is admitted, an administrator exactly when the role is "admin", with the trimmed code, a total quota of 100 and not suspended |
| Repository.Authenticate | services/repository.ts:124-199 | an admitted user carries the code it signed in with and is never suspended; an empty procedure answer is refused as wrong credentials |
| Repository.Login | services/repository.ts:117-200 | without a database client the login is refused as uninitialised; an admitted user holds the trimmed code and is not suspended |
| Repository.LoginTrims | services/repository.ts:121-122 | padding the username or code with whitespace does not change the outcome |
| Repository.DirectOnlyOnSchemaError | services/repository.ts:130-163 | the direct query's answer matters only after a schema error of the procedure |
| Repository.IsSchemaError | services/repository.ts:135-138 | code 42883 is a schema error, and an error with no code, message or details is not |
| Repository.RpcRow | services/repository.ts:164-167 | a row comes only from a truthy answer: the answer itself, an element of an array answer, never from an empty array |
| Repository.SessionUser | services/repository.ts:177-194 | the session user holds the trimmed code, a total quota of 100, is neither suspended nor deleted, is an administrator exactly when the role is "admin", and takes a numeric `quota_remaining` |
| Repository.DeletedBeforeSuspended | services/repository.ts:173-174 | an account both deleted and suspended is reported as missing |
| Repository.FinalProjectId | services/repository.ts:317-318 | a temporary id is replaced by the generated one and any other id is kept |
| Repository.FinalProjectIdStable | services/repository.ts:312-334 | saving again under the id a save returned keeps that id |
| Repository.ListProjects | services/repository.ts:298-309 | the listed projects are exactly the user's rows, without the deleted ones unless asked for |
| Repository.ListProjectsQuery | services/repository.ts:294-310 | without a client or on a query error the list is empty; otherwise it is exactly the user's rows, without the deleted ones unless asked for |
| Repository.Personas | services/repository.ts:346 | the personas are exactly those of projects whose persona has a tone, tagged with the project's name and id |
| Repository.Notes | services/repository.ts:347-349 | a project's note assets are exactly its notes, deleted ones only when asked for |
| Repository.Images | services/repository.ts:347-351 | a project's image assets are exactly its image attachments, deleted ones only when asked for |
| Repository.Drafts | services/repository.ts:352-354 | a project's draft entries are exactly its drafts, deleted ones only when asked for |
| Repository.Published | services/repository.ts:352-356 | a project's published entries are exactly its published records, deleted ones only when asked for |
| Repository.AllAssetsMembers | services/repository.ts:347-351 | the assets are exactly the assets of the listed projects |
| Repository.AllFinishedMembers | services/repository.ts:352-356 | the finished entries are exactly those of the listed projects |
| Repository.AllFinishedAppend | services/repository.ts:352-356 | the finished entries are laid out project by project, so the entries of two lists of projects are the concatenation of their entries |
| Repository.AggregateUserAssets | services/repository.ts:344-358 | every persona comes from one of the user's projects with a toned persona; without deleted items no deleted asset or finished entry appears; every image asset is an image |
| Repository.FinishedComplete | services/repository.ts:352-356 | every kept draft and published record of a listed project appears among the finished entries |
| Repository.Repository.constructor | services/supabase.ts:14-24 | a repository starts from the given client state and tables, and is valid when those tables have unique usernames |
| Repository.Repository.RecordLogin | services/repository.ts:87-95 | a login is stamped into an existing, unprotected row only with a database client and a successful write, on top of the row's data or, after a failed read, of nothing; nothing else changes and unique usernames are kept |
| Repository.Repository.UpdateHeartbeat | services/repository.ts:97-105 | the heartbeat is added to an existing, unprotected row only with a database client and a successful write, on top of the row's data or, after a failed read, of nothing; nothing else changes and unique usernames are kept |
| Repository.Repository.IncrementInteraction | services/repository.ts:107-115 | one interaction is counted on an existing, unprotected row only with a database client and a successful write, on top of the row's data or, after a failed read, of nothing; nothing else changes and unique usernames are kept |
| Repository.Repository.CreateUser | services/repository.ts:225-245 | when the lookup finds the one row of that name, a deleted account is revived with the new code and a live one is refused as a duplicate; when it finds nothing or fails, a new row is inserted; usernames stay unique unless the lookup failed for a taken name; without a client or on a failed write nothing changes |
| Repository.Repository.ToggleUserSuspension | services/repository.ts:252-257 | with a client and a successful write, the suspension flag is set on an existing row, over its other data fields or, after a failed read, over nothing; otherwise nothing changes |
| Repository.Repository.DeleteUser | services/repository.ts:259-270 | protected accounts are refused, otherwise the account is soft-deleted, over its data or, after a failed read, over nothing; success is reported exactly when connected, unprotected and written, and a failure changes nothing |
| Repository.Repository.UpdateQuota | services/repository.ts:272-275 | the remaining quota is set on every account except the literal id "admin" |
| Repository.Repository.SaveProject | services/repository.ts:312-334 | the project is upserted under its final id, which is returned; a failed write changes nothing |
| Repository.Repository.DeleteProject | services/repository.ts:336-342 | an existing project is flagged deleted and kept; without a client the call fails |
| Workstation.TagColor | components/Workstation.tsx:22-44 | every tag gets one of the fourteen colour classes |
| Workstation.GetTagColor | components/Workstation.tsx:39-43 | the hash loop's colour is the one the tag's string hash selects, and it is one of the fourteen classes |
| Workstation.Toggled | components/Workstation.tsx:478-483 | the toggled id is selected exactly when it was not, and every other id keeps its state |
| Workstation.ToggleTwice | components/Workstation.tsx:476-484 | toggling the same id twice restores the selection |
| Workstation.FetchAll | components/Workstation.tsx:452-464 | there are at most as many notes as links, and the notes plus the failures cover every link; every note is stamped with the import time |
| Workstation.FetchAllPartition | components/Workstation.tsx:452-464 | when every fetched note has a string description, each link yields exactly one note or one failure |
| Workstation.FetchAllOrigin | components/Workstation.tsx:452-464 | each note is the fetched note of one of the links, stamped with the import time |
| Workstation.FetchAllSnoc | components/Workstation.tsx:452-464 | one more link adds its stamped note when the fetch succeeds (and a failure too when its description is not a string), and only a failure otherwise |
| Workstation.FetchEach | components/Workstation.tsx:452-464 | the loop over the links computes exactly the notes and failure count of `FetchAll` |
| Workstation.AllKnownFetchesNothing | components/Workstation.tsx:445-446 | links that all contain a saved note's id leave nothing to fetch |
| Workstation.DesclessNoteAddedAndFailed | components/Workstation.tsx:457-462 | a fetched note without a string description is both added and counted as a failure |
| Workstation.NewProject | components/Workstation.tsx:667-673 | the placeholder carries the temporary id and the trimmed name, is not deleted and holds no drafts, records, notes or files |
| Workstation.Renamed | components/Workstation.tsx:683 | renaming keeps the length and changes the id of exactly the projects carrying the old one |
| Workstation.WithHistory | components/Workstation.tsx:648-651 | only the current project gets the new history and update time |
| Workstation.FailedCreateRestores | components/Workstation.tsx:686-689 | removing the placeholder after a failed save gives back the earlier project list |
| Workstation.SavedCreateRenamesPlaceholder | components/Workstation.tsx:682-684 | a save under a new id renames only the placeholder, which stays first |
| Workstation.Placed | components/Workstation.tsx:666-690 | only the project list and current project change; a current project exists exactly when the save succeeded, and then the new project, first, carries the name |
| Workstation.AfterCreate | components/Workstation.tsx:656-693 | only the project list and current project change, and a blank name changes nothing |
| Workstation.CreateOutcome | components/Workstation.tsx:656-693 | a blank or taken name, a creation in progress or a failed save leave the project list as it was; otherwise exactly one project with the trimmed name is put first and made current |
| Workstation.NextQuota | components/Workstation.tsx:575 | a successful generation spends one unit of quota and never leaves it below zero |
| Workstation.QuotaAfterFloors | components/Workstation.tsx:575 | n successful generations lower the quota by n, floored at zero |
| Workstation.QuotaAfter | components/Workstation.tsx:575 | after one or more generations the quota is non-negative, and it never grows from a non-negative start |
| Workstation.CanGenerate | components/Workstation.tsx:547-549 | no generation starts while one runs; an attached file always allows one, and an empty instruction, context and file list never does |
| Workstation.Workstation.constructor | components/Workstation.tsx:147-160 | the workstation starts on the given projects with nothing selected, attached or generating |
| Workstation.Workstation.ToggleMaterialSelection | components/Workstation.tsx:476-484 | only the selection changes, by flipping the one id |
| Workstation.Workstation.RemoveSocialNote | components/Workstation.tsx:412-420 | the notes kept are exactly those with another id, in order, and the id leaves the selection |
| Workstation.Workstation.RemoveFile | components/Workstation.tsx:422-433 | the files kept are exactly those with another id, in order |
| Workstation.Workstation.DeleteDraft | components/Workstation.tsx:435-441 | the drafts kept are exactly those with another id, in order |
| Workstation.Workstation.BatchDeletePublishedRecords | components/Workstation.tsx:644-654 | the records kept are exactly those whose id is not listed, and the current project gets that history and the new update time |
| Workstation.Workstation.DeletePublishedRecord | components/Workstation.tsx:629-642 | deleting one record is the batch delete of its id |
| Workstation.Workstation.BatchExtract | components/Workstation.tsx:443-474 | the loop fetches exactly the links that contain no saved note's id, in order; the notes fetched go in front of the saved ones and the counts of added and failed links are those of the batch |
| Workstation.Workstation.CreateNewProject | components/Workstation.tsx:656-693 | the new state is the one the creation outcome describes |
| Workstation.Workstation.Place | components/Workstation.tsx:666-692 | the placeholder is put first and made current, then renamed to the saved id or removed after a failed save |
| Workstation.Workstation.HandleGenerate | components/Workstation.tsx:547-581 | nothing happens while a generation runs or with no instruction, context or file; otherwise the input is cleared and a success spends one unit of quota, never going below zero |
| AdminPanel.DurationParts | components/AdminPanel.tsx:153-154 | the minutes are below 60 and the hours and minutes shown account for the duration to within one minute; under an hour at least one minute is shown |
| AdminPanel.FormatDuration | components/AdminPanel.tsx:151-156 | under a minute the seconds are shown, otherwise hours and minutes when there is at least one hour and minutes alone when there is not |
| AdminPanel.SamePartsWithinMinute | components/AdminPanel.tsx:151-156 | two durations that show the same hours and minutes differ by less than a minute |
| AdminPanel.ActiveCount | components/AdminPanel.tsx:103 | the active count never exceeds the number of users |
| AdminPanel.ActiveCountIsFilter | components/AdminPanel.tsx:100-104 | the active count is the number of users with a login less than a day old |
| AdminPanel.TotalsAppend | components/AdminPanel.tsx:100-104 | the online-time and interaction totals add up over a list split in two |
| AdminPanel.DisplayUsers | components/AdminPanel.tsx:189 | the active view holds exactly the users not deleted and the graveyard exactly the deleted ones |
| AdminPanel.ViewsPartition | components/AdminPanel.tsx:189 | every user is in exactly one of the two views and their sizes add up to the list's |
| AdminPanel.EditChangesOneField | components/AdminPanel.tsx:158-160 | a configuration edit sets the one field and keeps every other section and every other field |
| AdminPanel.EditsCommute | components/AdminPanel.tsx:158-160 | edits of two different fields give the same configuration in either order |
| AdminPanel.SameSectionCommute | components/AdminPanel.tsx:158-160 | edits of two fields of one section commute |
| AdminPanel.OtherSectionsCommute | components/AdminPanel.tsx:158-160 | edits in two different sections commute |
| AdminPanel.LastEditWins | components/AdminPanel.tsx:158-160 | a second edit of the same field overrides the first |
| AdminPanel.ActiveToday | components/AdminPanel.tsx:103 | a user who never logged in is never active, and a login at this moment is |
| AdminPanel.OnlineTotal | components/AdminPanel.tsx:100-101 | with no negative entry, the total online time is at least every user's own |
| AdminPanel.InteractionTotal | components/AdminPanel.tsx:100-102 | with no negative entry, the total interaction count is at least every user's own |
| AdminPanel.CharFor | components/AdminPanel.tsx:129-131 | every draw selects a character of the password alphabet |
| AdminPanel.PasswordFrom | components/AdminPanel.tsx:130-131 | the password has one character per draw, the one that draw selects |
| AdminPanel.GeneratedPasswordShape | components/AdminPanel.tsx:128-133 | a generated password has ten characters, all from the alphabet |
| AdminPanel.AdminPanel.constructor | components/AdminPanel.tsx:29-47 | the panel starts with no users, the active view, zero metrics, the four configuration sections with empty fields, an empty form and no deletion in flight |
| AdminPanel.AdminPanel.RefreshUserList | components/AdminPanel.tsx:89-111 | the list is stored and the loop's totals and active count equal the totals and count over the whole list, which never exceeds its length |
| AdminPanel.AdminPanel.UpdateConfig | components/AdminPanel.tsx:158-160 | only the configuration changes, by the one-field edit |
| AdminPanel.AdminPanel.GenerateRandomPassword | components/AdminPanel.tsx:128-133 | the loop builds the password of the ten draws and only the password field changes |
| AdminPanel.AdminPanel.GenerateAccount | components/AdminPanel.tsx:135-149 | nothing happens exactly when the name or password is blank; otherwise, when the lookup finds the one row of that name, a deleted one is revived with the new password and a live one is a duplicate, and when it finds nothing or fails the trimmed account is inserted under a fresh id; success clears the form; a failure changes nothing; projects are untouched |
| AdminPanel.AdminPanel.ToggleSuspend | components/AdminPanel.tsx:186 | the stored suspension flag becomes the opposite of the one the listed user shows, over the row's data or, after a failed read, over nothing |
| AdminPanel.AdminPanel.ExecuteDeleteUser | components/AdminPanel.tsx:162-180 | the id is no longer marked as being deleted afterwards, whatever the outcome; the deletion succeeds exactly when the repository's does, and then marks the row deleted at `now`, over its data or, after a failed read, over nothing; a failure or an unknown id leaves the profiles as they were; projects are untouched |
| App.Route | components/App.tsx:17-231 | without a database client only the setup wizard shows; without a user only the login screen; an administrator sees the impersonated account, the own workstation or the panel, in that order of precedence; a suspended regular user is signed out and any other regular user sees the workstation |
| App.AdminIgnoresSuspension | components/App.tsx:191-229 | flipping an administrator's suspension flag never signs them out and never changes which screen they see |
| App.AppShell.constructor | components/App.tsx:21-30 | the shell starts signed out, not working, not impersonating, with an empty form and "remember me" checked |
| App.AppShell.RestoreSession | components/App.tsx:60-75 | a saved session that is not suspended is resumed, a suspended one is removed, and with no session the remembered credentials fill the form |
| App.AppShell.Settle | components/App.tsx:85-101 | a successful login signs the user in, saves the session and remembers or forgets the credentials, and never lands on the forced logout or login screen; a refusal shows its message, or the default one when it is empty; loading ends either way |
| App.AppShell.HandleLogin | components/App.tsx:77-102 | the outcome is the repository's login on the form's credentials; on success the user and the session are saved and the credentials remembered exactly when the box is checked, and the user is never sent to the forced logout; on failure only the message changes, falling back to the default one for an empty message |
| App.AppShell.HandleLogout | components/App.tsx:104-109 | the user, the administrator's modes and the saved session are cleared, the remembered credentials kept, and the login screen follows |
| App.AppShell.ExitImpersonation | components/App.tsx:111-113 | only the impersonated user is cleared, so an administrator returns to the panel or the own workstation |
| App.AppShell.EnterWorkstation | components/App.tsx:223 | only the working flag is set |
| App.AppShell.LeaveWorkstation | components/App.tsx:213 | only the working flag is cleared |
| App.AppShell.Impersonate | components/App.tsx:223 | only the impersonated user is set, and from the panel the impersonation screen follows |
| App.AppShell.UpdateUser | components/App.tsx:210-231 | the user is replaced, and the session is saved as well exactly when the regular workstation asks |
| App.AppShell.Render | components/App.tsx:115-231 | the screen shown is the route of the state; rendering a suspended regular user signs them out, and nothing else changes state |

## Left out

- Network, database and SDK calls are not modelled as such. What they answer is an input of the model: the Supabase queries and RPC, `fetch`, the COS SDK, the scraping and publishing proxies, and the language model's HTTP response.
- The server-sent-event framing is left out: the `data:` line splitting, `getReader` and `TextDecoder` (services/geminiService.ts:311-329). The stream loop receives the content strings directly.
- `JSON.parse` and `JSON.stringify` are parameters, partial functions returning None where they throw. No JSON parser is written.
- Floating-point values are left out, including the generation temperature and the request fields that carry no logic. JavaScript numbers are integers in the model. For the string hash, `TextHash.HashExact` shows that integers compute the same values as doubles for strings of realistic length.
- Strings are sequences of Unicode scalar values, one `char` each. Where the source counts UTF-16 code units, the model goes through `Strings.Utf16`: the weighted length, the string hash and the 20-unit title cut. Elsewhere in the modelled operations the source only cuts at positions it found by searching, offset by the length of an ASCII marker, so the strings it produces are the same whichever unit counts the positions. Two fixed cuts are outside the model: the first 100 units of a fetched note's description, which only feed the `linkRepo.saveLink` record (components/Workstation.tsx:459), and the first 10 units of a note title in `handleDirectAnalysis` (components/Workstation.tsx:538), which is not part of this model. Case folding in the `/gi` fence removal is ASCII only.
- PublishService.Publish: a cut title that ends in a lone high surrogate is sent as code units. How `JSON.stringify` escapes it is not modelled, and neither is the `URIError` that `encodeURIComponent` raises on a lone surrogate, since a Dafny string cannot hold one.
- Workstation.FetchAll: one `now` stamps the whole batch, where the source reads `Date.now()` again for each note.
- Workstation.Workstation.BatchExtract: the `linkRepo.saveLink` record written for each fetched note (its URL, title and 100-unit summary) is not modelled. `saveLink` catches its own errors (services/repository.ts:287-290), so it never turns a fetched note into a failure; only `data.desc.substring` failing on a description that is not a string does, and that is modelled.
- JsValue.Spread: the index keys that spreading a string or an array contributes are not modelled; only an object's fields are copied.
- JsValue.NumberOr0: a truthy value that is not a number is kept by the source's `|| 0`; the model's `User` fields are integers, so it reads as 0.
- The `User` record leaves out `lastIp`, `location`, `avatar`, `createdAt` and `expiryDate`. They are copied or fixed without any decision.
- The prompt texts and the other model calls are left out: `analyzeMaterialContent`, `analyzeMaterials`, `streamPersonaAnalysis`, `testConnection` and `generateComments`. They only assemble prompt templates around the calls that are modelled.
- `urlToBase64`, `fileToBase64` and the FileReader are left out. Their results are inputs.
- The image cropper and the carousel drag in `MobilePreview.tsx` are left out. They are floating-point pixel arithmetic on the DOM.
- The footer tag regular expression and the rich-text rendering are left out. They only affect display.
- Timers are left out: the heartbeat interval and its IP lookup in `App.tsx`, the autosave debounce in `Workstation.tsx`, the periodic refresh in `AdminPanel.tsx` and toast timeouts. The operations they trigger (`recordLogin`, `updateHeartbeat`) are modelled.
- Toasts, confirmation modals, loading spinners and the refreshes that follow an action are left out. They only affect display.
- `userRepo.listUsers`, `updateUserCredentials`, `configRepo.saveSystemConfig`, `fileRepo`, `linkRepo`, `projectRepo.listProjects`' field defaults and `safeUUID` are left out. They are single writes or reads without a decision; a fresh id is a parameter.
- The Workstation's file upload, persona analysis and editing, project loading and switching, autosave, optimistic project deletion and chat history are left out. They are sequences of service calls and renders.
- `SetupWizard.tsx`, `PersonaTrainer.tsx`, `Toast.tsx` and `constants.ts` are left out. They hold configuration and UI only. Of `supabase.ts`, only whether a client exists is modelled, as the repository's `connected` flag.
- App.AppShell.HandleLogin: the `catch` branch that shows "系统异常，请重试" is not modelled. The modelled login catches every failure itself and never throws.
- Repository.Repository.RecordLogin, UpdateHeartbeat, IncrementInteraction, ToggleUserSuspension and UpdateQuota take the database's write outcome as the flag `written`. Their read outcome, and that of DeleteUser, is the flag `readOk`, and the lookup outcome of CreateUser is `lookupOk`. A read-then-write race between two tabs is not modelled.
- Repository.AggregateUserAssets: its own contract states where the entries come from and that deleted items are dropped. Completeness is stated separately by FinishedComplete, AllAssetsMembers and AllFinishedMembers.
- GeminiRequest.BuildParts, GeminiRequest.BuildMessage, MobilePreview.FileDraft, MobilePreview.FileRecord, Workstation.Workstation.Place, GeminiService.StreamSegmenter.Absorb and App.AppShell.Settle are parts of the source's loops and handlers, split out as methods; Workstation.FetchEach is the fetch loop of `handleBatchExtractInternal`, split out of Workstation.Workstation.BatchExtract.
