/** How a request to the language model is addressed and shaped: the choice between an
    OpenAI-compatible endpoint and the Google endpoint, the URL normalisation for each, and the
    translation of a Google-style request body into OpenAI chat messages. The HTTP call itself
    is not part of the model; its status is an input. */
module GeminiRequest {
  import opened Wrappers
  import opened Strings
  import Seqs

  const MissingKey := "AI 密钥未配置，请联系管理员"
  const VersionPath := "/v1"
  const CompletionsPath := "/chat/completions"
  /** "/v1/chat/completions". */
  const ChatPath := VersionPath + CompletionsPath
  const DefaultMaxTokens := 4096

  /** The `gemini` section of the system configuration. */
  datatype ModelConfig = ModelConfig(apiKey: string, baseUrl: string, model: string)

  /** The key or the base URL marks an OpenAI-compatible provider. */
  predicate IsOpenAiStyle(apiKey: string, baseUrl: string) {
    StartsWith(apiKey, "sk-") || Contains(baseUrl, "vectorengine") || Contains(baseUrl, "openai")
  }

  /** `s.replace(/\/$/, '')`: one trailing slash removed. */
  function DropTrailingSlash(s: string): (r: string)
    ensures r <= s && |s| - 1 <= |r|
    ensures EndsWith(s, "/") <==> |r| < |s|
  {
    if s != [] && s[|s| - 1] == '/' then s[..|s| - 1] else s
  }

  /** The chat-completions URL for an OpenAI-compatible base URL. */
  function OpenAiEndpoint(baseUrl: string): (r: string)
    ensures EndsWith(r, ChatPath)
    ensures DropTrailingSlash(baseUrl) <= r
    ensures EndsWith(DropTrailingSlash(baseUrl), ChatPath) ==> r == DropTrailingSlash(baseUrl)
    ensures !EndsWith(DropTrailingSlash(baseUrl), ChatPath) && EndsWith(DropTrailingSlash(baseUrl), VersionPath) ==>
              r == DropTrailingSlash(baseUrl) + CompletionsPath
    ensures |r| <= |DropTrailingSlash(baseUrl)| + |ChatPath|
  {
    var target := DropTrailingSlash(baseUrl);
    if EndsWith(target, ChatPath) then target
    else if EndsWith(target, VersionPath) then
      var r := target + CompletionsPath;
      assert EndsWith(r, ChatPath) by { EndsWithExtend(target, VersionPath, CompletionsPath); }
      r
    else
      var r := target + ChatPath;
      assert EndsWith(r, ChatPath) by { EndsWithAppend(target, ChatPath); }
      r
  }

  /** Normalising an already normalised endpoint changes nothing. */
  lemma OpenAiEndpointIdempotent(baseUrl: string)
    ensures OpenAiEndpoint(OpenAiEndpoint(baseUrl)) == OpenAiEndpoint(baseUrl)
  {
    var r := OpenAiEndpoint(baseUrl);
    assert r[|r| - 1] == r[|r| - |ChatPath|..][|ChatPath| - 1] == 's';
    assert DropTrailingSlash(r) == r;
  }

  /** The query separator: '&' when the endpoint name already holds a '?', else '?'. */
  function Separator(endpoint: string): string {
    if Contains(endpoint, "?") then "&" else "?"
  }

  /** The Google URL: a base URL that already names a model is used as it is; otherwise the
      model and the endpoint are appended. The key always comes last. */
  function GoogleEndpoint(baseUrl: string, model: string, apiKey: string, endpoint: string): (r: string)
    ensures DropTrailingSlash(baseUrl) <= r
    ensures EndsWith(r, Separator(endpoint) + "key=" + apiKey)
    ensures Contains(DropTrailingSlash(baseUrl), "/models/") ==>
              r == DropTrailingSlash(baseUrl) + Separator(endpoint) + "key=" + apiKey
    ensures !Contains(DropTrailingSlash(baseUrl), "/models/") ==>
              r == DropTrailingSlash(baseUrl) + "/v1beta/models/" + model + ":" + endpoint +
                   Separator(endpoint) + "key=" + apiKey
  {
    var clean := DropTrailingSlash(baseUrl);
    var tail := Separator(endpoint) + "key=" + apiKey;
    var head := if Contains(clean, "/models/") then clean else clean + "/v1beta/models/" + model + ":" + endpoint;
    var r := head + tail;
    assert EndsWith(r, tail) by { EndsWithAppend(head, tail); }
    r
  }

  /** Where the request goes. */
  datatype Target = OpenAiTarget(url: string, bearer: string) | GoogleTarget(url: string)

  /** The request target, or the error raised before any request when no key is configured. */
  function RequestTarget(cfg: ModelConfig, endpoint: string): (r: Result<Target, string>)
    ensures r.Err? <==> cfg.apiKey == []
    ensures r.Err? ==> r.error == MissingKey
  {
    if cfg.apiKey == [] then Err(MissingKey)
    else if IsOpenAiStyle(cfg.apiKey, cfg.baseUrl) then Ok(OpenAiTarget(OpenAiEndpoint(cfg.baseUrl), cfg.apiKey))
    else Ok(GoogleTarget(GoogleEndpoint(cfg.baseUrl, cfg.model, cfg.apiKey, endpoint)))
  }

  /** With a key, the provider family decides the target: the OpenAI-compatible one ends in
      the chat-completions path and carries the key as bearer token, the Google one carries
      the key as the last query parameter. */
  lemma RequestTargetRoutes(cfg: ModelConfig, endpoint: string)
    requires cfg.apiKey != []
    ensures var r := RequestTarget(cfg, endpoint);
            r.Ok? && (r.value.OpenAiTarget? <==> IsOpenAiStyle(cfg.apiKey, cfg.baseUrl))
    ensures var r := RequestTarget(cfg, endpoint);
            r.value.OpenAiTarget? ==> EndsWith(r.value.url, ChatPath) && r.value.bearer == cfg.apiKey
    ensures var r := RequestTarget(cfg, endpoint);
            r.value.GoogleTarget? ==> EndsWith(r.value.url, "key=" + cfg.apiKey)
  {
    if !IsOpenAiStyle(cfg.apiKey, cfg.baseUrl) {
      var url := GoogleEndpoint(cfg.baseUrl, cfg.model, cfg.apiKey, endpoint);
      Seqs.AppendAssoc(Separator(endpoint), "key=", cfg.apiKey);
      EndsWithSuffix(url, Separator(endpoint), "key=" + cfg.apiKey);
    }
  }

  /** A non-ok HTTP status is an error whose text names the provider family and the status. */
  function CheckStatus(openAi: bool, ok: bool, status: int): (r: Option<string>)
    ensures r.None? <==> ok
    ensures r.Some? ==> EndsWith(r.value, IntToString(status))
  {
    if ok then None
    else
      var prefix := if openAi then "API Error: " else "Google API Error: ";
      var r := prefix + IntToString(status);
      assert r[|r| - |IntToString(status)|..] == IntToString(status);
      Some(r)
  }

  // ---------------------------------------------------------------- messages

  /** Inline image data of a Google request part. */
  datatype InlineData = InlineData(mimeType: string, data: string)

  /** A part of a Google request: `text`, `inlineData`, both or neither. */
  datatype Part = Part(text: string, inlineData: Option<InlineData>)

  /** One entry of `contents`; `parts` may be absent. */
  datatype Content = Content(role: string, parts: Option<seq<Part>>)

  datatype ContentPart = TextContent(text: string) | ImageContent(url: string)

  /** A message body is a plain string or a list of typed parts. */
  datatype MessageContent = Plain(text: string) | PartList(items: seq<ContentPart>)

  datatype Message = Message(role: string, content: MessageContent)

  /** The data URL of an inline image. */
  function DataUrl(d: InlineData): (r: string)
    ensures StartsWith(r, "data:")
    ensures EndsWith(r, d.data)
  {
    var r := "data:" + d.mimeType + ";base64," + d.data;
    assert r[|r| - |d.data|..] == d.data;
    r
  }

  /** The OpenAI part for one Google part: text first, else the image, else nothing. */
  function ConvertPart(p: Part): (r: seq<ContentPart>)
    ensures |r| <= 1
    ensures p.text != [] ==> r == [TextContent(p.text)]
    ensures p.text == [] && p.inlineData.Some? ==> r == [ImageContent(DataUrl(p.inlineData.value))]
    ensures p.text == [] && p.inlineData.None? ==> r == []
  {
    if p.text != [] then [TextContent(p.text)]
    else match p.inlineData
      case Some(d) => [ImageContent(DataUrl(d))]
      case None => []
  }

  /** The converted parts of a list of Google parts, in order. */
  function ConvertParts(ps: seq<Part>): (r: seq<ContentPart>)
    ensures |r| <= |ps|
  {
    if ps == [] then [] else ConvertParts(ps[..|ps| - 1]) + ConvertPart(ps[|ps| - 1])
  }

  /** A single text part is sent as a plain string, anything else as the list. */
  function Finalize(parts: seq<ContentPart>): MessageContent {
    if |parts| == 1 && parts[0].TextContent? then Plain(parts[0].text) else PartList(parts)
  }

  /** The message for one entry of `contents`; an empty role becomes "user". */
  function ToMessage(c: Content): (m: Message)
    ensures m.role != []
    ensures c.role != [] ==> m.role == c.role
  {
    var parts := match c.parts case Some(ps) => ConvertParts(ps) case None => [];
    Message(if c.role == [] then "user" else c.role, Finalize(parts))
  }

  /** The messages for the entries of `contents`, in order. */
  function ContentMessages(contents: seq<Content>): (ms: seq<Message>)
    ensures |ms| == |contents|
    ensures forall i :: 0 <= i < |contents| ==> ms[i] == ToMessage(contents[i])
  {
    if contents == [] then []
    else ContentMessages(contents[..|contents| - 1]) + [ToMessage(contents[|contents| - 1])]
  }

  /** The whole message list: the system instruction first, when there is one. */
  function ToMessages(system: Option<string>, contents: seq<Content>): (ms: seq<Message>)
    ensures |ms| == |contents| + (if system.Some? then 1 else 0)
    ensures system.Some? ==> ms[0] == Message("system", Plain(system.value))
    ensures forall i :: 0 <= i < |contents| ==>
              ms[i + (if system.Some? then 1 else 0)] == ToMessage(contents[i])
  {
    SystemMessages(system) + ContentMessages(contents)
  }

  function SystemMessages(system: Option<string>): seq<Message> {
    match system case Some(t) => [Message("system", Plain(t))] case None => []
  }

  /** Every text part of the request reaches the converted parts. */
  lemma {:induction false} TextPartsKept(ps: seq<Part>)
    ensures forall i :: 0 <= i < |ps| && ps[i].text != [] ==> TextContent(ps[i].text) in ConvertParts(ps)
    decreases |ps|
  {
    if ps != [] {
      TextPartsKept(ps[..|ps| - 1]);
      forall i | 0 <= i < |ps| && ps[i].text != []
        ensures TextContent(ps[i].text) in ConvertParts(ps)
      {
        if i < |ps| - 1 {
          assert ps[..|ps| - 1][i] == ps[i];
        }
      }
    }
  }

  /** Every image-only part of the request reaches the converted parts as its data URL. */
  lemma {:induction false} ImagePartsKept(ps: seq<Part>)
    ensures forall i :: 0 <= i < |ps| && ps[i].text == [] && ps[i].inlineData.Some? ==>
              ImageContent(DataUrl(ps[i].inlineData.value)) in ConvertParts(ps)
    decreases |ps|
  {
    if ps != [] {
      ImagePartsKept(ps[..|ps| - 1]);
      forall i | 0 <= i < |ps| && ps[i].text == [] && ps[i].inlineData.Some?
        ensures ImageContent(DataUrl(ps[i].inlineData.value)) in ConvertParts(ps)
      {
        if i < |ps| - 1 {
          assert ps[..|ps| - 1][i] == ps[i];
        }
      }
    }
  }

  /** Converting a concatenation converts each half. */
  lemma {:induction false} ConvertPartsAppend(ps: seq<Part>, qs: seq<Part>)
    ensures ConvertParts(ps + qs) == ConvertParts(ps) + ConvertParts(qs)
    decreases |qs|
  {
    if qs == [] {
      assert ps + qs == ps;
    } else {
      var front := qs[..|qs| - 1];
      assert (ps + qs)[..|ps + qs| - 1] == ps + front;
      ConvertPartsAppend(ps, front);
    }
  }

  /** The part converted from `x` sits after everything converted from the parts before it
      and before everything converted from the parts after it. */
  lemma {:induction false} ConvertAround(pre: seq<Part>, x: Part, post: seq<Part>)
    ensures ConvertParts(pre + [x] + post) == ConvertParts(pre) + ConvertPart(x) + ConvertParts(post)
  {
    var upto := pre + [x];
    assert ConvertParts(upto) == ConvertParts(pre) + ConvertPart(x) by {
      assert upto[..|upto| - 1] == pre;
    }
    ConvertPartsAppend(upto, post);
  }

  lemma {:induction false} PartAt(ps: seq<Part>, i: nat)
    requires i < |ps|
    ensures ConvertParts(ps) == ConvertParts(ps[..i]) + ConvertPart(ps[i]) + ConvertParts(ps[i + 1..])
  {
    assert ps == ps[..i] + [ps[i]] + ps[i + 1..];
    ConvertAround(ps[..i], ps[i], ps[i + 1..]);
  }

  /** The converted parts keep the order of the Google parts: of two parts that both convert,
      the earlier one's comes first. */
  lemma {:induction false} PartsInOrder(ps: seq<Part>, i: nat, j: nat)
    requires i < j < |ps| && ConvertPart(ps[i]) != [] && ConvertPart(ps[j]) != []
    ensures var a, b := |ConvertParts(ps[..i])|, |ConvertParts(ps[..j])|;
            a < b < |ConvertParts(ps)| &&
            ConvertParts(ps)[a] == ConvertPart(ps[i])[0] && ConvertParts(ps)[b] == ConvertPart(ps[j])[0]
  {
    var whole, a, c := ConvertParts(ps), ConvertParts(ps[..i]), ConvertParts(ps[..j]);
    var x, y := ConvertPart(ps[i]), ConvertPart(ps[j]);
    assert whole[|a|] == x[0] by {
      PartAt(ps, i);
      assert (a + x + ConvertParts(ps[i + 1..]))[|a|] == x[0];
    }
    assert whole[|c|] == y[0] && |c| < |whole| by {
      PartAt(ps, j);
      assert (c + y + ConvertParts(ps[j + 1..]))[|c|] == y[0];
    }
    assert |a| < |c| by {
      var pre := ps[..j];
      assert pre[..i] == ps[..i] && pre[i] == ps[i];
      PartAt(pre, i);
    }
  }

  /** The inner push loop: the converted parts of one entry. */
  method BuildParts(ps: seq<Part>) returns (contentParts: seq<ContentPart>)
    ensures contentParts == ConvertParts(ps)
  {
    contentParts := [];
    for j := 0 to |ps|
      invariant contentParts == ConvertParts(ps[..j])
    {
      var p := ps[j];
      if p.text != [] {
        contentParts := contentParts + [TextContent(p.text)];
      } else if p.inlineData.Some? {
        contentParts := contentParts + [ImageContent(DataUrl(p.inlineData.value))];
      }
      assert ps[..j + 1][..j] == ps[..j];
    }
    assert ps[..|ps|] == ps;
  }

  /** The push loops that build the message list. */
  method BuildMessages(system: Option<string>, contents: seq<Content>) returns (messages: seq<Message>)
    ensures messages == ToMessages(system, contents)
  {
    messages := [];
    if system.Some? {
      messages := messages + [Message("system", Plain(system.value))];
    }
    for i := 0 to |contents|
      invariant messages == SystemMessages(system) + ContentMessages(contents[..i])
    {
      var m := BuildMessage(contents[i]);
      ContentMessagesNext(contents, i);
      Seqs.AppendAssoc(SystemMessages(system), ContentMessages(contents[..i]), [m]);
      messages := messages + [m];
    }
    assert contents[..|contents|] == contents;
  }

  /** One more entry adds its message at the end. */
  lemma ContentMessagesNext(contents: seq<Content>, i: nat)
    requires i < |contents|
    ensures ContentMessages(contents[..i + 1]) == ContentMessages(contents[..i]) + [ToMessage(contents[i])]
  {
    assert contents[..i + 1][..i] == contents[..i];
  }

  /** The body of the outer push loop: the message for one entry. */
  method BuildMessage(c: Content) returns (m: Message)
    ensures m == ToMessage(c)
  {
    var contentParts: seq<ContentPart> := [];
    if c.parts.Some? {
      contentParts := BuildParts(c.parts.value);
    }
    var finalContent := Finalize(contentParts);
    m := Message(if c.role == [] then "user" else c.role, finalContent);
  }

  /** `generationConfig.maxOutputTokens || 4096`. */
  function MaxTokens(requested: Option<int>): (r: int)
    ensures r != 0
    ensures requested.Some? && requested.value != 0 ==> r == requested.value
  {
    match requested
    case Some(n) => if n != 0 then n else DefaultMaxTokens
    case None => DefaultMaxTokens
  }
}
