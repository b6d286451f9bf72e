/** Finding Xiaohongshu note links in pasted text, and classifying the answer of the note-parsing
    service. The link pattern is the global regular expression of `extractXhsUrls`, written out
    as a deterministic matcher; the HTTP exchange is an input. */
module XhsService {
  import opened Wrappers
  import opened Strings
  import opened JsValue

  const ItemPrefix := "xiaohongshu.com/discovery/item/"
  const ShortPrefix := "xhslink.com/"

  predicate IsAlnum(c: char) {
    ('a' <= c <= 'z') || ('A' <= c <= 'Z') || ('0' <= c <= '9')
  }

  /** `[a-zA-Z0-9?=&_%-]`: what may follow a note-item path. */
  predicate InItemClass(c: char) {
    IsAlnum(c) || c == '?' || c == '=' || c == '&' || c == '_' || c == '%' || c == '-'
  }

  /** `[a-zA-Z0-9\/]`: what may follow a short-link host. */
  predicate InShortClass(c: char) {
    IsAlnum(c) || c == '/'
  }

  predicate InClass(c: char, item: bool) {
    if item then InItemClass(c) else InShortClass(c)
  }

  // ---------------------------------------------------------------- the language of the pattern

  /** A non-empty run of class characters after a literal prefix. */
  predicate PrefixThenRun(h: string, prefix: string, item: bool) {
    StartsWith(h, prefix) && |h| > |prefix| && forall i :: |prefix| <= i < |h| ==> InClass(h[i], item)
  }

  predicate PathPart(h: string) {
    PrefixThenRun(h, ItemPrefix, true) || PrefixThenRun(h, ShortPrefix, false)
  }

  predicate HostPart(h: string) {
    PathPart(h) || (StartsWith(h, "www.") && PathPart(h[4..]))
  }

  /** The strings the regular expression matches: "http://" or "https://", an optional "www.",
      then a note-item path or a short link, each followed by at least one class character. */
  predicate WellFormedUrl(u: string) {
    (StartsWith(u, "https://") && HostPart(u[8..])) || (StartsWith(u, "http://") && HostPart(u[7..]))
  }

  // ---------------------------------------------------------------- the matcher

  /** The end of the maximal run of class characters that starts at `i`. */
  function RunEnd(s: string, i: nat, item: bool): (e: nat)
    requires i <= |s|
    ensures i <= e <= |s|
    ensures forall k :: i <= k < e ==> InClass(s[k], item)
    ensures e == |s| || !InClass(s[e], item)
    decreases |s| - i
  {
    if i < |s| && InClass(s[i], item) then RunEnd(s, i + 1, item) else i
  }

  /** A match: where it ends, and whether it is a note-item link (else a short link). */
  datatype Match = Match(end: nat, item: bool)

  /** The path alternatives tried at `q`. */
  function MatchPath(s: string, q: nat): (r: Option<Match>)
    requires q <= |s|
    ensures r.Some? ==> q < r.value.end <= |s|
  {
    if OccursAt(s, ItemPrefix, q) then
      var e := RunEnd(s, q + |ItemPrefix|, true);
      if e > q + |ItemPrefix| then Some(Match(e, true)) else None
    else if OccursAt(s, ShortPrefix, q) then
      var e := RunEnd(s, q + |ShortPrefix|, false);
      if e > q + |ShortPrefix| then Some(Match(e, false)) else None
    else None
  }

  /** The match of the regular expression that starts exactly at `p`, if any. The optional parts
      never need to backtrack: without "s" the "://" cannot follow, and without "www." a path
      cannot start with 'w'. */
  function MatchAt(s: string, p: nat): (r: Option<Match>)
    requires p <= |s|
    ensures r.Some? ==> p < r.value.end <= |s|
  {
    var q := if OccursAt(s, "https://", p) then p + 8 else if OccursAt(s, "http://", p) then p + 7 else -1;
    if q < 0 then None else MatchHost(s, q)
  }

  /** The optional "www." and then the path alternatives, at `q`. */
  function MatchHost(s: string, q: nat): (r: Option<Match>)
    requires q <= |s|
    ensures r.Some? ==> q < r.value.end <= |s|
  {
    if OccursAt(s, "www.", q) then MatchPath(s, q + 4) else MatchPath(s, q)
  }

  lemma MatchPathSound(s: string, q: nat)
    requires q <= |s| && MatchPath(s, q).Some?
    ensures PathPart(s[q..MatchPath(s, q).value.end])
    ensures var m := MatchPath(s, q).value;
            m.end == |s| || !InClass(s[m.end], m.item)
  {
    var m := MatchPath(s, q).value;
    var h := s[q..m.end];
    if m.item {
      assert h[..|ItemPrefix|] == s[q..q + |ItemPrefix|];
      assert PrefixThenRun(h, ItemPrefix, true);
    } else {
      assert h[..|ShortPrefix|] == s[q..q + |ShortPrefix|];
      assert PrefixThenRun(h, ShortPrefix, false);
    }
  }

  lemma MatchHostSound(s: string, q: nat)
    requires q <= |s| && MatchHost(s, q).Some?
    ensures HostPart(s[q..MatchHost(s, q).value.end])
    ensures var m := MatchHost(s, q).value;
            m.end == |s| || !InClass(s[m.end], m.item)
  {
    var m := MatchHost(s, q).value;
    var h := s[q..m.end];
    if OccursAt(s, "www.", q) {
      MatchPathSound(s, q + 4);
      assert h[4..] == s[q + 4..m.end];
      assert h[..4] == s[q..q + 4];
    } else {
      MatchPathSound(s, q);
    }
  }

  /** What the matcher finds is in the language of the pattern, and the run of class
      characters that ends it is maximal (the quantifier is greedy). */
  lemma MatchAtSound(s: string, p: nat)
    requires p <= |s| && MatchAt(s, p).Some?
    ensures WellFormedUrl(s[p..MatchAt(s, p).value.end])
    ensures var m := MatchAt(s, p).value;
            m.end == |s| || !InClass(s[m.end], m.item)
  {
    var m := MatchAt(s, p).value;
    var u := s[p..m.end];
    var q := if OccursAt(s, "https://", p) then p + 8 else p + 7;
    MatchHostSound(s, q);
    assert u[q - p..] == s[q..m.end];
    assert u[..q - p] == s[p..q];
  }

  /** A matched link, by position. */
  datatype Span = Span(start: nat, end: nat)

  /** Well-formed spans in increasing, non-overlapping order, all at or after `from`. */
  ghost predicate OrderedSpans(s: string, spans: seq<Span>, from: nat) {
    (forall i :: 0 <= i < |spans| ==>
       from <= spans[i].start < spans[i].end <= |s| &&
       MatchAt(s, spans[i].start).Some? && MatchAt(s, spans[i].start).value.end == spans[i].end) &&
    (forall i, j :: 0 <= i < j < |spans| ==> spans[i].end <= spans[j].start)
  }

  /** `text.match(regex)` with the global flag, by position: scan left to right, resume after
      each match, move one character on where nothing matches. */
  function Scan(s: string, p: nat): (spans: seq<Span>)
    requires p <= |s|
    ensures OrderedSpans(s, spans, p)
    decreases |s| - p
  {
    if p == |s| then []
    else
      match MatchAt(s, p)
      case Some(m) => [Span(p, m.end)] + Scan(s, m.end)
      case None => Scan(s, p + 1)
  }

  /** The matched texts. */
  function MatchedTexts(s: string, spans: seq<Span>): (urls: seq<string>)
    requires forall i :: 0 <= i < |spans| ==> spans[i].start <= spans[i].end <= |s|
    ensures |urls| == |spans|
    ensures forall i :: 0 <= i < |spans| ==> urls[i] == s[spans[i].start..spans[i].end]
  {
    seq(|spans|, i requires 0 <= i < |spans| => s[spans[i].start..spans[i].end])
  }

  /** A matched link starts with 'h' and ends with a class character, so `trim()` leaves it as
      it is. */
  lemma MatchIsTrimmed(u: string)
    requires WellFormedUrl(u)
    ensures Trim(u) == u
  {
    assert u[0] == 'h';
    var last := u[|u| - 1];
    assert IsAlnum(last) || last in "?=&_%-/" ;
    TrimNoop(u);
  }

  /** Order-preserving de-duplication, as `Array.from(new Set(xs))`. */
  function Dedup(xs: seq<string>): (r: seq<string>)
    ensures forall x :: x in r <==> x in xs
    ensures forall i, j :: 0 <= i < j < |r| ==> r[i] != r[j]
    decreases |xs|
  {
    if xs == [] then []
    else
      var d := Dedup(xs[..|xs| - 1]);
      var x := xs[|xs| - 1];
      assert forall y :: y in xs <==> y in xs[..|xs| - 1] || y == x;
      if x in d then d else d + [x]
  }

  /** The index of the first occurrence of `x` in `xs`. */
  function FirstIndex(xs: seq<string>, x: string): (i: nat)
    requires x in xs
    ensures i < |xs| && xs[i] == x
    ensures forall k :: 0 <= k < i ==> xs[k] != x
  {
    if xs[0] == x then 0 else 1 + FirstIndex(xs[1..], x)
  }

  lemma FirstIndexPrefix(xs: seq<string>, n: nat, x: string)
    requires n <= |xs| && x in xs[..n]
    ensures FirstIndex(xs[..n], x) == FirstIndex(xs, x)
  {
    var i := FirstIndex(xs[..n], x);
    assert xs[i] == x;
    forall k | 0 <= k < i ensures xs[k] != x {
      assert xs[..n][k] == xs[k];
    }
  }

  /** The de-duplicated links keep the order of their first occurrences. */
  lemma {:induction false} DedupKeepsFirstOrder(xs: seq<string>)
    ensures forall i, j :: 0 <= i < j < |Dedup(xs)| ==>
              FirstIndex(xs, Dedup(xs)[i]) < FirstIndex(xs, Dedup(xs)[j])
    decreases |xs|
  {
    if xs != [] {
      var init := xs[..|xs| - 1];
      var x := xs[|xs| - 1];
      var d := Dedup(init);
      DedupKeepsFirstOrder(init);
      forall y | y in d ensures FirstIndex(xs, y) == FirstIndex(init, y) {
        FirstIndexPrefix(xs, |xs| - 1, y);
      }
      if x !in d {
        assert FirstIndex(xs, x) == |xs| - 1;
      }
    }
  }

  /** `extractXhsUrls`. */
  function ExtractXhsUrls(text: string): (urls: seq<string>)
    ensures forall i, j :: 0 <= i < j < |urls| ==> urls[i] != urls[j]
  {
    Dedup(TrimAll(MatchedTexts(text, Scan(text, 0))))
  }

  /** `matches.map(url => url.trim())`. */
  function TrimAll(xs: seq<string>): (r: seq<string>)
    ensures |r| == |xs| && forall i :: 0 <= i < |xs| ==> r[i] == Trim(xs[i])
  {
    seq(|xs|, i requires 0 <= i < |xs| => Trim(xs[i]))
  }

  /** What one span of the scan contributes. */
  lemma SpanSound(text: string, a: nat, e: nat)
    requires a <= |text| && MatchAt(text, a).Some? && MatchAt(text, a).value.end == e
    ensures a < e <= |text|
    ensures WellFormedUrl(text[a..e]) && Trim(text[a..e]) == text[a..e]
    ensures e == |text| || !InClass(text[e], MatchAt(text, a).value.item)
  {
    MatchAtSound(text, a);
    MatchIsTrimmed(text[a..e]);
  }

  /** The span of the scan that produced a returned link. */
  lemma SpanOfUrl(text: string, u: string) returns (a: nat, e: nat)
    requires u in ExtractXhsUrls(text)
    ensures a <= |text| && MatchAt(text, a).Some? && MatchAt(text, a).value.end == e
    ensures u == text[a..e]
  {
    var spans := Scan(text, 0);
    var trimmed := TrimAll(MatchedTexts(text, spans));
    assert u in trimmed;
    var i :| 0 <= i < |trimmed| && trimmed[i] == u;
    a, e := spans[i].start, spans[i].end;
    SpanSound(text, a, e);
  }

  /** `u` is what the matcher finds at `k`: the text there, up to the end of the maximal run. */
  predicate LinkAt(text: string, u: string, k: nat) {
    k + |u| <= |text| && text[k..k + |u|] == u && MatchAt(text, k).Some? &&
    MatchAt(text, k).value.end == k + |u| &&
    (k + |u| == |text| || !InClass(text[k + |u|], MatchAt(text, k).value.item))
  }

  /** A span the matcher reports is a link found at its start. */
  lemma LinkAtSpan(text: string, k: nat, e: nat)
    requires k <= |text| && MatchAt(text, k).Some? && MatchAt(text, k).value.end == e
    ensures k <= e && LinkAt(text, text[k..e], k)
  {
    var u := text[k..e];
    assert k + |u| == e;
    assert text[k..k + |u|] == u;
    SpanSound(text, k, e);
  }

  /** Every returned link is in the language of the pattern, occurs in the text where the
      matcher starts, and is not followed by a character that could have extended it. */
  lemma ExtractedUrlsWellFormed(text: string, u: string)
    requires u in ExtractXhsUrls(text)
    ensures WellFormedUrl(u)
    ensures exists k: nat :: LinkAt(text, u, k)
  {
    var k, e := SpanOfUrl(text, u);
    SpanSound(text, k, e);
    LinkAtSpan(text, k, e);
  }

  /** A run of class characters up to `e` is inside the maximal run. */
  lemma {:induction false} RunEndReaches(s: string, i: nat, e: nat, item: bool)
    requires i <= e <= |s|
    requires forall k :: i <= k < e ==> InClass(s[k], item)
    ensures e <= RunEnd(s, i, item)
    decreases |s| - i
  {
    if i < e {
      RunEndReaches(s, i + 1, e, item);
    }
  }

  lemma MatchPathComplete(s: string, q: nat, e: nat)
    requires q <= e <= |s| && PathPart(s[q..e])
    ensures MatchPath(s, q).Some? && e <= MatchPath(s, q).value.end
  {
    var h := s[q..e];
    if PrefixThenRun(h, ItemPrefix, true) {
      assert s[q..q + |ItemPrefix|] == h[..|ItemPrefix|];
      assert OccursAt(s, ItemPrefix, q);
      forall k | q + |ItemPrefix| <= k < e ensures InClass(s[k], true) {
        assert s[k] == h[k - q];
      }
      RunEndReaches(s, q + |ItemPrefix|, e, true);
    } else {
      assert PrefixThenRun(h, ShortPrefix, false);
      assert s[q..q + |ShortPrefix|] == h[..|ShortPrefix|] == ShortPrefix;
      assert s[q + 1] == s[q..q + |ShortPrefix|][1] == 'h';
      assert !OccursAt(s, ItemPrefix, q) by {
        if OccursAt(s, ItemPrefix, q) {
          CharOfOccurrence(s, ItemPrefix, q, 1);
        }
      }
      assert OccursAt(s, ShortPrefix, q);
      forall k | q + |ShortPrefix| <= k < e ensures InClass(s[k], false) {
        assert s[k] == h[k - q];
      }
      RunEndReaches(s, q + |ShortPrefix|, e, false);
    }
  }

  /** A host part starts with the 'x' of a path or the 'w' of "www.". */
  lemma HostPartStart(h: string)
    requires HostPart(h)
    ensures |h| > 0 && (h[0] == 'x' || h[0] == 'w')
  {
    if !PathPart(h) {
      assert h[..4] == "www.";
    } else {
      PathPartStart(h);
    }
  }

  lemma MatchHostComplete(s: string, q: nat, e: nat)
    requires q <= e <= |s| && HostPart(s[q..e])
    ensures MatchHost(s, q).Some? && e <= MatchHost(s, q).value.end
  {
    var h := s[q..e];
    if PathPart(h) {
      PathPartStart(h);
      assert s[q] == 'x';
      assert !OccursAt(s, "www.", q) by {
        if q + 4 <= |s| {
          assert s[q..q + 4][0] == s[q];
        }
      }
      MatchPathComplete(s, q, e);
    } else {
      assert StartsWith(h, "www.") && PathPart(h[4..]);
      assert s[q..q + 4] == h[..4];
      assert OccursAt(s, "www.", q);
      assert h[4..] == s[q + 4..e];
      MatchPathComplete(s, q + 4, e);
    }
  }

  /** Both paths start with an 'x'. */
  lemma PathPartStart(h: string)
    requires PathPart(h)
    ensures |h| > 0 && h[0] == 'x'
  {
    if PrefixThenRun(h, ItemPrefix, true) {
      assert h[0] == h[..|ItemPrefix|][0];
    } else {
      assert h[0] == h[..|ShortPrefix|][0];
    }
  }

  /** The matcher is complete: wherever a text in the pattern's language starts, it finds a
      match, and the match reaches at least as far (the quantifier is greedy). */
  lemma MatchAtComplete(s: string, p: nat, e: nat)
    requires p <= e <= |s| && WellFormedUrl(s[p..e])
    ensures MatchAt(s, p).Some? && e <= MatchAt(s, p).value.end
  {
    var u := s[p..e];
    if StartsWith(u, "https://") {
      if !HostPart(u[8..]) {
        assert u[7..][0] == '/';
        HostPartStart(u[7..]);
      }
      assert s[p..p + 8] == u[..8];
      assert OccursAt(s, "https://", p);
      assert u[8..] == s[p + 8..e];
      MatchHostComplete(s, p + 8, e);
    } else {
      assert StartsWith(u, "http://") && HostPart(u[7..]);
      assert s[p..p + 7] == u[..7];
      assert OccursAt(s, "http://", p);
      assert !OccursAt(s, "https://", p) by {
        if p + 8 <= |s| {
          assert s[p..p + 8][4] == s[p + 4] == u[4] == ':';
        }
      }
      assert u[7..] == s[p + 7..e];
      MatchHostComplete(s, p + 7, e);
    }
  }

  /** Where nothing in the text is in the pattern's language, nothing is extracted. */
  lemma NoLinkNoUrls(text: string)
    requires forall p, e :: 0 <= p <= e <= |text| ==> !WellFormedUrl(text[p..e])
    ensures ExtractXhsUrls(text) == []
  {
    forall p | 0 <= p <= |text| ensures MatchAt(text, p).None? {
      if MatchAt(text, p).Some? {
        MatchAtSound(text, p);
      }
    }
    assert Scan(text, 0) == [] by { NoMatchScan(text, 0); }
  }

  /** A text holding a link in the pattern's language gives at least one link. */
  lemma LinkGivesUrl(text: string, p: nat, e: nat)
    requires p <= e <= |text| && WellFormedUrl(text[p..e])
    ensures ExtractXhsUrls(text) != []
  {
    MatchAtComplete(text, p, e);
    ScanFinds(text, 0, p);
    var spans := Scan(text, 0);
    var trimmed := TrimAll(MatchedTexts(text, spans));
    assert trimmed[0] in trimmed;
  }

  lemma {:induction false} ScanFinds(text: string, from: nat, p: nat)
    requires from <= p <= |text| && MatchAt(text, p).Some?
    ensures Scan(text, from) != []
    decreases |text| - from
  {
    if MatchAt(text, from).None? {
      ScanFinds(text, from + 1, p);
    }
  }

  lemma {:induction false} NoMatchScan(text: string, p: nat)
    requires p <= |text|
    requires forall q :: p <= q <= |text| ==> MatchAt(text, q).None?
    ensures Scan(text, p) == []
    decreases |text| - p
  {
    if p < |text| {
      NoMatchScan(text, p + 1);
    }
  }

  // ---------------------------------------------------------------- fetchXhsNote

  const BlankUrl := "URL 不能为空"
  const MissingApiKey := "❌ 系统未配置小红书 API Key。请联系管理员在控制台配置。"
  const InvalidKey := "API Key 无效或已过期"
  const NoBalance := "API 余额不足"
  const ServiceAnomaly := "解析服务返回异常"
  const NetworkFailure := "网络请求失败"
  /** The TypeError a property read on `null` raises. */
  const NullRead := "Cannot read properties of null (reading 'code')"

  /** What the parsing service answered: a transport failure with its message, or a response
      whose body is parsed JSON or the message of the failed `response.json()`. */
  datatype Reply = NetworkError(message: string) | Response(ok: bool, status: int, body: Result<Json, string>)

  /** `new Error(err.message || "网络请求失败")` in the catch block. */
  function Rethrow(message: string): (r: string)
    ensures r != []
    ensures message != [] ==> r == message
  {
    if message == [] then NetworkFailure else message
  }

  /** The error for a non-ok status. */
  function StatusError(status: int): (r: string)
    ensures r != []
  {
    if status == 401 then InvalidKey
    else if status == 402 then NoBalance
    else "解析服务请求失败 (HTTP " + IntToString(status) + ")"
  }

  /** A `code` of 0 or 200 is success; a missing code is not. */
  predicate CodeOk(result: Json)
    ensures CodeOk(result) ==> result.JObject? && "code" in result.fields
    ensures result.JObject? && result.fields == map["code" := JNumber(200)] ==> CodeOk(result)
  {
    Get(result, "code") == Some(JNumber(0)) || Get(result, "code") == Some(JNumber(200))
  }

  /** Classification of the reply, before the catch block rewrites the message. */
  function Classify(reply: Reply): (r: Result<Json, string>)
    ensures reply.NetworkError? ==> r == Err(reply.message)
    ensures reply.Response? && !reply.ok ==> r == Err(StatusError(reply.status))
    ensures reply.Response? && reply.ok && reply.body.Err? ==> r == Err(reply.body.error)
    ensures reply.Response? && reply.ok && reply.body.Ok? && reply.body.value.JNull? ==> r == Err(NullRead)
    ensures r.Ok? <==> reply.Response? && reply.ok && reply.body.Ok? && !reply.body.value.JNull? &&
                       CodeOk(reply.body.value)
    ensures r.Ok? ==> r.value == Or(Get(reply.body.value, "data"), reply.body.value)
    ensures reply.Response? && reply.ok && reply.body.Ok? && !reply.body.value.JNull? &&
            !CodeOk(reply.body.value) ==>
              var b := reply.body.value;
              r == Err(ToJsString(Or(Get(b, "msg"), Or(Get(b, "message"), JString(ServiceAnomaly)))))
  {
    match reply
    case NetworkError(m) => Err(m)
    case Response(ok, status, body) =>
      if !ok then Err(StatusError(status))
      else match body
        case Err(m) => Err(m)
        case Ok(result) =>
          if result.JNull? then Err(NullRead)
          else if !CodeOk(result) then
            Err(ToJsString(Or(Get(result, "msg"), Or(Get(result, "message"), JString(ServiceAnomaly)))))
          else Ok(Or(Get(result, "data"), result))
  }

  /** `fetchXhsNote`; `respond` stands for the request to the configured service with the
      trimmed URL. */
  function FetchXhsNote(url: string, apiKey: string, respond: string -> Reply): (r: Result<Json, string>)
    ensures IsBlank(url) ==> r == Err(BlankUrl)
    ensures !IsBlank(url) && apiKey == [] ==> r == Err(MissingApiKey)
    ensures r.Err? ==> r.error != []
    ensures r.Ok? <==> !IsBlank(url) && apiKey != [] && Classify(respond(Trim(url))).Ok?
    ensures r.Ok? ==> r == Classify(respond(Trim(url)))
    ensures !IsBlank(url) && apiKey != [] && Classify(respond(Trim(url))).Err? ==>
              r == Err(Rethrow(Classify(respond(Trim(url))).error))
  {
    var cleanUrl := Trim(url);
    if cleanUrl == [] then Err(BlankUrl)
    else if apiKey == [] then Err(MissingApiKey)
    else match Classify(respond(cleanUrl))
      case Ok(data) => Ok(data)
      case Err(m) => Err(Rethrow(m))
  }

  /** A well-formed answer with a success code gives its `data`, or the whole answer when `data`
      is missing or falsy. */
  lemma FetchReturnsData(url: string, apiKey: string, respond: string -> Reply, status: int, answer: Json)
    requires !IsBlank(url) && apiKey != []
    requires respond(Trim(url)) == Response(true, status, Ok(answer))
    requires !answer.JNull? && CodeOk(answer)
    ensures FetchXhsNote(url, apiKey, respond) == Ok(Or(Get(answer, "data"), answer))
    ensures TruthyOpt(Get(answer, "data")) ==> FetchXhsNote(url, apiKey, respond) == Ok(Get(answer, "data").value)
  {
  }

  /** A blank URL or a missing key is rejected before any request: the reply does not matter. */
  lemma RejectedBeforeRequest(url: string, apiKey: string, r1: string -> Reply, r2: string -> Reply)
    requires IsBlank(url) || apiKey == []
    ensures FetchXhsNote(url, apiKey, r1) == FetchXhsNote(url, apiKey, r2)
    ensures FetchXhsNote(url, apiKey, r1).Err?
  {
  }

  /** The three HTTP failure kinds give three different messages. */
  lemma StatusErrorsDistinct(status: int)
    requires status != 401 && status != 402
    ensures StatusError(401) != StatusError(402)
    ensures StatusError(status) != StatusError(401) && StatusError(status) != StatusError(402)
  {
    var e := StatusError(status);
    assert e[0] == '解';
  }
}
