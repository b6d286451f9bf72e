/** Publishing a note through the configured publishing service: the request URL (a proxy
    followed by the percent-encoded target), the truncated title, the request body, and the
    classification of the answer. The HTTP exchange is an input. */
module PublishService {
  import opened Wrappers
  import opened Strings
  import opened JsValue
  import opened Types
  import Seqs

  const DefaultTarget := "https://www.myaibot.vip/api/rednote/publish"
  const DefaultProxy := "https://corsproxy.io/?"
  const MissingKey := "发布服务 API 未配置"
  const ValidationFailed := "参数验证失败"
  const UnknownFormat := "接口返回了未知的格式"
  const RequestFailed := "发布请求失败"
  /** The TypeError a property read on a `null` body raises. */
  const NullRead := "Cannot read properties of null (reading 'success')"
  const MaxTitle := 20

  // ---------------------------------------------------------------- encodeURIComponent

  /** The characters `encodeURIComponent` leaves as they are: letters, digits and `-_.!~*'()`. */
  predicate Unreserved(c: char) {
    ('A' <= c <= 'Z') || ('a' <= c <= 'z') || ('0' <= c <= '9') ||
    c == '-' || c == '_' || c == '.' || c == '!' || c == '~' || c == '*' || c == '\'' || c == '(' || c == ')'
  }

  /** An upper-case hexadecimal digit. */
  function HexDigit(d: nat): (c: char)
    requires d < 16
    ensures IsHex(c) && HexValue(c) == d
  {
    if d < 10 then ('0' as int + d) as char else ('A' as int + d - 10) as char
  }

  predicate IsHex(c: char) {
    ('0' <= c <= '9') || ('A' <= c <= 'F')
  }

  function HexValue(c: char): (d: nat)
    requires IsHex(c)
    ensures d < 16
  {
    if c <= '9' then c as int - '0' as int else c as int - 'A' as int + 10
  }

  /** The UTF-8 encoding of one character. */
  function Utf8(c: char): (bs: seq<nat>)
    ensures 1 <= |bs| <= 4
    ensures forall i :: 0 <= i < |bs| ==> bs[i] < 256
    ensures c as int < 0x80 <==> |bs| == 1
    ensures c as int < 0x80 ==> bs == [c as int]
  {
    var n := c as int;
    if n < 0x80 then [n]
    else if n < 0x800 then [0xC0 + n / 64, 0x80 + n % 64]
    else if n < 0x1_0000 then [0xE0 + n / 4096, 0x80 + (n / 64) % 64, 0x80 + n % 64]
    else [0xF0 + n / 0x4_0000, 0x80 + (n / 4096) % 64, 0x80 + (n / 64) % 64, 0x80 + n % 64]
  }

  /** `%XY` for each byte, upper-case hexadecimal. */
  function PercentBytes(bs: seq<nat>): (r: string)
    requires forall i :: 0 <= i < |bs| ==> bs[i] < 256
    ensures |r| == 3 * |bs|
  {
    if bs == [] then []
    else ['%', HexDigit(bs[0] / 16), HexDigit(bs[0] % 16)] + PercentBytes(bs[1..])
  }

  function EncodeChar(c: char): string {
    if Unreserved(c) then [c] else PercentBytes(Utf8(c))
  }

  /** `encodeURIComponent`, as section 2.1 of RFC 3986 describes percent-encoding, applied to
      the UTF-8 bytes of every character outside the unreserved set. */
  function EncodeUriComponent(s: string): (r: string)
    ensures |s| <= |r| <= 12 * |s|
  {
    if s == [] then [] else EncodeChar(s[0]) + EncodeUriComponent(s[1..])
  }

  /** The bytes a percent-encoded text stands for, or None when it is not well formed:
      `%XY` is one byte, any other ASCII character is its own byte. */
  function PercentDecode(t: string): (r: Option<seq<nat>>)
    ensures r.Some? ==> |r.value| <= |t| && forall i :: 0 <= i < |r.value| ==> r.value[i] < 0x100
    ensures r.Some? ==> forall i :: 0 <= i < |t| ==> t[i] as int < 0x80
    decreases |t|
  {
    if t == [] then Some([])
    else if t[0] == '%' then
      if |t| >= 3 && IsHex(t[1]) && IsHex(t[2]) then
        match PercentDecode(t[3..])
        case Some(rest) => Some([HexValue(t[1]) * 16 + HexValue(t[2])] + rest)
        case None => None
      else None
    else if t[0] as int < 0x80 then
      match PercentDecode(t[1..])
      case Some(rest) => Some([t[0] as int] + rest)
      case None => None
    else None
  }

  /** The UTF-8 bytes of a text. */
  function Utf8String(s: string): seq<nat> {
    if s == [] then [] else Utf8(s[0]) + Utf8String(s[1..])
  }

  /** One escape `%XY` decodes to its byte, ahead of whatever follows it. */
  lemma DecodeEscape(b: nat, after: string)
    requires b < 256 && PercentDecode(after).Some?
    ensures PercentDecode(['%', HexDigit(b / 16), HexDigit(b % 16)] + after) == Some([b] + PercentDecode(after).value)
  {
    var t := ['%', HexDigit(b / 16), HexDigit(b % 16)] + after;
    assert t[3..] == after;
  }

  lemma {:induction false} DecodePercentBytes(bs: seq<nat>, rest: string)
    requires forall i :: 0 <= i < |bs| ==> bs[i] < 256
    requires PercentDecode(rest).Some?
    ensures PercentDecode(PercentBytes(bs) + rest) == Some(bs + PercentDecode(rest).value)
    decreases |bs|
  {
    if bs != [] {
      var escape := ['%', HexDigit(bs[0] / 16), HexDigit(bs[0] % 16)];
      var after := PercentBytes(bs[1..]) + rest;
      var tail := PercentDecode(rest).value;
      assert PercentBytes(bs) + rest == escape + after by {
        Seqs.AppendAssoc(escape, PercentBytes(bs[1..]), rest);
      }
      assert PercentDecode(after) == Some(bs[1..] + tail) by {
        DecodePercentBytes(bs[1..], rest);
      }
      DecodeEscape(bs[0], after);
      assert [bs[0]] + (bs[1..] + tail) == bs + tail by {
        Seqs.AppendAssoc([bs[0]], bs[1..], tail);
        assert [bs[0]] + bs[1..] == bs;
      }
    } else {
      assert PercentBytes(bs) + rest == rest;
      assert bs + PercentDecode(rest).value == PercentDecode(rest).value;
    }
  }

  /** Round trip: decoding the encoded text gives the UTF-8 bytes of the original text. */
  lemma {:induction false} EncodeDecodes(s: string)
    ensures PercentDecode(EncodeUriComponent(s)) == Some(Utf8String(s))
    decreases |s|
  {
    if s != [] {
      EncodeDecodes(s[1..]);
      var rest := EncodeUriComponent(s[1..]);
      if Unreserved(s[0]) {
        var t := [s[0]] + rest;
        assert t[1..] == rest;
      } else {
        DecodePercentBytes(Utf8(s[0]), rest);
      }
    }
  }

  /** Only unreserved characters, '%' and upper-case hexadecimal digits are produced. */
  lemma {:induction false} EncodedIsSafe(s: string)
    ensures forall i :: 0 <= i < |EncodeUriComponent(s)| ==>
              var c := EncodeUriComponent(s)[i]; Unreserved(c) || c == '%'
    decreases |s|
  {
    if s != [] {
      EncodedIsSafe(s[1..]);
      if !Unreserved(s[0]) {
        PercentBytesSafe(Utf8(s[0]));
      }
    }
  }

  lemma {:induction false} PercentBytesSafe(bs: seq<nat>)
    requires forall i :: 0 <= i < |bs| ==> bs[i] < 256
    ensures forall i :: 0 <= i < |PercentBytes(bs)| ==> Unreserved(PercentBytes(bs)[i]) || PercentBytes(bs)[i] == '%'
    decreases |bs|
  {
    if bs != [] {
      PercentBytesSafe(bs[1..]);
    }
  }

  /** A text of unreserved characters is sent as it is. */
  lemma {:induction false} UnreservedUnchanged(s: string)
    requires forall i :: 0 <= i < |s| ==> Unreserved(s[i])
    ensures EncodeUriComponent(s) == s
    decreases |s|
  {
    if s != [] {
      UnreservedUnchanged(s[1..]);
    }
  }

  // ---------------------------------------------------------------- the request

  /** `title.length > 20 ? title.substring(0, 20) : title`: both the length and the cut count
      UTF-16 code units, so the result is a sequence of code units, which may end in the high
      half of a surrogate pair. */
  function SafeTitle(title: string): (r: seq<CodeUnit>)
    ensures r <= Utf16(title) && |r| <= MaxTitle
    ensures |Utf16(title)| <= MaxTitle ==> r == Utf16(title)
    ensures |Utf16(title)| > MaxTitle ==> |r| == MaxTitle
  {
    var units := Utf16(title);
    if |units| > MaxTitle then units[..MaxTitle] else units
  }

  /** For a title of the Basic Multilingual Plane the cut keeps the first 20 characters. */
  lemma {:induction false} SafeTitleOfBmp(title: string)
    requires forall i :: 0 <= i < |title| ==> title[i] as int < 0x1_0000
    ensures SafeTitle(title) == Utf16(if |title| > MaxTitle then title[..MaxTitle] else title)
  {
    Utf16OfBmp(title);
    if |title| > MaxTitle {
      var t := title[..MaxTitle];
      Utf16OfBmp(t);
      assert Utf16(t) == Utf16(title)[..MaxTitle];
    }
  }

  /** Nineteen characters of the Basic Multilingual Plane and an emoji are 21 code units; the cut
      keeps the emoji's high surrogate alone, so the title sent reads back as no string. */
  lemma {:induction false} SafeTitleCanSplitPair(prefix: string, c: char)
    requires |prefix| == MaxTitle - 1 && c as int >= 0x1_0000
    requires forall i :: 0 <= i < |prefix| ==> prefix[i] as int < 0x1_0000
    ensures |prefix + [c]| == MaxTitle && |Utf16(prefix + [c])| == MaxTitle + 1
    ensures SafeTitle(prefix + [c]) == Utf16(prefix) + [CharUnits(c)[0]]
    ensures FromUtf16(SafeTitle(prefix + [c])) == None
  {
    Utf16Append(prefix, [c]);
    Utf16OfBmp(prefix);
    assert Utf16([c]) == CharUnits(c);
    assert Utf16(prefix + [c])[..MaxTitle] == Utf16(prefix) + [CharUnits(c)[0]];
    LoneHighSurrogate(Utf16(prefix) + [CharUnits(c)[0]]);
  }

  /** The request body, before `JSON.stringify`. */
  datatype PublishBody = PublishBody(apiKey: string, kind: string, title: seq<CodeUnit>, content: string,
                                     images: seq<string>)

  datatype Request = Request(url: string, body: PublishBody)

  /** The request `publishToXHS` sends, or the error raised before any request. */
  function BuildRequest(cfg: PublishSection, title: string, content: string, imageUrls: seq<string>): (r: Result<Request, string>)
    ensures r.Err? <==> cfg.apiKey == []
    ensures r.Err? ==> r.error == MissingKey
    ensures r.Ok? ==> r.value.url == ProxyOf(cfg) + EncodeUriComponent(TargetOf(cfg))
    ensures r.Ok? ==> StartsWith(r.value.url, ProxyOf(cfg))
    ensures r.Ok? ==> r.value.body == PublishBody(cfg.apiKey, "normal", SafeTitle(title), content, imageUrls)
  {
    if cfg.apiKey == [] then Err(MissingKey)
    else
      var url := ProxyOf(cfg) + EncodeUriComponent(TargetOf(cfg));
      assert url[..|ProxyOf(cfg)|] == ProxyOf(cfg);
      Ok(Request(url, PublishBody(cfg.apiKey, "normal", SafeTitle(title), content, imageUrls)))
  }

  /** `targetUrl || default`. */
  function TargetOf(cfg: PublishSection): (t: string)
    ensures t != []
    ensures cfg.targetUrl != [] ==> t == cfg.targetUrl
  {
    if cfg.targetUrl != [] then cfg.targetUrl else DefaultTarget
  }

  /** `proxyUrl || default`. */
  function ProxyOf(cfg: PublishSection): (p: string)
    ensures p != []
    ensures cfg.proxyUrl != [] ==> p == cfg.proxyUrl
  {
    if cfg.proxyUrl != [] then cfg.proxyUrl else DefaultProxy
  }

  // ---------------------------------------------------------------- the answer

  /** What the publishing service answered: a transport failure with its message, or a response
      whose body is parsed JSON or the message of the failed `response.json()`. */
  datatype Reply = NetworkError(message: string) | Response(ok: bool, status: int, body: Result<Json, string>)

  /** The result read from a parsed body; `Ok(None)` is a `qrcode` that is missing. */
  function ClassifyBody(result: Json): (r: Result<Option<Json>, string>)
    ensures r.Ok? <==> Get(result, "success") == Some(JBool(true)) && TruthyOpt(Get(result, "data"))
    ensures r.Ok? ==> r.value == Get(Get(result, "data").value, "qrcode")
    ensures r.Err? && !result.JNull? && TruthyOpt(Get(result, "error")) ==>
              r.error == ToJsString(Or(Get(Get(result, "error").value, "message"), JString(ValidationFailed)))
    ensures r.Err? && !result.JNull? && !TruthyOpt(Get(result, "error")) ==> r.error == UnknownFormat
    ensures result.JNull? ==> r == Err(NullRead)
  {
    if result.JNull? then Err(NullRead)
    else if Get(result, "success") == Some(JBool(true)) && TruthyOpt(Get(result, "data")) then
      Ok(Get(Get(result, "data").value, "qrcode"))
    else if TruthyOpt(Get(result, "error")) then
      Err(ToJsString(Or(Get(Get(result, "error").value, "message"), JString(ValidationFailed))))
    else Err(UnknownFormat)
  }

  function StatusError(status: int): (r: string)
    ensures r != []
  {
    "发布服务响应异常 (" + IntToString(status) + ")"
  }

  /** `error.message || '发布请求失败'` in the catch block. */
  function Rethrow(message: string): (r: string)
    ensures r != []
    ensures message != [] ==> r == message
  {
    if message == [] then RequestFailed else message
  }

  /** `publishToXHS`; `respond` stands for the POST of the request. */
  function Publish(cfg: PublishSection, title: string, content: string, imageUrls: seq<string>,
                   respond: Request -> Reply): (r: Result<Option<Json>, string>)
    ensures cfg.apiKey == [] ==> r == Err(MissingKey)
    ensures r.Err? ==> r.error != []
    ensures cfg.apiKey != [] && r.Ok? ==>
              var reply := respond(BuildRequest(cfg, title, content, imageUrls).value);
              reply.Response? && reply.ok && reply.body.Ok? && Get(reply.body.value, "success") == Some(JBool(true))
    ensures cfg.apiKey != [] ==>
              var reply := respond(BuildRequest(cfg, title, content, imageUrls).value);
              reply.Response? && !reply.ok ==> r == Err(StatusError(reply.status))
    ensures cfg.apiKey != [] ==>
              var reply := respond(BuildRequest(cfg, title, content, imageUrls).value);
              reply.NetworkError? ==> r == Err(Rethrow(reply.message))
    ensures cfg.apiKey != [] ==>
              var reply := respond(BuildRequest(cfg, title, content, imageUrls).value);
              reply.Response? && reply.ok && reply.body.Err? ==> r == Err(Rethrow(reply.body.error))
    ensures cfg.apiKey != [] ==>
              var reply := respond(BuildRequest(cfg, title, content, imageUrls).value);
              reply.Response? && reply.ok && reply.body.Ok? ==>
                var c := ClassifyBody(reply.body.value);
                (r.Ok? <==> c.Ok?) && (c.Ok? ==> r.value == c.value) && (c.Err? ==> r.error == Rethrow(c.error))
  {
    match BuildRequest(cfg, title, content, imageUrls)
    case Err(e) => Err(e)
    case Ok(request) =>
      var outcome :=
        match respond(request)
        case NetworkError(m) => Err(m)
        case Response(ok, status, body) =>
          if !ok then Err(StatusError(status))
          else match body
            case Err(m) => Err(m)
            case Ok(result) => ClassifyBody(result);
      match outcome
      case Ok(q) => Ok(q)
      case Err(m) => Err(Rethrow(m))
  }

  /** A successful answer with data gives its `qrcode`, whatever the title and content. */
  lemma PublishReturnsQrcode(cfg: PublishSection, title: string, content: string, imageUrls: seq<string>,
                             respond: Request -> Reply, status: int, answer: Json)
    requires cfg.apiKey != []
    requires respond(BuildRequest(cfg, title, content, imageUrls).value) == Response(true, status, Ok(answer))
    requires Get(answer, "success") == Some(JBool(true)) && TruthyOpt(Get(answer, "data"))
    ensures Publish(cfg, title, content, imageUrls, respond) == Ok(Get(Get(answer, "data").value, "qrcode"))
  {
  }
}
