/** The text protocol of the writing assistant: the model streams a dialogue, optionally a
    thought wrapped in `[[THOUGHT]]` … `[[/THOUGHT]]`, and finally a JSON payload after
    `###MATRIX_DATA_START###`. This module models the markdown clean-up, the JSON recovery
    ladder, the incremental segmentation of the stream and the final segmentation of the whole
    text. Transport (SSE lines, `data:` prefixes, decoding) is not part of the model: the stream
    is the sequence of content strings it yields, and an empty one changes nothing. */
module GeminiService {
  import opened Wrappers
  import opened Strings
  import opened JsValue
  import Seqs

  const DataMarker := "###MATRIX_DATA_START###"
  const ThoughtStart := "[[THOUGHT]]"
  const ThoughtEnd := "[[/THOUGHT]]"

  /** The message of the TypeError thrown when `.replace` is called on a value that is not a
      string. */
  const NotAFunction := "text.replace is not a function"

  // ---------------------------------------------------------------- cleanMarkdown

  /** The end of the run of '#' that starts at `i`. */
  function SkipHashes(s: string, i: nat): (j: nat)
    requires i <= |s|
    ensures i <= j <= |s|
    ensures forall k :: i <= k < j ==> s[k] == '#'
    ensures j == |s| || s[j] != '#'
    decreases |s| - i
  {
    if i < |s| && s[i] == '#' then SkipHashes(s, i + 1) else i
  }

  /** `^` in a multi-line regular expression matches at `i`. */
  predicate AtLineStart(s: string, i: nat)
    requires i <= |s|
  {
    i == 0 || IsLineTerminator(s[i - 1])
  }

  // The global multi-line heading pattern of cleanMarkdown, applied to `s[i..]`: at every line
  // start where a run of '#' begins, the run and the white space after it are dropped.
  function StripHeadings(s: string, i: nat): (r: string)
    requires i <= |s|
    ensures |r| <= |s| - i
    ensures forall c :: c in r ==> c in s[i..]
    decreases |s| - i
  {
    if i == |s| then []
    else if s[i] == '#' && AtLineStart(s, i) then StripHeadings(s, SkipSpaces(s, SkipHashes(s, i)))
    else [s[i]] + StripHeadings(s, i + 1)
  }

  /** Text without '*' or '`' that `trim()` leaves alone: what cleanMarkdown produces. */
  predicate MarkdownFree(s: string) {
    '*' !in s && '`' !in s && IsTrimmed(s)
  }

  /** `cleanMarkdown`: bold and italic stars, back-ticks and heading marks removed, then trimmed. */
  function CleanMarkdown(text: string): (r: string)
    ensures MarkdownFree(r)
    ensures text == [] ==> r == []
    ensures forall c :: c in r ==> c in text
  {
    if text == [] then []
    else
      var noBold := RemoveAll(text, "**", false);
      var noStars := RemoveAll(noBold, "*", false);
      var noTicks := RemoveAll(noStars, "`", false);
      RemoveAllChar(noBold, '*');
      RemoveAllChar(noStars, '`');
      assert noTicks[0..] == noTicks;
      Trim(StripHeadings(noTicks, 0))
  }

  // ---------------------------------------------------------------- extractAndParseJSON

  /** The outcome of `extractAndParseJSON`: a recovered value, `null`, or a thrown TypeError. */
  datatype Extracted = Recovered(value: Json) | NotRecovered | Threw(message: string)

  /** `JSON.parse` succeeded and produced a truthy value. */
  predicate ParsedTruthy(p: Option<Json>) {
    p.Some? && Truthy(p.value)
  }

  /** The second rung: every "```json" (any letter case) and every "```" removed, then trimmed. */
  function WithoutFences(text: string): string {
    Trim(RemoveAll(RemoveAll(text, "```json", true), "```", false))
  }

  /** `text.match(/\{[\s\S]*\}/)`: from the first '{' to the last '}', when there is a '}' after
      the first '{'. */
  function BraceSpan(text: string): (r: Option<string>)
    ensures r.Some? ==> |r.value| >= 2 && r.value[0] == '{' && r.value[|r.value| - 1] == '}'
  {
    var i := IndexOf(text, "{");
    var j := LastIndexOfChar(text, '}');
    if 0 <= i < j then
      assert text[i..i + 1] == "{";
      Some(text[i..j + 1])
    else None
  }

  /** The regular expression finds a match exactly when some '{' is followed, later, by a '}'. */
  lemma BraceSpanFound(text: string)
    ensures BraceSpan(text).Some? <==>
            exists a, b :: 0 <= a < b < |text| && text[a] == '{' && text[b] == '}'
  {
    var i := IndexOf(text, "{");
    var j := LastIndexOfChar(text, '}');
    if 0 <= i < j {
      assert text[i..i + 1] == "{";
      assert text[i] == '{' && text[j] == '}';
    } else if exists a, b :: 0 <= a < b < |text| && text[a] == '{' && text[b] == '}' {
      var a, b :| 0 <= a < b < |text| && text[a] == '{' && text[b] == '}';
      NoCharAfterLast(text, '}');
      assert text[a..a + 1] == "{";
      assert OccursAt(text, "{", a);
      assert false;
    }
  }

  /** The texts handed to `JSON.parse`, in the order they are tried. */
  function Candidates(text: string): (cs: seq<string>)
    ensures 2 <= |cs| <= 3 && cs[0] == text && cs[1] == WithoutFences(text)
  {
    [text, WithoutFences(text)] + (match BraceSpan(text) case Some(span) => [span] case None => [])
  }

  /** The recovery ladder of `extractAndParseJSON`, before the field clean-up: a parse that
      throws or yields a falsy value counts as a failure and the next rung is tried. */
  function Recover(text: string, parse: string -> Option<Json>): (r: Option<Json>)
    ensures r.Some? ==> Truthy(r.value)
  {
    var direct := parse(text);
    if ParsedTruthy(direct) then direct
    else
      var unfenced := parse(WithoutFences(text));
      if ParsedTruthy(unfenced) then unfenced
      else
        match BraceSpan(text)
        case Some(span) => if ParsedTruthy(parse(span)) then parse(span) else None
        case None => None
  }

  /** The ladder yields the first candidate whose parse is truthy, and nothing when none is. */
  lemma RecoverIsFirstSuccess(text: string, parse: string -> Option<Json>)
    ensures var cs := Candidates(text);
            Recover(text, parse).None? <==> forall k :: 0 <= k < |cs| ==> !ParsedTruthy(parse(cs[k]))
    ensures var cs := Candidates(text);
            Recover(text, parse).Some? ==>
              exists k :: 0 <= k < |cs| && Recover(text, parse) == parse(cs[k]) &&
                          forall m :: 0 <= m < k ==> !ParsedTruthy(parse(cs[m]))
  {
    var cs := Candidates(text);
    if ParsedTruthy(parse(text)) {
      assert Recover(text, parse) == parse(cs[0]);
    } else if ParsedTruthy(parse(WithoutFences(text))) {
      assert Recover(text, parse) == parse(cs[1]);
    } else if BraceSpan(text).Some? && ParsedTruthy(parse(BraceSpan(text).value)) {
      assert Recover(text, parse) == parse(cs[2]);
    }
  }

  /** A truthy field that is not a string makes `cleanMarkdown` throw. */
  predicate BadField(j: Json, key: string) {
    j.JObject? && key in j.fields && Truthy(j.fields[key]) && !j.fields[key].JString?
  }

  /** The fields with the string under `key` replaced by its cleaned form. */
  function WithCleanedField(fields: map<string, Json>, key: string): (m: map<string, Json>)
    requires key in fields && fields[key].JString?
    ensures m.Keys == fields.Keys
    ensures forall k :: k in fields && k != key ==> m[k] == fields[k]
    ensures m[key].JString? && MarkdownFree(m[key].s)
  {
    var cleaned := CleanMarkdown(fields[key].s);
    fields[key := JString(cleaned)]
  }

  /** `if (json.key) json.key = cleanMarkdown(json.key)` on one field. */
  function CleanField(j: Json, key: string): (r: Result<Json, string>)
    ensures r.Err? <==> BadField(j, key)
    ensures r.Err? ==> r.error == NotAFunction
    ensures r.Ok? ==> (r.value.JObject? <==> j.JObject?)
    ensures r.Ok? && !j.JObject? ==> r.value == j
    ensures r.Ok? && j.JObject? ==>
              r.value.fields.Keys == j.fields.Keys &&
              (forall k :: k in j.fields && k != key ==> r.value.fields[k] == j.fields[k]) &&
              (key in j.fields && j.fields[key].JString? ==>
                 r.value.fields[key].JString? && MarkdownFree(r.value.fields[key].s))
  {
    if BadField(j, key) then Err(NotAFunction)
    else if j.JObject? && key in j.fields && j.fields[key].JString? && j.fields[key].s != [] then
      Ok(JObject(WithCleanedField(j.fields, key)))
    else Ok(j)
  }

  /** The clean-up of `tone`, `structure` and `emojiDensity`, in that order. */
  function CleanFields(j: Json): (r: Extracted)
    ensures r.Threw? <==> BadField(j, "tone") || BadField(j, "structure") || BadField(j, "emojiDensity")
    ensures r.Threw? ==> r.message == NotAFunction
    ensures r.Recovered? ==> (r.value.JObject? <==> j.JObject?) && (!j.JObject? ==> r.value == j)
    ensures r.Recovered? && j.JObject? ==>
              r.value.fields.Keys == j.fields.Keys &&
              (forall k :: k in j.fields && k != "tone" && k != "structure" && k != "emojiDensity" ==>
                 r.value.fields[k] == j.fields[k]) &&
              (forall k ::
                 (k in j.fields && j.fields[k].JString? && (k == "tone" || k == "structure" || k == "emojiDensity"))
                 ==> r.value.fields[k].JString? && MarkdownFree(r.value.fields[k].s))
  {
    match CleanField(j, "tone")
    case Err(e) => Threw(e)
    case Ok(j1) =>
      match CleanField(j1, "structure")
      case Err(e) => Threw(e)
      case Ok(j2) =>
        match CleanField(j2, "emojiDensity")
        case Err(e) => Threw(e)
        case Ok(j3) => Recovered(j3)
  }

  /** `extractAndParseJSON`; `parse` stands for `JSON.parse`, None meaning that it threw. */
  function ExtractAndParseJson(text: string, parse: string -> Option<Json>): (r: Extracted)
    ensures r.NotRecovered? <==> text == [] || Recover(text, parse).None?
    ensures r.Threw? ==> r.message == NotAFunction
    ensures r.Recovered? ==> Truthy(r.value)
    ensures r.Recovered? ==> r == CleanFields(Recover(text, parse).value)
  {
    if text == [] then NotRecovered
    else
      match Recover(text, parse)
      case None => NotRecovered
      case Some(j) =>
        var r := CleanFields(j);
        assert r.Recovered? ==> Truthy(r.value) by {
          if r.Recovered? && j.JObject? { assert r.value.JObject?; }
        }
        r
  }

  // ---------------------------------------------------------------- final segmentation

  /** What the generator returns: the visible dialogue, the thought and the parsed notes. */
  datatype FinalResult = FinalResult(dialogueText: string, thought: string, notes: Json)

  /** The thought cut out of the full text, as (thought, the text that remains). */
  function CutThought(full: string): (r: (string, string))
    ensures IsTrimmed(r.0)
  {
    var tStart := IndexOf(full, ThoughtStart);
    var tEnd := IndexOf(full, ThoughtEnd);
    if tStart != -1 && tEnd != -1 then CutAt(full, tStart, tEnd) else ("", full)
  }

  /** The cut for an opening marker at `tStart` and a closing marker at `tEnd`. */
  function CutAt(full: string, tStart: int, tEnd: int): (r: (string, string))
    ensures IsTrimmed(r.0) && |r.0| <= |full|
    ensures |r.1| <= 2 * |full|
  {
    (Trim(Substring(full, tStart + |ThoughtStart|, tEnd)),
     Substring(full, 0, tStart) + Substring(full, tEnd + |ThoughtEnd|, |full|))
  }

  /** `parsed?.notes || []`. */
  function NotesOf(e: Extracted): (r: Json)
    ensures r == JArray([]) || (e.Recovered? && Get(e.value, "notes") == Some(r) && Truthy(r))
  {
    if e.Recovered? then Or(Get(e.value, "notes"), JArray([])) else JArray([])
  }

  /** The final pass over the whole streamed text. */
  function Segment(full: string, parse: string -> Option<Json>): (r: FinalResult)
    ensures IsTrimmed(r.dialogueText) && IsTrimmed(r.thought)
    ensures !Contains(r.dialogueText, DataMarker)
    ensures !Contains(CutThought(full).1, DataMarker) ==> r.notes == JArray([])
  {
    var cut := CutThought(full);
    Assemble(cut.0, cut.1, parse)
  }

  /** The result assembled from the thought and the text left once it is cut out. */
  function Assemble(thought: string, rest: string, parse: string -> Option<Json>): (r: FinalResult)
    ensures r.thought == thought
    ensures IsTrimmed(r.dialogueText)
    ensures !Contains(r.dialogueText, DataMarker)
    ensures !Contains(rest, DataMarker) ==> r.notes == JArray([])
  {
    var parts := Split(rest, DataMarker);
    var jsonPart := if |parts| > 1 then Trim(parts[1]) else "";
    var notes := if jsonPart != "" then NotesOf(ExtractAndParseJson(jsonPart, parse)) else JArray([]);
    DialogueHasNoMarker(rest);
    SplitFirst(rest, DataMarker);
    FinalResult(Trim(parts[0]), thought, notes)
  }

  /** The text before the first data marker, trimmed, holds no data marker. */
  lemma DialogueHasNoMarker(rest: string)
    ensures !Contains(Trim(Split(rest, DataMarker)[0]), DataMarker)
  {
    SplitFirst(rest, DataMarker);
    var head := Split(rest, DataMarker)[0];
    if Contains(Trim(head), DataMarker) {
      TrimContains(head, DataMarker);
      if Contains(rest, DataMarker) {
        var i := IndexOf(rest, DataMarker);
        assert head == rest[0..i];
        SliceContains(rest, 0, i, DataMarker);
      }
    }
  }

  /** The two thought markers can never overlap. */
  lemma ThoughtMarkersDisjoint(s: string, a: int, b: int)
    requires OccursAt(s, ThoughtStart, a) && OccursAt(s, ThoughtEnd, b)
    ensures b >= a + |ThoughtStart| || b + |ThoughtEnd| <= a
  {
    if a <= b < a + |ThoughtStart| {
      if b == a {
        CharOfOccurrence(s, ThoughtStart, a, 2);
        CharOfOccurrence(s, ThoughtEnd, b, 2);
        assert false;
      } else if b == a + 1 {
        CharOfOccurrence(s, ThoughtStart, a, 2);
        CharOfOccurrence(s, ThoughtEnd, b, 1);
        assert false;
      } else {
        CharOfOccurrence(s, ThoughtStart, a, b - a);
        CharOfOccurrence(s, ThoughtEnd, b, 0);
        assert false;
      }
    } else if b < a < b + |ThoughtEnd| {
      if a == b + 1 {
        CharOfOccurrence(s, ThoughtEnd, b, 2);
        CharOfOccurrence(s, ThoughtStart, a, 1);
        assert false;
      } else {
        CharOfOccurrence(s, ThoughtEnd, b, a - b);
        CharOfOccurrence(s, ThoughtStart, a, 0);
        assert false;
      }
    }
  }

  /** Opening marker first: the thought is the trimmed text strictly between the first opening
      and the first closing marker, and both markers and the thought are removed from the
      rest. */
  lemma ThoughtInOrder(full: string)
    requires 0 <= IndexOf(full, ThoughtStart) < IndexOf(full, ThoughtEnd)
    ensures IndexOf(full, ThoughtStart) + |ThoughtStart| <= IndexOf(full, ThoughtEnd)
    ensures var a, b := IndexOf(full, ThoughtStart), IndexOf(full, ThoughtEnd);
            CutThought(full).0 == Trim(full[a + |ThoughtStart|..b])
    ensures var a, b := IndexOf(full, ThoughtStart), IndexOf(full, ThoughtEnd);
            CutThought(full).1 == full[..a] + full[b + |ThoughtEnd|..]
  {
    var a, b := IndexOf(full, ThoughtStart), IndexOf(full, ThoughtEnd);
    ThoughtMarkersDisjoint(full, a, b);
    assert CutThought(full) == CutAt(full, a, b);
    InOrderCut(full, a, b);
  }

  lemma InOrderCut(full: string, a: int, b: int)
    requires 0 <= a && a + |ThoughtStart| <= b && b + |ThoughtEnd| <= |full|
    ensures CutAt(full, a, b).0 == Trim(full[a + |ThoughtStart|..b])
    ensures CutAt(full, a, b).1 == full[..a] + full[b + |ThoughtEnd|..]
  {
    assert CutAt(full, a, b).0 == Trim(full[a + |ThoughtStart|..b]) by {
      SubstringInRange(full, a + |ThoughtStart|, b);
    }
    assert CutAt(full, a, b).1 == full[..a] + full[b + |ThoughtEnd|..] by {
      SubstringInRange(full, 0, a);
      SubstringInRange(full, b + |ThoughtEnd|, |full|);
    }
  }

  /** In that case the thought holds no closing marker. */
  lemma ThoughtHasNoClosingMarker(full: string)
    requires 0 <= IndexOf(full, ThoughtStart) < IndexOf(full, ThoughtEnd)
    ensures !Contains(CutThought(full).0, ThoughtEnd)
  {
    ThoughtInOrder(full);
    var a, b := IndexOf(full, ThoughtStart), IndexOf(full, ThoughtEnd);
    var inner := full[a + |ThoughtStart|..b];
    if Contains(Trim(inner), ThoughtEnd) {
      TrimContains(inner, ThoughtEnd);
      SliceContains(full, a + |ThoughtStart|, b, ThoughtEnd);
    }
  }

  /** Closing marker first (the case the source does not expect): `substring` swaps its bounds,
      so the "thought" is the text from the closing marker through the opening one, both
      markers included, and the text between them appears twice in the rest. */
  lemma ThoughtReversed(full: string)
    requires 0 <= IndexOf(full, ThoughtEnd) < IndexOf(full, ThoughtStart)
    ensures IndexOf(full, ThoughtEnd) + |ThoughtEnd| <= IndexOf(full, ThoughtStart)
    ensures var a, b := IndexOf(full, ThoughtStart), IndexOf(full, ThoughtEnd);
            CutThought(full).0 == full[b..a + |ThoughtStart|]
    ensures var a, b := IndexOf(full, ThoughtStart), IndexOf(full, ThoughtEnd);
            var mid := full[b + |ThoughtEnd|..a];
            CutThought(full).1 == full[..b + |ThoughtEnd|] + mid + mid + full[a..]
  {
    var a, b := IndexOf(full, ThoughtStart), IndexOf(full, ThoughtEnd);
    ThoughtMarkersDisjoint(full, a, b);
    ReversedCut(full, a, b);
  }

  lemma ReversedCut(full: string, a: int, b: int)
    requires OccursAt(full, ThoughtStart, a) && OccursAt(full, ThoughtEnd, b)
    requires b + |ThoughtEnd| <= a
    ensures CutAt(full, a, b).0 == full[b..a + |ThoughtStart|]
    ensures CutAt(full, a, b).1 ==
              full[..b + |ThoughtEnd|] + full[b + |ThoughtEnd|..a] + full[b + |ThoughtEnd|..a] + full[a..]
  {
    ReversedThought(full, a, b);
    ReversedRest(full, a, b);
  }

  /** The swapped bounds take both markers into the thought, and its ends are the markers'
      brackets, so trimming leaves it whole. */
  lemma ReversedThought(full: string, a: int, b: int)
    requires OccursAt(full, ThoughtStart, a) && OccursAt(full, ThoughtEnd, b)
    requires b + |ThoughtEnd| <= a
    ensures CutAt(full, a, b).0 == full[b..a + |ThoughtStart|]
  {
    SubstringSwapped(full, a + |ThoughtStart|, b);
    var t := full[b..a + |ThoughtStart|];
    CharOfOccurrence(full, ThoughtEnd, b, 0);
    CharOfOccurrence(full, ThoughtStart, a, |ThoughtStart| - 1);
    assert t[0] == '[' && t[|t| - 1] == ']';
    TrimNoop(t);
  }

  /** The rest keeps the text before the opening marker and the text after the closing one,
      which overlap in the text between the markers. */
  lemma ReversedRest(full: string, a: int, b: int)
    requires 0 <= b && b + |ThoughtEnd| <= a <= |full|
    ensures CutAt(full, a, b).1 ==
              full[..b + |ThoughtEnd|] + full[b + |ThoughtEnd|..a] + full[b + |ThoughtEnd|..a] + full[a..]
  {
    SubstringInRange(full, 0, a);
    SubstringInRange(full, b + |ThoughtEnd|, |full|);
    SliceAround(full, b + |ThoughtEnd|, a);
    var head, mid := full[..b + |ThoughtEnd|], full[b + |ThoughtEnd|..a];
    Seqs.AppendAssoc(head + mid, mid, full[a..]);
  }

  lemma SliceAround(s: string, i: nat, j: nat)
    requires i <= j <= |s|
    ensures s[..j] == s[..i] + s[i..j]
    ensures s[i..|s|] == s[i..j] + s[j..]
  {
  }

  /** Without both markers there is no thought and the text is left whole. */
  lemma NoThought(full: string)
    requires !Contains(full, ThoughtStart) || !Contains(full, ThoughtEnd)
    ensures CutThought(full) == ("", full)
  {
  }

  /** The dialogue is the text before the first data marker and the notes come from the text
      between the first and the second data marker; with no marker there are no notes. */
  lemma AssembleSplitsAtMarker(thought: string, rest: string, parse: string -> Option<Json>)
    ensures var r := Assemble(thought, rest, parse);
            var i := IndexOf(rest, DataMarker);
            if i < 0 then r.dialogueText == Trim(rest) && r.notes == JArray([])
            else
              var after := rest[i + |DataMarker|..];
              var j := IndexOf(after, DataMarker);
              var payload := Trim(if j < 0 then after else after[..j]);
              r.dialogueText == Trim(rest[..i]) &&
              r.notes == (if payload == [] then JArray([]) else NotesOf(ExtractAndParseJson(payload, parse)))
  {
    var parts := Split(rest, DataMarker);
    var i := IndexOf(rest, DataMarker);
    if i < 0 {
      assert |parts| == 1 && parts[0] == rest by { SplitFirst(rest, DataMarker); }
    } else {
      assert parts[0] == rest[..i] by { SplitFirst(rest, DataMarker); }
      var after := rest[i + |DataMarker|..];
      var j := IndexOf(after, DataMarker);
      assert |parts| > 1 && parts[1] == if j < 0 then after else after[..j] by {
        SplitSecond(rest, DataMarker);
      }
    }
  }

  // ---------------------------------------------------------------- incremental segmentation

  /** One `onToken(dialogue, thought)` call. */
  datatype Frame = Frame(dialogue: string, thought: string)

  /** The variables of the streaming loop. */
  datatype SegState = SegState(
    fullText: string,
    thoughtBuffer: string,
    dialogueBuffer: string,
    inThought: bool,
    dataMarkerFound: bool)

  const Initial := SegState("", "", "", false, false)

  /** Facts the streaming loop keeps: the marker flag is only set once the marker has been seen,
      and once it is set no thought is open. */
  ghost predicate SegInv(st: SegState) {
    (st.dataMarkerFound ==> Contains(st.fullText, DataMarker)) &&
    !(st.dataMarkerFound && st.inThought)
  }

  /** `s.replace(/\[\[THOUGHT\]\][\s\S]*?\[\[\/THOUGHT\]\]/g, '')`: every complete thought span,
      from an opening marker to the nearest closing marker after it, removed. */
  function RemoveThoughtSpans(s: string): (r: string)
    ensures |r| <= |s|
    ensures !Contains(s, ThoughtStart) ==> r == s
    decreases |s|
  {
    var i := IndexOf(s, ThoughtStart);
    if i < 0 then s
    else
      var j := IndexFrom(s, ThoughtEnd, i + |ThoughtStart|);
      if j < 0 then s
      else s[..i] + RemoveThoughtSpans(s[j + |ThoughtEnd|..])
  }

  /** The dialogue once the data marker has appeared: the text before it, thought spans
      removed, trimmed. */
  function DialogueBeforeMarker(full: string): (r: string)
    ensures |r| <= |full|
    ensures !Contains(full, DataMarker) && !Contains(full, ThoughtStart) ==> r == Trim(full)
  {
    SplitFirst(full, DataMarker);
    Trim(RemoveThoughtSpans(Split(full, DataMarker)[0]))
  }

  /** One content string of the stream: the new loop variables and the frame that is shown,
      if any. Empty strings and everything after the data marker only grow the full text. */
  function Step(st: SegState, content: string): (r: (SegState, Option<Frame>))
    ensures r.0.fullText == st.fullText + content
    ensures st.dataMarkerFound || content == [] ==>
              r.0 == st.(fullText := st.fullText + content) && r.1 == None
    ensures r.1.Some? <==> content != [] && !st.dataMarkerFound
  {
    if content == [] then (st, None)
    else if st.dataMarkerFound then (st.(fullText := st.fullText + content), None)
    else if st.inThought || Contains(content, ThoughtStart) then ThoughtStep(st, content)
    else DialogueStep(st, content)
  }

  /** A step inside a thought: the content goes to the thought buffer, and the thought is shown
      without its markers, closed once the closing marker has arrived. */
  function ThoughtStep(st: SegState, content: string): (r: (SegState, Option<Frame>))
    ensures r.0.fullText == st.fullText + content && r.1.Some?
    ensures r.0.dataMarkerFound == st.dataMarkerFound
  {
    var tb := st.thoughtBuffer + content;
    var full := st.fullText + content;
    if Contains(tb, ThoughtEnd) then
      (st.(fullText := full, thoughtBuffer := tb, inThought := false),
       Some(Frame(st.dialogueBuffer, ReplaceFirst(ReplaceFirst(tb, ThoughtStart, ""), ThoughtEnd, ""))))
    else
      (st.(fullText := full, thoughtBuffer := tb, inThought := true),
       Some(Frame(st.dialogueBuffer, ReplaceFirst(tb, ThoughtStart, ""))))
  }

  /** A step outside a thought: the content goes to the dialogue, which is recomputed from the
      whole text once the data marker has appeared. */
  function DialogueStep(st: SegState, content: string): (r: (SegState, Option<Frame>))
    ensures r.0.fullText == st.fullText + content && r.1.Some?
    ensures r.0.inThought == st.inThought
    ensures r.0.dataMarkerFound == Contains(st.fullText + content, DataMarker)
  {
    var full := st.fullText + content;
    var found := Contains(full, DataMarker);
    var db := if found then DialogueBeforeMarker(full) else st.dialogueBuffer + content;
    (st.(fullText := full, dialogueBuffer := db, dataMarkerFound := found),
     Some(Frame(ReplaceFirst(db, ThoughtEnd, ""),
                ReplaceFirst(ReplaceFirst(st.thoughtBuffer, ThoughtStart, ""), ThoughtEnd, ""))))
  }

  /** The frames an optional frame adds to the list shown. */
  function Shown(f: Option<Frame>): (fs: seq<Frame>)
    ensures |fs| <= 1 && (f.Some? <==> |fs| == 1) && (f.Some? ==> fs == [f.value])
  {
    match f
    case Some(x) => [x]
    case None => []
  }

  /** Each step keeps the invariant of the streaming loop. */
  lemma StepKeepsInvariant(st: SegState, content: string)
    requires SegInv(st)
    ensures SegInv(Step(st, content).0)
  {
    if st.dataMarkerFound {
      ContainsAppend(st.fullText, content, DataMarker);
    }
  }

  /** The loop variables and the frames shown after the given content strings. */
  function Run(chunks: seq<string>): (r: (SegState, seq<Frame>))
    ensures r.0.fullText == Concat(chunks)
    ensures SegInv(r.0)
    ensures |r.1| <= |chunks|
  {
    if chunks == [] then (Initial, [])
    else
      var prev := Run(chunks[..|chunks| - 1]);
      var next := Step(prev.0, chunks[|chunks| - 1]);
      StepKeepsInvariant(prev.0, chunks[|chunks| - 1]);
      (next.0, prev.1 + Shown(next.1))
  }

  /** After `chunks`, the loop variables are `st` and the frames passed to `onToken` are
      `frames` (none when there is no callback). */
  ghost predicate Reached(chunks: seq<string>, st: SegState, frames: seq<Frame>, hasCallback: bool) {
    var run := Run(chunks);
    st == run.0 && frames == (if hasCallback then run.1 else [])
  }

  /** One more content string: one more step from the state reached so far. */
  lemma RunSnoc(chunks: seq<string>, content: string)
    ensures var prev := Run(chunks);
            var next := Step(prev.0, content);
            Run(chunks + [content]) == (next.0, prev.1 + Shown(next.1))
  {
    assert (chunks + [content])[..|chunks|] == chunks;
  }

  /** A reached state and one more step reach the state after one more content string. */
  lemma ReachedSnoc(chunks: seq<string>, st: SegState, frames: seq<Frame>, hasCallback: bool,
                    content: string, st': SegState, frames': seq<Frame>)
    requires Reached(chunks, st, frames, hasCallback)
    requires st' == Step(st, content).0
    requires frames' == frames + (if hasCallback then Shown(Step(st, content).1) else [])
    ensures Reached(chunks + [content], st', frames', hasCallback)
  {
    RunSnoc(chunks, content);
  }

  /** Once the data marker has been seen, later content only grows `fullText`: buffers, flags
      and the frames shown so far stay as they are. */
  lemma {:induction false} MarkerFreezesStream(chunks: seq<string>, more: seq<string>)
    requires Run(chunks).0.dataMarkerFound
    ensures Run(chunks + more).0 == Run(chunks).0.(fullText := Concat(chunks + more))
    ensures Run(chunks + more).1 == Run(chunks).1
    decreases |more|
  {
    if more == [] {
      assert chunks + more == chunks;
    } else {
      var init := more[..|more| - 1];
      assert (chunks + more)[..|chunks + more| - 1] == chunks + init;
      MarkerFreezesStream(chunks, init);
    }
  }

  /** The final result depends only on the concatenated text, not on how it was chunked. */
  lemma ChunkingIrrelevant(c1: seq<string>, c2: seq<string>, parse: string -> Option<Json>)
    requires Concat(c1) == Concat(c2)
    ensures Segment(Run(c1).0.fullText, parse) == Segment(Run(c2).0.fullText, parse)
  {
  }

  /** The streaming state of one generation: the loop variables of the source, the frames
      passed to `onToken` (when there is one), and the content received so far. */
  class StreamSegmenter {
    var fullText: string
    var thoughtBuffer: string
    var dialogueBuffer: string
    var inThought: bool
    var dataMarkerFound: bool
    var frames: seq<Frame>
    const hasCallback: bool
    ghost var chunks: seq<string>

    function State(): SegState
      reads this
    {
      SegState(fullText, thoughtBuffer, dialogueBuffer, inThought, dataMarkerFound)
    }

    ghost predicate Valid()
      reads this
    {
      Reached(chunks, State(), frames, hasCallback)
    }

    constructor (hasCallback: bool)
      ensures Valid() && chunks == [] && this.hasCallback == hasCallback
      ensures State() == Initial && frames == []
    {
      fullText, thoughtBuffer, dialogueBuffer := "", "", "";
      inThought, dataMarkerFound := false, false;
      frames := [];
      this.hasCallback := hasCallback;
      chunks := [];
    }

    /** The body of the stream loop for one content string. */
    method Ingest(content: string)
      requires Valid()
      modifies this
      ensures Valid()
      ensures chunks == old(chunks) + [content]
      ensures content == [] || old(dataMarkerFound) ==> frames == old(frames)
    {
      ghost var before := State();
      ghost var framesBefore := frames;
      Absorb(content);
      ReachedSnoc(chunks, before, framesBefore, hasCallback, content, State(), frames);
      chunks := chunks + [content];
    }

    /** The loop variables and frames after one content string, as `Step` says. */
    method Absorb(content: string)
      modifies this
      ensures State() == Step(old(State()), content).0
      ensures frames == old(frames) + (if hasCallback then Shown(Step(old(State()), content).1) else [])
      ensures chunks == old(chunks)
    {
      if content != [] && !dataMarkerFound {
        if inThought || Contains(content, ThoughtStart) {
          IngestThought(content);
        } else {
          IngestDialogue(content);
        }
      } else if content != [] {
        fullText := fullText + content;
      }
    }

    /** The stream loop's body while a thought is open or opens with this content. */
    method IngestThought(content: string)
      requires content != [] && !dataMarkerFound
      requires inThought || Contains(content, ThoughtStart)
      modifies this
      ensures State() == Step(old(State()), content).0
      ensures frames == old(frames) + (if hasCallback then Shown(Step(old(State()), content).1) else [])
      ensures chunks == old(chunks)
    {
      ghost var next := ThoughtStep(State(), content);
      assert Step(State(), content) == next;
      fullText := fullText + content;
      if !inThought && Contains(content, ThoughtStart) {
        inThought := true;
      }
      thoughtBuffer := thoughtBuffer + content;
      if Contains(thoughtBuffer, ThoughtEnd) {
        inThought := false;
        var rawThought := ReplaceFirst(ReplaceFirst(thoughtBuffer, ThoughtStart, ""), ThoughtEnd, "");
        if hasCallback {
          frames := frames + [Frame(dialogueBuffer, rawThought)];
        }
      } else if hasCallback {
        frames := frames + [Frame(dialogueBuffer, ReplaceFirst(thoughtBuffer, ThoughtStart, ""))];
      }
      assert State() == next.0;
    }

    /** The stream loop's body outside a thought. */
    method IngestDialogue(content: string)
      requires content != [] && !inThought && !dataMarkerFound && !Contains(content, ThoughtStart)
      modifies this
      ensures State() == Step(old(State()), content).0
      ensures frames == old(frames) + (if hasCallback then Shown(Step(old(State()), content).1) else [])
      ensures chunks == old(chunks)
    {
      ghost var st := State();
      ghost var next := DialogueStep(st, content);
      assert Step(st, content) == next;
      fullText := fullText + content;
      if Contains(fullText, DataMarker) {
        dataMarkerFound := true;
        var parts := Split(fullText, DataMarker);
        dialogueBuffer := Trim(RemoveThoughtSpans(parts[0]));
        assert dialogueBuffer == DialogueBeforeMarker(fullText);
      } else {
        dialogueBuffer := dialogueBuffer + content;
      }
      assert State() == next.0;
      if !inThought && hasCallback {
        var cleanDia := ReplaceFirst(dialogueBuffer, ThoughtEnd, "");
        frames := frames + [Frame(cleanDia, ReplaceFirst(ReplaceFirst(thoughtBuffer, ThoughtStart, ""), ThoughtEnd, ""))];
        assert frames == old(frames) + Shown(next.1);
      }
    }

    /** The final pass once the stream has ended. */
    method Finish(parse: string -> Option<Json>) returns (r: FinalResult)
      ensures r == Segment(fullText, parse)
    {
      var finalThought := "";
      var finalDialogue := fullText;
      var tStart := IndexOf(fullText, ThoughtStart);
      var tEnd := IndexOf(fullText, ThoughtEnd);
      if tStart != -1 && tEnd != -1 {
        finalThought := Trim(Substring(fullText, tStart + |ThoughtStart|, tEnd));
        finalDialogue := Substring(fullText, 0, tStart) + Substring(fullText, tEnd + |ThoughtEnd|, |fullText|);
      }
      var splitParts := Split(finalDialogue, DataMarker);
      finalDialogue := Trim(splitParts[0]);
      var jsonPart := "";
      if |splitParts| > 1 {
        jsonPart := Trim(splitParts[1]);
      }
      var parsedNotes := JArray([]);
      if jsonPart != "" {
        parsedNotes := NotesOf(ExtractAndParseJson(jsonPart, parse));
      }
      r := FinalResult(finalDialogue, finalThought, parsedNotes);
    }
  }

  /** The generation loop: every content string of the stream goes through the segmenter, then
      the final pass runs over the whole text. */
  method StreamGeneration(contents: seq<string>, hasCallback: bool, parse: string -> Option<Json>)
    returns (r: FinalResult, shown: seq<Frame>)
    ensures r == Segment(Concat(contents), parse)
    ensures shown == (if hasCallback then Run(contents).1 else [])
    ensures hasCallback ==> |shown| <= |contents|
  {
    var seg := new StreamSegmenter(hasCallback);
    var i := 0;
    while i < |contents|
      invariant 0 <= i <= |contents|
      invariant seg.Valid()
      invariant seg.chunks == contents[..i]
      invariant seg.hasCallback == hasCallback
    {
      Seqs.TakeNext(contents, i);
      seg.Ingest(contents[i]);
      i := i + 1;
    }
    assert contents[..i] == contents;
    r := seg.Finish(parse);
    shown := seg.frames;
  }
}
