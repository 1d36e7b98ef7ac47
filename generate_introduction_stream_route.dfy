/** The streaming introduction endpoint: the same checks and model fallback
    as the plain endpoint, with plain-text errors, and on success the
    generated text cut into pieces of three characters, each sent as a
    server-sent event carrying `{"content": piece}`, then a `[DONE]`
    event. */
module GenerateIntroductionStreamRoute {
  import opened Json
  import opened Strings
  import opened LocationInfo
  import opened ModelFallback
  import opened GenerateIntroductionRoute

  const MissingLocationText := "缺少地理位置数据"

  const StreamPromptHead := "请为以下地理位置生成详细的景点介绍：\n\n"
  const StreamPromptTail := "\n\n要求：\n1. 介绍该地点的历史背景和文化意义\n2. 描述主要的景观特色和建筑风格\n3. 提供旅游建议和最佳游览时间\n4. 如果是5A级景区，请特别说明其等级和特色\n5. 推荐周边的其他景点或美食\n6. 内容要详细丰富，至少300字\n7. 请使用纯文本格式，不要使用任何Markdown语法标记（如**、##、*等）\n8. 段落之间用空行分隔，保持自然的文本格式\n\n请用中文回答，语言要生动有趣，适合游客阅读。"

  /** Characters per event. */
  const ChunkSize: nat := 3

  const EventHead := "data: {\"content\":\""
  const EventTail := "\"}\n\n"
  const DoneEvent := "data: [DONE]\n\n"

  /** A plain-text response with its status, or a 200 event stream. */
  datatype StreamReply = PlainText(status: nat, text: string) | EventStream(events: seq<string>)

  function StreamPrompt(locationInfo: string): string {
    StreamPromptHead + locationInfo + StreamPromptTail
  }

  // ---------------------------------------------------------------------
  // Chunks

  /** `chunks.slice(i, i + 3).join('')` for `i = 0, 3, 6, …` below the
      length. */
  function ChunksOf(text: string): seq<string>
    decreases |text|
  {
    if text == [] then []
    else
      var n := if |text| < ChunkSize then |text| else ChunkSize;
      [text[..n]] + ChunksOf(text[n..])
  }

  function Concat(chunks: seq<string>): string {
    if chunks == [] then "" else chunks[0] + Concat(chunks[1..])
  }

  /** Nothing is lost or reordered: the chunks put back together are the
      text. */
  lemma {:induction false} ChunksConcat(text: string)
    ensures Concat(ChunksOf(text)) == text
    decreases |text|
  {
    if text != [] {
      var n := if |text| < ChunkSize then |text| else ChunkSize;
      ChunksConcat(text[n..]);
      assert ChunksOf(text)[1..] == ChunksOf(text[n..]);
      assert text[..n] + text[n..] == text;
    }
  }

  /** Every chunk has one to three characters, every chunk but the last has
      exactly three, and there are `ceil(length / 3)` of them. */
  lemma {:induction false} ChunkSizes(text: string)
    ensures |ChunksOf(text)| == (|text| + ChunkSize - 1) / ChunkSize
    ensures forall k :: 0 <= k < |ChunksOf(text)| ==> 1 <= |ChunksOf(text)[k]| <= ChunkSize
    ensures forall k :: 0 <= k < |ChunksOf(text)| - 1 ==> |ChunksOf(text)[k]| == ChunkSize
    decreases |text|
  {
    if text != [] {
      var n := if |text| < ChunkSize then |text| else ChunkSize;
      ChunkSizes(text[n..]);
      var cs := ChunksOf(text);
      assert cs == [text[..n]] + ChunksOf(text[n..]);
      forall k | 1 <= k < |cs| ensures cs[k] == ChunksOf(text[n..])[k - 1] { }
    }
  }

  // ---------------------------------------------------------------------
  // Events

  /** `data: ${JSON.stringify({ content: chunk })}\n\n`. */
  function EventFor(chunk: string): string {
    EventHead + Escape(chunk) + EventTail
  }

  /** What a client reads out of one event: the unescaped `content` string,
      or `None` for anything that is not a content event. */
  function ContentOf(event: string): Option<string> {
    if |event| >= |EventHead| + |EventTail| &&
       event[..|EventHead|] == EventHead &&
       event[|event| - |EventTail|..] == EventTail
    then Unescape(event[|EventHead|..|event| - |EventTail|])
    else None
  }

  /** A content event carries its chunk intact. */
  lemma EventRoundTrip(chunk: string)
    ensures ContentOf(EventFor(chunk)) == Some(chunk)
  {
    var e := EventFor(chunk);
    assert e[..|EventHead|] == EventHead;
    assert e[|e| - |EventTail|..] == EventTail;
    assert e[|EventHead|..|e| - |EventTail|] == Escape(chunk);
    UnescapeEscape(chunk);
  }

  /** The end marker is not a content event. */
  lemma DoneIsNotContent()
    ensures ContentOf(DoneEvent) == None
  {
    assert DoneEvent[6] != EventHead[6];
  }

  function EventsFor(chunks: seq<string>): seq<string> {
    seq(|chunks|, k requires 0 <= k < |chunks| => EventFor(chunks[k]))
  }

  /** One event per chunk, each carrying its chunk. */
  lemma EventsCarryChunks(chunks: seq<string>)
    ensures |EventsFor(chunks)| == |chunks|
    ensures forall k :: 0 <= k < |chunks| ==> ContentOf(EventsFor(chunks)[k]) == Some(chunks[k])
  {
    forall k | 0 <= k < |chunks| ensures ContentOf(EventFor(chunks[k])) == Some(chunks[k]) {
      EventRoundTrip(chunks[k]);
    }
  }

  lemma EventsForAppend(chunks: seq<string>, chunk: string)
    ensures EventsFor(chunks + [chunk]) == EventsFor(chunks) + [EventFor(chunk)]
  {
  }

  /** What is left of the text from `i` on. */
  function Rest(text: string, i: nat): string {
    if i < |text| then text[i..] else []
  }

  /** The chunk taken at `i` is the first chunk of the text from `i`. */
  lemma ChunkStep(text: string, i: nat)
    requires i < |text|
    ensures ChunksOf(Rest(text, i)) ==
      [text[i..if i + ChunkSize < |text| then i + ChunkSize else |text|]] + ChunksOf(Rest(text, i + ChunkSize))
  {
    var t := text[i..];
    var n := if |t| < ChunkSize then |t| else ChunkSize;
    assert t[..n] == text[i..if i + ChunkSize < |text| then i + ChunkSize else |text|];
    assert t[n..] == if i + ChunkSize < |text| then text[i + ChunkSize..] else [];
  }

  /** After the slices before `i`, `chunks` are the chunks of the text so
      far. */
  predicate ChunkedUpTo(text: string, i: nat, chunks: seq<string>) {
    chunks + ChunksOf(Rest(text, i)) == ChunksOf(text)
  }

  lemma ChunkedStep(text: string, i: nat, chunks: seq<string>)
    requires i < |text| && ChunkedUpTo(text, i, chunks)
    ensures var chunk := text[i..if i + ChunkSize < |text| then i + ChunkSize else |text|];
      chunk != [] && ChunkedUpTo(text, i + ChunkSize, chunks + [chunk])
  {
    var chunk := text[i..if i + ChunkSize < |text| then i + ChunkSize else |text|];
    var rest := ChunksOf(Rest(text, i + ChunkSize));
    ChunkStep(text, i);
    assert chunks + ([chunk] + rest) == (chunks + [chunk]) + rest;
  }

  lemma ChunkedAll(text: string, i: nat, chunks: seq<string>)
    requires i >= |text| && ChunkedUpTo(text, i, chunks)
    ensures chunks == ChunksOf(text)
  {
    assert Rest(text, i) == [];
    assert chunks + [] == chunks;
  }

  /** The stream's `start`: one event per non-empty slice of three
      characters, in order, then the end marker. */
  method StreamEvents(fullText: string) returns (events: seq<string>)
    ensures events == EventsFor(ChunksOf(fullText)) + [DoneEvent]
  {
    var chunks: seq<string> := [];
    events := [];
    var i := 0;
    assert Rest(fullText, 0) == fullText;
    while i < |fullText|
      invariant ChunkedUpTo(fullText, i, chunks)
      invariant events == EventsFor(chunks)
    {
      ChunkedStep(fullText, i, chunks);
      var end := if i + ChunkSize < |fullText| then i + ChunkSize else |fullText|;
      var chunk := fullText[i..end];
      if chunk != [] {
        EventsForAppend(chunks, chunk);
        events := events + [EventFor(chunk)];
        chunks := chunks + [chunk];
      }
      i := i + ChunkSize;
    }
    ChunkedAll(fullText, i, chunks);
    events := events + [DoneEvent];
  }

  // ---------------------------------------------------------------------
  // The handler

  /** POST: the key check, the body check (a body that is not JSON or is
      `null` throws and gets the friendly message), the location check, then
      the fallback; its error text is answered as is with 500. */
  method Post(apiKey: Option<string>, body: Body, bodyErrorMessage: string, outcomes: seq<Attempt>)
    returns (reply: StreamReply, prompt: string, calls: nat)
    requires |outcomes| == |Models|
    ensures !KeySet(apiKey) ==> reply == PlainText(500, ConfigError) && calls == 0
    ensures KeySet(apiKey) && !Destructurable(body) ==>
      reply == PlainText(500, FriendlyError(Some(bodyErrorMessage))) && calls == 0
    ensures KeySet(apiKey) && Destructurable(body) && !Truthy(Field(body, "locationData")) ==>
      reply == PlainText(400, MissingLocationText) && calls == 0
    ensures KeySet(apiKey) && Destructurable(body) && Truthy(Field(body, "locationData")) ==>
      prompt == StreamPrompt(Describe(FieldsOf(Field(body, "locationData").value), RoutePlaceLabel, false)) &&
      (FirstSuccess(outcomes, 0).Some? ==>
        var i := FirstSuccess(outcomes, 0).value;
        reply == EventStream(EventsFor(ChunksOf(outcomes[i].text.value)) + [DoneEvent]) && calls == i + 1) &&
      (FirstSuccess(outcomes, 0).None? ==>
        reply == PlainText(500, FinalError(outcomes[|outcomes| - 1])) && calls == |Models|)
  {
    prompt := "";
    calls := 0;
    if !KeySet(apiKey) {
      return PlainText(500, ConfigError), prompt, calls;
    }
    if !Destructurable(body) {
      return PlainText(500, FriendlyError(Some(bodyErrorMessage))), prompt, calls;
    }
    var locationData := Field(body, "locationData");
    if !Truthy(locationData) {
      return PlainText(400, MissingLocationText), prompt, calls;
    }
    prompt := StreamPrompt(Describe(FieldsOf(locationData.value), RoutePlaceLabel, false));
    var result, waits;
    result, calls, waits := CallWithRetry(outcomes);
    if result.GaveUp? {
      var friendlyError := if result.error != [] then result.error else GenericError;
      return PlainText(500, friendlyError), prompt, calls;
    }
    var events := StreamEvents(result.text);
    reply := EventStream(events);
  }

  /** What a client reassembles from a successful stream is the generated
      text: the contents of every event before the end marker, in order. */
  lemma StreamCarriesText(fullText: string)
    ensures var chunks := ChunksOf(fullText);
      var events := EventsFor(chunks);
      (forall k :: 0 <= k < |events| ==> ContentOf(events[k]).Some?) &&
      Concat(seq(|events|, k requires 0 <= k < |events| => ContentOf(events[k]).value)) == fullText
  {
    var chunks := ChunksOf(fullText);
    var events := EventsFor(chunks);
    EventsCarryChunks(chunks);
    assert seq(|events|, k requires 0 <= k < |events| => ContentOf(events[k]).value) == chunks;
    ChunksConcat(fullText);
  }
}
