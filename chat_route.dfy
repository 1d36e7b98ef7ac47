/** The chat endpoint: one question about the current place, answered by
    a single Gemini model. The prompt is a fixed instruction text, the
    location summary (with the introduction), the earlier turns and the new
    question; every thrown error, including a `null` entry in the history,
    becomes the same 500 reply. */
module ChatRoute {
  import opened Json
  import opened Strings
  import opened LocationInfo
  import opened MarkdownUtils
  import opened GenerateIntroductionRoute

  const MissingMessageError := "缺少消息内容"
  const NoAnswerError := "无法生成回答"
  const ChatFailedError := "对话失败，请重试"

  const SystemText := "你是一个专业的地理和旅游专家，擅长回答关于世界各地景点、历史、文化、旅游等相关问题。请基于提供的地理位置信息，为用户提供准确、详细、有用的回答。\n\n回答要求：\n1. 基于提供的地理位置信息进行回答\n2. 回答要准确、详细、有帮助\n3. 可以包含历史背景、文化特色、旅游建议等\n4. 语言要友好、专业\n5. 如果问题与当前地点无关，也可以提供相关的地理知识\n6. 请使用纯文本格式回答，不要使用Markdown语法标记"
  const LocationContextHead := "\n\n当前讨论的地理位置信息：\n"
  const HistoryHead := "以下是之前的对话历史：\n"
  const UserCaption := "用户: "
  const AssistantCaption := "\n助手: "
  const AnswerPrompt := "\n请回答:"

  /** What the upstream call gives back: a status that is not ok, a body
      that is not JSON, or the `candidates[0].content.parts[0].text` it
      holds (`None` when any step of that path is missing). */
  datatype Upstream = NotOk(status: nat) | Unreadable | Answered(text: Option<JsonValue>)

  datatype ChatAnswer = ChatAnswer(question: JsonValue, answer: string, timestamp: string)

  /** `locationContext`: empty without a truthy location, otherwise a
      heading and the summary with the introduction line. */
  function LocationContext(locationData: Option<JsonValue>): string {
    if Truthy(locationData) then LocationContextHead + Describe(FieldsOf(locationData.value), RoutePlaceLabel, true)
    else ""
  }

  // ---------------------------------------------------------------------
  // History

  /** One earlier turn. Reading `.question` of a `null` entry throws;
      anything else that is not an object has neither property and renders
      them as `undefined`. */
  function Turn(chat: JsonValue): Option<string> {
    if chat.JNull? then None
    else Some(UserCaption + Render(Prop(chat, "question")) + AssistantCaption + Render(Prop(chat, "answer")) + "\n\n")
  }

  /** The rendering of each entry, `None` for one that throws. */
  function Turns(items: seq<JsonValue>): (ts: seq<Option<string>>)
    ensures |ts| == |items|
    ensures forall k :: 0 <= k < |items| ==> ts[k] == Turn(items[k])
  {
    seq(|items|, k requires 0 <= k < |items| => Turn(items[k]))
  }

  /** Rendered turns one after another, or `None` as soon as one of them
      threw. */
  function Collect(ts: seq<Option<string>>): Option<string> {
    if ts == [] then Some("")
    else CollectStep(Collect(ts[..|ts| - 1]), ts[|ts| - 1])
  }

  function CollectStep(before: Option<string>, t: Option<string>): Option<string> {
    if before.Some? && t.Some? then Some(before.value + t.value) else None
  }

  /** The turns of `items` one after another, or `None` when one of them
      throws. */
  function HistoryText(items: seq<JsonValue>): Option<string> {
    Collect(Turns(items))
  }

  /** The history section: nothing unless `chatHistory` is a (truthy)
      array; then a heading and the turns. */
  function History(chatHistory: Option<JsonValue>): Option<string> {
    if Truthy(chatHistory) && chatHistory.value.JArray? then
      match HistoryText(chatHistory.value.items)
      case None => None
      case Some(turns) => Some(HistoryHead + turns)
    else Some("")
  }

  lemma {:induction false} CollectFailsIffNone(ts: seq<Option<string>>)
    ensures Collect(ts).None? <==> exists k :: 0 <= k < |ts| && ts[k].None?
    decreases |ts|
  {
    if ts != [] {
      var init := ts[..|ts| - 1];
      CollectFailsIffNone(init);
      if exists k :: 0 <= k < |init| && init[k].None? {
        var k :| 0 <= k < |init| && init[k].None?;
        assert ts[k] == init[k];
      }
      if exists k :: 0 <= k < |ts| && ts[k].None? {
        var k :| 0 <= k < |ts| && ts[k].None?;
        if k < |init| {
          assert init[k] == ts[k];
        }
      }
    }
  }

  /** The history throws exactly when one of its entries is `null`. */
  lemma HistoryFailsIffNull(items: seq<JsonValue>)
    ensures HistoryText(items).None? <==> exists k :: 0 <= k < |items| && items[k].JNull?
  {
    var ts := Turns(items);
    CollectFailsIffNone(ts);
    if exists k :: 0 <= k < |ts| && ts[k].None? {
      var k :| 0 <= k < |ts| && ts[k].None?;
      assert items[k].JNull?;
    }
    if exists k :: 0 <= k < |items| && items[k].JNull? {
      var k :| 0 <= k < |items| && items[k].JNull?;
      assert ts[k].None?;
    }
  }

  lemma {:induction false} CollectAppend(a: seq<Option<string>>, b: seq<Option<string>>)
    ensures Collect(a + b) ==
      if Collect(a).Some? && Collect(b).Some? then Some(Collect(a).value + Collect(b).value)
      else None
    decreases |b|
  {
    if b == [] {
      assert a + b == a;
      if Collect(a).Some? {
        assert Collect(a).value + "" == Collect(a).value;
      }
    } else {
      var init, last := b[..|b| - 1], b[|b| - 1];
      CollectAppend(a, init);
      assert (a + b)[..|a + b| - 1] == a + init;
      assert (a + b)[|a + b| - 1] == last;
      if Collect(a).Some? && Collect(init).Some? && last.Some? {
        var x, y, t := Collect(a).value, Collect(init).value, last.value;
        assert x + y + t == x + (y + t);
      }
    }
  }

  /** The history of two runs of turns is the history of the first
      followed by that of the second. */
  lemma HistoryAppend(a: seq<JsonValue>, b: seq<JsonValue>)
    ensures HistoryText(a + b) ==
      if HistoryText(a).Some? && HistoryText(b).Some? then Some(HistoryText(a).value + HistoryText(b).value)
      else None
  {
    assert Turns(a + b) == Turns(a) + Turns(b);
    CollectAppend(Turns(a), Turns(b));
  }

  /** `acc` is `text` followed by the first `k` rendered turns. */
  predicate AppendedUpTo(text: string, ts: seq<Option<string>>, k: nat, acc: string) {
    k <= |ts| && Collect(ts[..k]).Some? && acc == text + Collect(ts[..k]).value
  }

  lemma AppendedStep(text: string, ts: seq<Option<string>>, k: nat, acc: string)
    requires AppendedUpTo(text, ts, k, acc) && k < |ts| && ts[k].Some?
    ensures AppendedUpTo(text, ts, k + 1, acc + ts[k].value)
  {
    assert ts[..k + 1][..k] == ts[..k];
  }

  lemma AppendedAll(text: string, ts: seq<Option<string>>, acc: string)
    requires AppendedUpTo(text, ts, |ts|, acc)
    ensures Collect(ts).Some? && acc == text + Collect(ts).value
  {
    assert ts[..|ts|] == ts;
  }

  /** The `forEach` over the history, appending each turn to the prompt
      text; `None` when an entry throws. */
  method AppendTurns(text: string, items: seq<JsonValue>) returns (r: Option<string>)
    ensures r.None? <==> HistoryText(items).None?
    ensures r.Some? ==> r.value == text + HistoryText(items).value
  {
    ghost var ts := Turns(items);
    var k := 0;
    var acc := text;
    assert ts[..0] == [];
    while k < |items|
      invariant AppendedUpTo(text, ts, k, acc)
    {
      var chat := items[k];
      if chat.JNull? {
        HistoryFailsIffNull(items);
        return None;
      }
      AppendedStep(text, ts, k, acc);
      acc := acc + Turn(chat).value;
      k := k + 1;
    }
    AppendedAll(text, ts, acc);
    r := Some(acc);
  }

  // ---------------------------------------------------------------------
  // The prompt

  function QuestionLine(message: JsonValue): string {
    UserCaption + RenderValue(message) + AnswerPrompt
  }

  /** The text sent to the model. */
  function Conversation(message: JsonValue, locationData: Option<JsonValue>, history: string): string {
    SystemText + LocationContext(locationData) + "\n\n" + history + QuestionLine(message)
  }

  /** The prompt opens with the fixed instructions and closes with the new
      question. */
  lemma ConversationShape(message: JsonValue, locationData: Option<JsonValue>, history: string)
    ensures StartsWith(Conversation(message, locationData, history), SystemText)
    ensures var c := Conversation(message, locationData, history);
      |QuestionLine(message)| <= |c| && c[|c| - |QuestionLine(message)|..] == QuestionLine(message)
  {
    FramedBy(SystemText, LocationContext(locationData), "\n\n", history, QuestionLine(message));
  }

  lemma FramedBy(head: string, x: string, y: string, z: string, tail: string)
    ensures StartsWith(head + x + y + z + tail, head)
    ensures var c := head + x + y + z + tail; |tail| <= |c| && c[|c| - |tail|..] == tail
  {
    var c := head + x + y + z + tail;
    assert c == head + (x + y + z + tail);
    StartsWithConcat(head, x + y + z + tail);
    SuffixOfConcat(head + x + y + z, tail);
  }

  /** Without a location the prompt carries no location section, and with
      one it carries the heading and the summary with the introduction. */
  lemma LocationContextCases(locationData: Option<JsonValue>)
    ensures !Truthy(locationData) ==> LocationContext(locationData) == []
    ensures Truthy(locationData) ==>
      StartsWith(LocationContext(locationData), LocationContextHead) &&
      LocationContext(locationData)[|LocationContextHead|..] == Describe(FieldsOf(locationData.value), RoutePlaceLabel, true)
  {
    if Truthy(locationData) {
      var d := Describe(FieldsOf(locationData.value), RoutePlaceLabel, true);
      StartsWithConcat(LocationContextHead, d);
      assert (LocationContextHead + d)[|LocationContextHead|..] == d;
    }
  }

  // ---------------------------------------------------------------------
  // The handler

  /** The whole prompt, or `None` when the history throws. */
  function ChatPrompt(message: JsonValue, locationData: Option<JsonValue>, chatHistory: Option<JsonValue>): Option<string> {
    match History(chatHistory)
    case None => None
    case Some(history) => Some(Conversation(message, locationData, history))
  }

  lemma ConcatAssoc(x: string, y: string, z: string)
    ensures x + y + z == x + (y + z)
  {
  }

  /** Lines 28-55 of the handler: the prompt is built piece by piece, the
      history by the `forEach`. */
  method BuildPrompt(message: JsonValue, locationData: Option<JsonValue>, chatHistory: Option<JsonValue>)
    returns (conversationText: Option<string>)
    ensures conversationText == ChatPrompt(message, locationData, chatHistory)
  {
    var locationContext := "";
    if Truthy(locationData) {
      var locationInfo := Describe(FieldsOf(locationData.value), RoutePlaceLabel, true);
      locationContext := LocationContextHead + locationInfo;
    }
    assert locationContext == LocationContext(locationData);
    var text := SystemText + locationContext + "\n\n";
    if Truthy(chatHistory) && chatHistory.value.JArray? {
      var withTurns := AppendTurns(text + HistoryHead, chatHistory.value.items);
      if withTurns.None? {
        return None;
      }
      ConcatAssoc(text, HistoryHead, HistoryText(chatHistory.value.items).value);
      text := withTurns.value;
    } else {
      assert text + "" == text;
    }
    conversationText := Some(text + QuestionLine(message));
  }

  /** POST. `asked` says whether the model was called, and `prompt` is what
      it was asked; `upstream` is its answer and `now` the timestamp. */
  method Post(apiKey: Option<string>, body: Body, upstream: Upstream, now: string)
    returns (reply: Reply<ChatAnswer>, asked: bool, prompt: string)
    ensures !KeySet(apiKey) ==> reply == Failure(500, ConfigError) && !asked
    ensures KeySet(apiKey) && !Destructurable(body) ==> reply == Failure(500, ChatFailedError) && !asked
    ensures KeySet(apiKey) && Destructurable(body) && !Truthy(Field(body, "message")) ==>
      reply == Failure(400, MissingMessageError) && !asked
    ensures KeySet(apiKey) && Destructurable(body) && Truthy(Field(body, "message")) ==>
      var message := Field(body, "message").value;
      var conversation := ChatPrompt(message, Field(body, "locationData"), Field(body, "chatHistory"));
      (conversation.None? ==> reply == Failure(500, ChatFailedError) && !asked) &&
      (conversation.Some? ==>
        asked && prompt == conversation.value &&
        (upstream.NotOk? || upstream.Unreadable? ==> reply == Failure(500, ChatFailedError)) &&
        (upstream.Answered? && !Truthy(upstream.text) ==> reply == Failure(500, NoAnswerError)) &&
        (upstream.Answered? && Truthy(upstream.text) && upstream.text.value.JString? ==>
          reply == Success(ChatAnswer(message, FormatChatAnswer(upstream.text.value.s), now))) &&
        (upstream.Answered? && Truthy(upstream.text) && !upstream.text.value.JString? ==>
          reply == Failure(500, ChatFailedError)))
  {
    asked := false;
    prompt := "";
    if !KeySet(apiKey) {
      return Failure(500, ConfigError), asked, prompt;
    }
    if !Destructurable(body) {
      return Failure(500, ChatFailedError), asked, prompt;
    }
    var message := Field(body, "message");
    var locationData := Field(body, "locationData");
    var chatHistory := Field(body, "chatHistory");
    if !Truthy(message) {
      return Failure(400, MissingMessageError), asked, prompt;
    }
    var conversationText := BuildPrompt(message.value, locationData, chatHistory);
    if conversationText.None? {
      return Failure(500, ChatFailedError), asked, prompt;
    }
    asked := true;
    prompt := conversationText.value;
    if !upstream.Answered? {
      return Failure(500, ChatFailedError), asked, prompt;
    }
    var answer := upstream.text;
    if !Truthy(answer) {
      return Failure(500, NoAnswerError), asked, prompt;
    }
    if !answer.value.JString? {
      // `formatChatAnswer` calls `replace` on the value, which only strings have.
      return Failure(500, ChatFailedError), asked, prompt;
    }
    reply := Success(ChatAnswer(message.value, FormatChatAnswer(answer.value.s), now));
  }
}
