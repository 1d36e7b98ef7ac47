/** The introduction endpoint: checks the key and the location, builds the
    prompt around the location summary, runs the three-model fallback, and
    answers with the plain-text introduction and its paragraphs (the text
    split at blank lines). Errors thrown while reading the request are
    turned into a friendly message. */
module GenerateIntroductionRoute {
  import opened Json
  import opened Strings
  import opened LocationInfo
  import opened ModelFallback
  import opened MarkdownUtils

  const ConfigError := "服务配置错误"
  const MissingLocationError := "缺少位置信息"
  const NetworkError := "网络连接异常，请检查网络后重试"

  const PromptHead := "请为以下地理位置生成一段详细的景点介绍，要求：\n\n地点信息：\n"
  const PromptTail := "\n\n要求：\n1. 生成2-3个段落的介绍文本\n2. 包含历史背景、文化意义和有趣的事实\n3. 语言生动有趣，适合语音播报\n4. 总字数控制在300-500字之间\n5. 每个段落用换行符分隔\n6. 不要包含标题或序号\n\n请直接返回介绍文本，不要包含其他格式。"

  const ParagraphBreak := "\n\n"

  datatype Paragraph = Paragraph(id: nat, text: string, startTime: int, endTime: int, isActive: bool)

  datatype Introduction = Introduction(introduction: string, paragraphs: seq<Paragraph>)

  /** `GEMINI_API_KEY` is set and not empty. */
  predicate KeySet(apiKey: Option<string>) {
    apiKey.Some? && apiKey.value != []
  }

  function Prompt(locationInfo: string): string {
    PromptHead + locationInfo + PromptTail
  }

  // ---------------------------------------------------------------------
  // Paragraphs

  /** `filter(p => p.trim().length > 0)` followed by `p.trim()`: the
      trimmed pieces that are not all white space, in order. */
  function TrimmedNonBlank(pieces: seq<string>): (r: seq<string>)
    ensures |r| <= |pieces|
    ensures forall k :: 0 <= k < |r| ==> r[k] != [] && IsTrimmed(r[k])
  {
    if pieces == [] then []
    else (if Trim(pieces[0]) != [] then [Trim(pieces[0])] else []) + TrimmedNonBlank(pieces[1..])
  }

  /** The texts kept are exactly the trims of the pieces that are not all
      white space. */
  lemma {:induction false} TrimmedNonBlankMembers(pieces: seq<string>, t: string)
    ensures t in TrimmedNonBlank(pieces) <==> exists p :: p in pieces && Trim(p) != [] && t == Trim(p)
  {
    if pieces != [] {
      TrimmedNonBlankMembers(pieces[1..], t);
      assert forall p :: p in pieces <==> p == pieces[0] || p in pieces[1..];
    }
  }

  /** The paragraph texts of an introduction: split at blank lines. */
  function ParagraphTexts(introduction: string): seq<string> {
    TrimmedNonBlank(Split(introduction, ParagraphBreak))
  }

  /** The paragraph records: numbered from 0 in order, each text a
      non-empty trimmed paragraph text, both times 0 and none active. */
  function Paragraphs(introduction: string): (ps: seq<Paragraph>)
    ensures |ps| == |ParagraphTexts(introduction)|
    ensures forall i :: 0 <= i < |ps| ==>
      ps[i].id == i && ps[i].text == ParagraphTexts(introduction)[i] &&
      ps[i].text != [] && IsTrimmed(ps[i].text) &&
      ps[i].startTime == 0 && ps[i].endTime == 0 && !ps[i].isActive
  {
    var texts := ParagraphTexts(introduction);
    seq(|texts|, i requires 0 <= i < |texts| => Paragraph(i, texts[i], 0, 0, false))
  }

  /** No non-blank piece is lost: each one's trim is some paragraph's
      text. */
  lemma EveryNonBlankPieceKept(introduction: string, piece: string)
    requires piece in Split(introduction, ParagraphBreak) && Trim(piece) != []
    ensures exists i :: 0 <= i < |Paragraphs(introduction)| && Paragraphs(introduction)[i].text == Trim(piece)
  {
    var texts := ParagraphTexts(introduction);
    TrimmedNonBlankMembers(Split(introduction, ParagraphBreak), Trim(piece));
    assert Trim(piece) in texts;
    var i :| 0 <= i < |texts| && texts[i] == Trim(piece);
    assert Paragraphs(introduction)[i].text == texts[i];
  }

  /** Text without a blank line is one paragraph, or none when blank. */
  lemma SingleParagraph(s: string)
    requires !Contains(s, ParagraphBreak)
    ensures ParagraphTexts(s) == if Trim(s) == [] then [] else [Trim(s)]
  {
    assert Split(s, ParagraphBreak) == [s];
    assert [s][1..] == [];
  }

  /** A first piece without a newline, a blank line, then the rest: the
      first piece's paragraph (when it is not blank) comes before the
      rest's paragraphs, in order. */
  lemma FirstParagraphThenRest(a: string, b: string)
    requires '\n' !in a
    ensures ParagraphTexts(a + ParagraphBreak + b) ==
      (if Trim(a) == [] then [] else [Trim(a)]) + ParagraphTexts(b)
  {
    var pieces := Split(a + ParagraphBreak + b, ParagraphBreak);
    SplitAtFirstBreak(a, b);
    assert pieces[0] == a;
    assert pieces[1..] == Split(b, ParagraphBreak);
  }

  /** The first blank line of `a + "\n\n" + b` is the one after `a` when
      `a` has no newline. */
  lemma SplitAtFirstBreak(a: string, b: string)
    requires '\n' !in a
    ensures Split(a + ParagraphBreak + b, ParagraphBreak) == [a] + Split(b, ParagraphBreak)
  {
    var s := a + ParagraphBreak + b;
    forall j | 0 <= j < |a| ensures !OccursAt(s, ParagraphBreak, j) {
      assert s[j..j + 2][0] == s[j] == a[j];
    }
    assert s[|a|..|a| + 2] == ParagraphBreak;
    assert OccursAt(s, ParagraphBreak, |a|);
    var i := FindFrom(s, ParagraphBreak, 0);
    assert i == |a|;
    assert s[..i] == a;
    assert s[i + 2..] == b;
  }

  // ---------------------------------------------------------------------
  // Errors

  /** The catch block: the error message, lower-cased, is searched for the
      busy keywords, then for network words; anything else is the generic
      failure. `None` is a thrown value that is not an `Error`. */
  function FriendlyError(message: Option<string>): string {
    if message.None? then GenericError
    else
      var m := AsciiLower(message.value);
      if Contains(m, "服务繁忙") || Contains(m, "503") || Contains(m, "过载") then BusyError
      else if Contains(m, "网络") || Contains(m, "network") || Contains(m, "timeout") then NetworkError
      else GenericError
  }

  /** Lower-casing does not move an occurrence of a text without ASCII
      letters. */
  lemma OccursAtLower(m: string, sub: string, i: int)
    requires forall k :: 0 <= k < |sub| ==> !('A' <= sub[k] <= 'Z') && !('a' <= sub[k] <= 'z')
    ensures OccursAt(AsciiLower(m), sub, i) <==> OccursAt(m, sub, i)
  {
    var l := AsciiLower(m);
    if 0 <= i && i + |sub| <= |m| {
      if OccursAt(l, sub, i) {
        forall k | 0 <= k < |sub| ensures m[i + k] == sub[k] {
          assert l[i..i + |sub|][k] == l[i + k];
        }
        assert m[i..i + |sub|] == sub;
      }
      if OccursAt(m, sub, i) {
        forall k | 0 <= k < |sub| ensures l[i + k] == sub[k] {
          assert m[i..i + |sub|][k] == m[i + k];
        }
        assert l[i..i + |sub|] == sub;
      }
    }
  }

  lemma ContainsLower(m: string, sub: string)
    requires forall k :: 0 <= k < |sub| ==> !('A' <= sub[k] <= 'Z') && !('a' <= sub[k] <= 'z')
    ensures Contains(AsciiLower(m), sub) <==> Contains(m, sub)
  {
    ContainsIff(AsciiLower(m), sub);
    ContainsIff(m, sub);
    forall i ensures OccursAt(AsciiLower(m), sub, i) <==> OccursAt(m, sub, i) {
      OccursAtLower(m, sub, i);
    }
  }

  /** The catch block and the retry loop agree on what is busy: an error
      message gets the busy text from one exactly when it gets it from the
      other, whatever its letter case. */
  lemma FriendlyBusyAgreesWithRetry(message: string)
    ensures FriendlyError(Some(message)) == BusyError <==> SignalsBusy(Some(message))
  {
    ContainsLower(message, "服务繁忙");
    ContainsLower(message, "503");
    ContainsLower(message, "过载");
  }

  // ---------------------------------------------------------------------
  // The handler

  /** What a successful call answers with. */
  function Introduce(text: string): Introduction {
    Introduction(FormatChatAnswer(text), Paragraphs(text))
  }

  /** POST. `bodyErrorMessage` is the message of the error that reading a
      body that is not JSON, or is `null`, throws. Without a key or a
      location no model is called; otherwise the prompt is built around the
      location summary and the fallback decides the reply. */
  method Post(apiKey: Option<string>, body: Body, bodyErrorMessage: string, outcomes: seq<Attempt>)
    returns (reply: Reply<Introduction>, prompt: string, calls: nat, waits: nat)
    requires |outcomes| == |Models|
    ensures !KeySet(apiKey) ==> reply == Failure(500, ConfigError) && calls == 0
    ensures KeySet(apiKey) && !Destructurable(body) ==>
      reply == Failure(500, FriendlyError(Some(bodyErrorMessage))) && calls == 0
    ensures KeySet(apiKey) && Destructurable(body) && !Truthy(Field(body, "locationData")) ==>
      reply == Failure(400, MissingLocationError) && calls == 0
    ensures KeySet(apiKey) && Destructurable(body) && Truthy(Field(body, "locationData")) ==>
      prompt == Prompt(Describe(FieldsOf(Field(body, "locationData").value), RoutePlaceLabel, false)) &&
      (FirstSuccess(outcomes, 0).Some? ==>
        var i := FirstSuccess(outcomes, 0).value;
        reply == Success(Introduce(outcomes[i].text.value)) && calls == i + 1) &&
      (FirstSuccess(outcomes, 0).None? ==>
        reply == Failure(500, FinalError(outcomes[|outcomes| - 1])) && calls == |Models|)
  {
    prompt := "";
    calls := 0;
    waits := 0;
    if !KeySet(apiKey) {
      return Failure(500, ConfigError), prompt, calls, waits;
    }
    if !Destructurable(body) {
      return Failure(500, FriendlyError(Some(bodyErrorMessage))), prompt, calls, waits;
    }
    var locationData := Field(body, "locationData");
    if !Truthy(locationData) {
      return Failure(400, MissingLocationError), prompt, calls, waits;
    }
    var locationInfo := Describe(FieldsOf(locationData.value), RoutePlaceLabel, false);
    prompt := Prompt(locationInfo);
    var result;
    result, calls, waits := CallWithRetry(outcomes);
    if result.GaveUp? {
      return Failure(500, result.error), prompt, calls, waits;
    }
    var introduction := result.text;
    var paragraphs := Paragraphs(introduction);
    var formattedIntroduction := FormatChatAnswer(introduction);
    reply := Success(Introduction(formattedIntroduction, paragraphs));
  }
}
