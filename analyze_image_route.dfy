/** The image analysis endpoint: the gate (API key, quota, file, type, size),
    the unwrapping of the vision model's answer (first fenced block, then a
    parse that degrades to raw text), the classification of upstream HTTP
    failures, and the quota bookkeeping after a successful call. The
    upstream call is an input (`VisionReply`) and `JSON.parse` a partial
    function parameter. */
module AnalyzeImageRoute {
  import opened Json
  import opened Strings
  import opened TokenManager
  import opened UploadImageRoute

  const KeyMissingError := "Google Gemini API Key未配置，请在.env.local文件中设置GEMINI_API_KEY环境变量"
  const InternalError := "服务器内部错误"
  const TotalQuotaError := "服务已达到使用上限，请稍后再试"
  const DailyQuotaError := "今日使用量已达上限，请明天再试"
  const MissingImageError := "请上传图片文件"
  const UnsupportedFormatError := "不支持的文件格式"
  const FileTooLargeError := "文件大小不能超过10MB"
  const InvalidKeyError := "无效的API Key，请检查环境变量配置"
  const UnrecognizedError := "无法识别图片位置"
  const UnavailableError := "AI服务暂时不可用"
  const PlaceholderKey := "your_gemini_api_key_here"

  /** What the vision model call produced: an HTTP failure with its body
      text, an exception (with its message when it is an `Error`), or an ok
      response with the first candidate's text and the whole usage record
      (`usageMetadata`), each possibly missing. */
  datatype VisionReply =
    | HttpFailure(status: nat, errorText: string)
    | Thrown(message: Option<string>)
    | Answered(content: Option<string>, usageMetadata: Option<JsonValue>)

  /** The seven location fields of the answer; `None` is `undefined` (the
      field is left out of the JSON reply). */
  datatype LocationFields = LocationFields(
    continent: Option<JsonValue>, country: Option<JsonValue>, province: Option<JsonValue>,
    city: Option<JsonValue>, location: Option<JsonValue>,
    latitude: Option<JsonValue>, longitude: Option<JsonValue>)

  /** The success reply: the location fields and the usage record passed
      through as the upstream sent it. */
  datatype Analysis = Analysis(data: LocationFields, usage: Option<JsonValue>)

  datatype AnalyzeReply =
    | Analyzed(analysis: Analysis)
    | Rejected(status: nat, error: string)
    | QuotaExceeded(error: string, dailyRemaining: int, totalRemaining: int)

  // ---------------------------------------------------------------------
  // Upstream failures

  datatype FailureClass = AuthFailed | AccessDenied | RateLimited | ServerError | RequestFailed

  function Classify(status: nat): FailureClass {
    if status == 401 then AuthFailed
    else if status == 403 then AccessDenied
    else if status == 429 then RateLimited
    else if status >= 500 then ServerError
    else RequestFailed
  }

  /** The text of the error thrown for a non-ok status: a title naming the
      status, advice (for a 401 also the key length), and the upstream body
      at the end. */
  function StatusMessage(status: nat, keyLength: nat, errorText: string): string {
    StatusHeading(Classify(status), status, keyLength) + errorText
  }

  function StatusHeading(c: FailureClass, status: nat, keyLength: nat): string {
    Title(c, status) + Advice(c, keyLength) + "错误详情: "
  }

  function Title(c: FailureClass, status: nat): string {
    match c
    case AuthFailed => "Google Gemini API身份验证失败 (401)"
    case AccessDenied => "Google Gemini API访问被拒绝 (403)"
    case RateLimited => "Google Gemini API调用频率超限 (429)"
    case ServerError => "Google Gemini服务器错误 (" + NatToString(status) + ")"
    case RequestFailed => "Google Gemini API请求失败 (" + NatToString(status) + ")"
  }

  function Advice(c: FailureClass, keyLength: nat): string {
    match c
    case AuthFailed =>
      ":\n\n可能的原因：\n1. API Key无效或已过期\n2. API Key格式错误\n3. 项目没有开启Generative Language API\n\n解决方案：\n1. 访问 https://console.cloud.google.com/ 检查项目状态\n2. 启用Generative Language API\n3. 重新生成API Key\n4. 更新.env.local文件中的GEMINI_API_KEY\n\n当前API Key长度: "
      + NatToString(keyLength) + "字符\n"
    case AccessDenied =>
      ":\n\n可能的原因：\n1. API Key没有权限\n2. 超出配额限制\n3. 地理位置限制\n\n解决方案：\n1. 检查Google Cloud Console中API权限\n2. 检查计费设置和配额\n3. 确认服务在支持的地区\n\n"
    case RateLimited => ":\n\n请稍等片刻后重试\n建议等待时间: 1-2分钟\n\n"
    case ServerError => ":\n\n这是Google服务端的问题，请稍后重试\n如果问题持续，请联系Google支持\n\n"
    case RequestFailed => ":\n\n未知错误，请检查网络连接或联系技术支持\n\n"
  }

  /** Every status message starts with the title of its class, which for a
      server error or another failure names the status, and ends with the
      upstream body text. */
  lemma StatusMessageShape(status: nat, keyLength: nat, errorText: string)
    ensures var m := StatusMessage(status, keyLength, errorText);
      StartsWith(m, Title(Classify(status), status)) &&
      |errorText| <= |m| && m[|m| - |errorText|..] == errorText
  {
    var c := Classify(status);
    var t := Title(c, status);
    var a := Advice(c, keyLength);
    StartsWithConcat(t, a);
    StartsWithAppend(t + a, t, "错误详情: ");
    StartsWithAppend(StatusHeading(c, status, keyLength), t, errorText);
    SuffixOfConcat(StatusHeading(c, status, keyLength), errorText);
  }

  /** 401, 403 and 429 have classes of their own, every status from 500 up
      is a server error, and anything else is a plain request failure. */
  lemma ClassifyCases(status: nat)
    ensures Classify(status) == AuthFailed <==> status == 401
    ensures Classify(status) == AccessDenied <==> status == 403
    ensures Classify(status) == RateLimited <==> status == 429
    ensures Classify(status) == ServerError <==> status >= 500
    ensures Classify(status) == RequestFailed <==> status !in {401, 403, 429} && status < 500
  {
  }

  // ---------------------------------------------------------------------
  // The fenced block: /```(?:json)?\s*([\s\S]*?)```/

  const Fence := "```"

  function SpacesFrom(s: string, i: nat): (j: nat)
    requires i <= |s|
    ensures i <= j <= |s| && AllSpace(s[i..j]) && (j == |s| || !IsSpace(s[j]))
    decreases |s| - i
  {
    if i < |s| && IsSpace(s[i]) then
      var j := SpacesFrom(s, i + 1);
      assert s[i..j] == [s[i]] + s[i + 1..j];
      j
    else i
  }

  /** The capture group of the first match of the fence pattern, as the
      bounds `(start, end)` of the text between the opening fence (with its
      optional `json` tag and the white space after it) and the next fence.
      A match exists exactly when a second fence follows the first one: the
      white space and the tag hold no backtick, so backtracking into them
      cannot find a closing fence the greedy attempt missed. */
  function FenceGroup(s: string): (g: Option<(nat, nat)>)
    ensures g.Some? ==>
      FindFrom(s, Fence, 0) >= 0 &&
      var open := FindFrom(s, Fence, 0);
      var afterTag := if OccursAt(s, "json", open + 3) then open + 7 else open + 3;
      var (start, end) := g.value;
      afterTag <= start <= end && OccursAt(s, Fence, end) && AllSpace(s[afterTag..start]) &&
      (forall j :: start <= j < end ==> !OccursAt(s, Fence, j))
    ensures g.None? ==> FindFrom(s, Fence, 0) < 0 || FindFrom(s, Fence, FindFrom(s, Fence, 0) + 3) < 0
  {
    var open := FindFrom(s, Fence, 0);
    if open < 0 then None
    else
      var afterTag := if OccursAt(s, "json", open + 3) then open + 7 else open + 3;
      var start := SpacesFrom(s, afterTag);
      var end := FindFrom(s, Fence, start);
      if end < 0 then
        NoFenceInPrefix(s, open + 3, start);
        None
      else Some((start, end))
  }

  /** No fence starts between the end of the opening fence and the start of
      the group: those characters are the `json` tag and white space. */
  lemma NoFenceInPrefix(s: string, from: nat, start: nat)
    requires from <= start <= |s|
    requires OccursAt(s, "json", from) ==> start >= from + 4 && AllSpace(s[from + 4..start])
    requires !OccursAt(s, "json", from) ==> AllSpace(s[from..start])
    requires FindFrom(s, Fence, start) < 0
    ensures FindFrom(s, Fence, from) < 0
  {
    forall j | from <= j < start ensures s[j] != '`' {
      if OccursAt(s, "json", from) && j < from + 4 {
        assert s[from..from + 4] == "json";
        assert s[j] == "json"[j - from];
      } else if OccursAt(s, "json", from) {
        assert s[from + 4..start][j - from - 4] == s[j];
      } else {
        assert s[from..start][j - from] == s[j];
      }
    }
    FenceStartsWithBacktick(s);
  }

  lemma FenceStartsWithBacktick(s: string)
    ensures forall j :: OccursAt(s, Fence, j) ==> s[j] == '`'
  {
    forall j | OccursAt(s, Fence, j) ensures s[j] == '`' {
      assert s[j..j + 3][0] == s[j];
    }
  }

  /** The text handed to `JSON.parse`: the trimmed group when the pattern
      matches, else the whole answer. */
  function JsonContent(content: string): string {
    match FenceGroup(content)
    case Some((start, end)) => Trim(content[start..end])
    case None => content
  }

  /** An answer with no fence is parsed as it is; a fenced one is parsed
      without the fences and without surrounding white space. */
  lemma JsonContentCases(content: string)
    ensures !Contains(content, Fence) ==> JsonContent(content) == content
    ensures FenceGroup(content).Some? ==> IsTrimmed(JsonContent(content)) && |JsonContent(content)| < |content|
  {
  }

  /** The location record built from the answer: the parsed object's seven
      fields, or, when parsing fails (or yields `null`, whose property
      access throws inside the same `try`), the raw answer as `location`
      with the other six fields `null`. */
  function Extract(content: string, parse: string -> Option<JsonValue>): LocationFields {
    var parsed := parse(JsonContent(content));
    if parsed.Some? && !parsed.value.JNull? then
      var v := parsed.value;
      LocationFields(Prop(v, "continent"), Prop(v, "country"), Prop(v, "province"), Prop(v, "city"),
                     Prop(v, "location"), Prop(v, "latitude"), Prop(v, "longitude"))
    else
      LocationFields(Some(JNull), Some(JNull), Some(JNull), Some(JNull), Some(JString(content)), Some(JNull), Some(JNull))
  }

  /** The field read from the parsed object: present exactly when the
      object has the key, and then the object's own value. */
  predicate TakenFrom(v: Option<JsonValue>, fields: map<string, JsonValue>, key: string) {
    (v.Some? <==> key in fields) && (v.Some? ==> v.value == fields[key])
  }

  /** When parsing yields an object, each of the seven fields is the
      object's own field; when it yields another non-null value, all seven
      are undefined; when it fails or yields `null`, `location` is the
      unextracted answer, fences included, and the other six are `null`. */
  lemma ExtractCases(content: string, parse: string -> Option<JsonValue>)
    ensures var parsed := parse(JsonContent(content));
      parsed.Some? && parsed.value.JObject? ==>
        var f := parsed.value.fields;
        var r := Extract(content, parse);
        TakenFrom(r.continent, f, "continent") && TakenFrom(r.country, f, "country") &&
        TakenFrom(r.province, f, "province") && TakenFrom(r.city, f, "city") &&
        TakenFrom(r.location, f, "location") && TakenFrom(r.latitude, f, "latitude") &&
        TakenFrom(r.longitude, f, "longitude")
    ensures var parsed := parse(JsonContent(content));
      parsed.Some? && !parsed.value.JObject? && !parsed.value.JNull? ==>
        Extract(content, parse) == LocationFields(None, None, None, None, None, None, None)
    ensures var parsed := parse(JsonContent(content));
      parsed.None? || parsed.value.JNull? ==>
        Extract(content, parse) ==
          LocationFields(Some(JNull), Some(JNull), Some(JNull), Some(JNull), Some(JString(content)), Some(JNull), Some(JNull))
  {
  }

  predicate KeyUsable(apiKey: string) {
    apiKey != [] && Trim(apiKey) != [] && apiKey != PlaceholderKey
  }

  /** `callGeminiAPI` given what the upstream call produced: the key check,
      then the upstream outcome. */
  function CallGeminiApi(apiKey: string, vision: VisionReply, parse: string -> Option<JsonValue>): (r: Reply<Analysis>)
    ensures !KeyUsable(apiKey) ==> r == Failure(500, InvalidKeyError)
    ensures r.Failure? ==> r.status == 500
    ensures r.Success? <==>
      KeyUsable(apiKey) && vision.Answered? && vision.content.Some? && vision.content.value != []
    ensures r.Success? ==>
      r.data == Analysis(Extract(vision.content.value, parse), vision.usageMetadata)
  {
    if !KeyUsable(apiKey) then Failure(500, InvalidKeyError)
    else UpstreamReply(|apiKey|, vision, parse)
  }

  /** What `callGeminiAPI` makes of the upstream outcome once the key has
      passed; only the key's length enters, through the status messages. */
  function UpstreamReply(keyLength: nat, vision: VisionReply, parse: string -> Option<JsonValue>): (r: Reply<Analysis>)
    ensures r.Failure? ==> r.status == 500
    ensures r.Success? <==> vision.Answered? && vision.content.Some? && vision.content.value != []
    ensures r.Success? ==> r.data == Analysis(Extract(vision.content.value, parse), vision.usageMetadata)
  {
    match vision
    case Thrown(message) => Failure(500, if message.Some? then message.value else UnavailableError)
    case HttpFailure(status, errorText) => Failure(500, StatusMessage(status, keyLength, errorText))
    case Answered(content, usage) =>
      if content.None? || content.value == [] then Failure(500, UnrecognizedError)
      else Success(Analysis(Extract(content.value, parse), usage))
  }

  /** A missing or empty answer is a failure with a fixed text; any
      non-empty answer succeeds, parsed or not. */
  lemma AnswerAlwaysSucceeds(keyLength: nat, content: Option<string>, usage: Option<JsonValue>, parse: string -> Option<JsonValue>)
    ensures (content.None? || content.value == []) ==>
      UpstreamReply(keyLength, Answered(content, usage), parse) == Failure(500, UnrecognizedError)
    ensures content.Some? && content.value != [] ==>
      UpstreamReply(keyLength, Answered(content, usage), parse).Success? &&
      UpstreamReply(keyLength, Answered(content, usage), parse).data.usage == usage
  {
  }

  // ---------------------------------------------------------------------
  // The handler

  /** `usage?.totalTokenCount` read as a whole number: missing when there
      is no usage record, when it is `null` or not an object, when it has no
      such field, or when the field is not a JSON numeral of digits. */
  function TotalTokenCount(usage: Option<JsonValue>): (n: Option<nat>)
    ensures usage.None? || Prop(usage.value, "totalTokenCount").None? ==> n.None?
    ensures n.Some? ==> usage.Some? && Prop(usage.value, "totalTokenCount").Some?
    ensures n.Some? ==> Prop(usage.value, "totalTokenCount").value.JNumber?
  {
    if usage.None? then None
    else match Prop(usage.value, "totalTokenCount")
      case Some(JNumber(repr)) => if repr != [] && AllDigits(repr) then Some(ParseDigits(repr)) else None
      case _ => None
  }

  /** A usage record that reports `k` tokens, written as JSON writes `k`,
      is read as `k`. */
  lemma TokenCountRead(fields: map<string, JsonValue>, k: nat)
    requires "totalTokenCount" in fields && fields["totalTokenCount"] == JNumber(NatToString(k))
    ensures TotalTokenCount(Some(JObject(fields))) == Some(k)
  {
    ParseNatToString(k);
  }

  /** The token amount recorded after a successful call:
      `usage?.totalTokenCount || estimatedTokens`, so a count of 0 or a
      missing one falls back to the estimate. */
  function RecordedTokens(totalTokenCount: Option<nat>, estimated: nat): (n: nat)
    ensures totalTokenCount.Some? && totalTokenCount.value > 0 ==> n == totalTokenCount.value
    ensures (totalTokenCount.None? || totalTokenCount.value == 0) ==> n == estimated
  {
    if totalTokenCount.Some? && totalTokenCount.value > 0 then totalTokenCount.value else estimated
  }

  /** Everything after `file` has been read: the quota gate (a text field
      has no `size`, so its estimate is `NaN`, which no comparison rejects),
      then `!file`, type and size, the upstream call, and the recording. The
      gate reads the date as `today`; the recording reads it again after the
      awaited upstream call, as `recordDay`, so a request that crosses UTC
      midnight starts the new day's count. The result is the reply and the
      quota record afterwards. */
  function AfterFileRead(apiKey: string, entry: Option<FormEntry>, u: Usage, today: int, recordDay: int,
                         vision: VisionReply, parse: string -> Option<JsonValue>): (AnalyzeReply, Usage)
  {
    var reset := ResetIfNeeded(u, today);
    var estimate := if entry.Some? && entry.value.FileEntry? then EstimateTokensForImage(|entry.value.file.bytes|) else 0;
    var allowed := !(entry.Some? && entry.value.FileEntry?) || Allows(reset, estimate);
    if !allowed then
      var stats := Stats(reset);
      (QuotaExceeded(if stats.remainingTotal <= 0 then TotalQuotaError else DailyQuotaError,
                     stats.remainingDaily, stats.remainingTotal), reset)
    else if !EntryTruthy(entry) then (Rejected(400, MissingImageError), reset)
    else if !EntryTypeAllowed(entry.value) then (Rejected(400, UnsupportedFormatError), reset)
    else if |entry.value.file.bytes| > MaxImageSize then (Rejected(400, FileTooLargeError), reset)
    else match CallGeminiApi(apiKey, vision, parse)
      case Failure(status, error) => (Rejected(status, error), reset)
      case Success(analysis) =>
        (Analyzed(analysis), Record(ResetIfNeeded(reset, recordDay), RecordedTokens(TotalTokenCount(analysis.usage), estimate)))
  }

  /** The handler as written: `file.size` is read before `!file` is
      checked, so a form with no `image` field throws a `TypeError` and
      lands in the outer catch as a 500. */
  function AnalyzeAsWritten(apiKey: Option<string>, form: FormData, u: Usage, today: int, recordDay: int,
                            vision: VisionReply, parse: string -> Option<JsonValue>): (r: (AnalyzeReply, Usage))
    ensures apiKey.Some? && apiKey.value != [] && form == Form(None) ==> r == (Rejected(500, InternalError), u)
    ensures r.0.Analyzed? ==> form.Form? && form.image.Some? && form.image.value.FileEntry?
    ensures !r.0.Analyzed? ==> r.1.totalUsed == u.totalUsed
  {
    if apiKey.None? || apiKey.value == [] then (Rejected(500, KeyMissingError), u)
    else if form.UnparseableForm? then (Rejected(500, InternalError), u)
    else if form.image.None? then (Rejected(500, InternalError), u)
    else AfterFileRead(apiKey.value, form.image, u, today, recordDay, vision, parse)
  }

  /** The handler with the `!file` check made before the file is read,
      which its 400 reply evidently intends. */
  function Analyze(apiKey: Option<string>, form: FormData, u: Usage, today: int, recordDay: int,
                   vision: VisionReply, parse: string -> Option<JsonValue>): (AnalyzeReply, Usage)
  {
    if apiKey.None? || apiKey.value == [] then (Rejected(500, KeyMissingError), u)
    else if form.UnparseableForm? then (Rejected(500, InternalError), u)
    else if !EntryTruthy(form.image) then (Rejected(400, MissingImageError), u)
    else AfterFileRead(apiKey.value, form.image, u, today, recordDay, vision, parse)
  }

  /** As written, a form without an image field is a 500. */
  lemma MissingImageAsWritten(apiKey: string, u: Usage, today: int, recordDay: int, vision: VisionReply, parse: string -> Option<JsonValue>)
    requires apiKey != []
    ensures AnalyzeAsWritten(Some(apiKey), Form(None), u, today, recordDay, vision, parse) == (Rejected(500, InternalError), u)
  {
  }

  /** Once the check comes first, a form without an image, or with an
      empty text field in its place, is the 400 the handler means, and the
      quota is not touched. */
  lemma MissingImageRejected(apiKey: string, image: Option<FormEntry>, u: Usage, today: int, recordDay: int,
                             vision: VisionReply, parse: string -> Option<JsonValue>)
    requires apiKey != [] && !EntryTruthy(image)
    ensures Analyze(Some(apiKey), Form(image), u, today, recordDay, vision, parse) == (Rejected(400, MissingImageError), u)
  {
  }

  /** The correction changes nothing else: whenever the form has a file,
      or non-empty text, both handlers agree, and an empty text field is a
      400 in both (as written it is caught after the quota gate, whose only
      effect on it is the daily reset). */
  lemma CorrectionIsLocal(apiKey: Option<string>, form: FormData, u: Usage, today: int, recordDay: int,
                          vision: VisionReply, parse: string -> Option<JsonValue>)
    ensures form.UnparseableForm? || EntryTruthy(form.image) ==>
      Analyze(apiKey, form, u, today, recordDay, vision, parse) == AnalyzeAsWritten(apiKey, form, u, today, recordDay, vision, parse)
    ensures apiKey.Some? && apiKey.value != [] && form == Form(Some(TextEntry(""))) ==>
      Analyze(apiKey, form, u, today, recordDay, vision, parse).0 == AnalyzeAsWritten(apiKey, form, u, today, recordDay, vision, parse).0 == Rejected(400, MissingImageError)
  {
  }

  /** Without a key nothing else is looked at and the quota is untouched. */
  lemma KeyCheckedFirst(form: FormData, u: Usage, today: int, recordDay: int, vision: VisionReply, parse: string -> Option<JsonValue>)
    ensures Analyze(None, form, u, today, recordDay, vision, parse) == (Rejected(500, KeyMissingError), u)
  {
  }

  /** The quota gate comes before the type and size checks: with the quota
      used up, even a file of the wrong type or size gets the 429, with the
      total message exactly when nothing of the total is left. */
  lemma QuotaBeforeValidation(apiKey: string, file: UploadedFile, u: Usage, today: int, recordDay: int,
                              vision: VisionReply, parse: string -> Option<JsonValue>)
    requires apiKey != []
    requires !Allows(ResetIfNeeded(u, today), EstimateTokensForImage(|file.bytes|))
    ensures var (reply, after) := Analyze(Some(apiKey), Form(Some(FileEntry(file))), u, today, recordDay, vision, parse);
      reply.QuotaExceeded? && after == ResetIfNeeded(u, today) &&
      (reply.error == TotalQuotaError <==> MaxTotalTokens - u.totalUsed <= 0)
  {
  }

  /** Tokens are recorded only after a successful analysis, and then by
      exactly the reported count, or the estimate when the count is missing
      or 0. The daily count they are added to is the gate's own when the
      date has not changed since, and a fresh one when it has. */
  lemma RecordOnlyOnSuccess(apiKey: Option<string>, form: FormData, u: Usage, today: int, recordDay: int,
                            vision: VisionReply, parse: string -> Option<JsonValue>)
    ensures var (reply, after) := Analyze(apiKey, form, u, today, recordDay, vision, parse);
      (!reply.Analyzed? ==> after.totalUsed == u.totalUsed) &&
      (reply.Analyzed? ==>
        form.Form? && form.image.Some? && form.image.value.FileEntry? &&
        after.totalUsed == u.totalUsed +
          RecordedTokens(TotalTokenCount(reply.analysis.usage), EstimateTokensForImage(|form.image.value.file.bytes|)) &&
        after.lastResetDate == recordDay &&
        after.dailyUsed == (if recordDay == today then ResetIfNeeded(u, today).dailyUsed else 0) +
          RecordedTokens(TotalTokenCount(reply.analysis.usage), EstimateTokensForImage(|form.image.value.file.bytes|)))
  {
  }

  /** POST with the corrected order of checks, on the shared quota record. */
  method Post(tracker: TokenTracker, apiKey: Option<string>, form: FormData, today: int, recordDay: int, now: int,
              vision: VisionReply, parse: string -> Option<JsonValue>) returns (reply: AnalyzeReply)
    modifies tracker
    ensures (reply, tracker.Snapshot()) == Analyze(apiKey, form, old(tracker.Snapshot()), today, recordDay, vision, parse)
  {
    if apiKey.None? || apiKey.value == [] {
      return Rejected(500, KeyMissingError);
    }
    if form.UnparseableForm? {
      return Rejected(500, InternalError);
    }
    var entry := form.image;
    if !EntryTruthy(entry) {
      return Rejected(400, MissingImageError);
    }
    var estimatedTokens := 0;
    var ok := true;
    if entry.value.FileEntry? {
      estimatedTokens := EstimateTokensForImage(|entry.value.file.bytes|);
      ok := tracker.CanUseTokens(estimatedTokens, today);
    } else {
      tracker.ResetDailyUsageIfNeeded(today);
    }
    if !ok {
      var stats := tracker.GetUsageStats(today);
      var error := if stats.remainingTotal <= 0 then TotalQuotaError else DailyQuotaError;
      return QuotaExceeded(error, stats.remainingDaily, stats.remainingTotal);
    }
    if !EntryTypeAllowed(entry.value) {
      return Rejected(400, UnsupportedFormatError);
    }
    if |entry.value.file.bytes| > MaxImageSize {
      return Rejected(400, FileTooLargeError);
    }
    var aiResponse := CallGeminiApi(apiKey.value, vision, parse);
    if aiResponse.Failure? {
      return Rejected(aiResponse.status, aiResponse.error);
    }
    var actualTokens := RecordedTokens(TotalTokenCount(aiResponse.data.usage), estimatedTokens);
    tracker.RecordTokenUsage(actualTokens, recordDay, now);
    reply := Analyzed(aiResponse.data);
  }
}
