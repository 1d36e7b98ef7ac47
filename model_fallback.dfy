/** `callGeminiAPIWithRetry`, shared by the two introduction routes: three
    models are tried in a fixed order, the first ok answer with text wins,
    every failure but the last is followed by a one-second wait, and when
    all three fail the reported error depends only on the last failure's
    message. Each model's outcome is an input; the waits are counted. */
module ModelFallback {
  import opened Json
  import opened Strings

  const Models: seq<string> := ["gemini-2.5-flash", "gemini-1.5-flash", "gemini-1.5-pro"]

  const BadFormatMessage := "返回数据格式错误"
  const OverloadedMessage := "服务繁忙，正在尝试其他模型..."
  const HttpFailurePrefix := "API请求失败: "
  const BusyError := "AI服务繁忙，请稍后再试"
  const GenericError := "生成介绍失败，请重试"

  /** What one model call came to: an ok response with the first
      candidate's text (possibly missing), a non-ok HTTP status, or an
      exception, with its message when it has one. */
  datatype Attempt =
    | Answered(text: Option<string>)
    | HttpFailure(status: nat)
    | Thrown(message: Option<string>)

  datatype RetryResult = Generated(text: string) | GaveUp(error: string)

  /** An ok response whose text is truthy. */
  predicate Succeeded(a: Attempt) {
    a.Answered? && a.text.Some? && a.text.value != []
  }

  /** The `message` of the error the loop keeps as `lastError` after a
      failed attempt: an ok response without text throws the format error,
      503 and other statuses get their own errors, and an exception is kept
      as it is. */
  function FailureMessage(a: Attempt): (m: Option<string>)
    requires !Succeeded(a)
    ensures a.Answered? ==> m == Some(BadFormatMessage)
    ensures a.Thrown? ==> m == a.message
    ensures a.HttpFailure? ==> m.Some? && (m.value == OverloadedMessage <==> a.status == 503)
  {
    match a
    case Answered(_) => Some(BadFormatMessage)
    case HttpFailure(status) =>
      if status == 503 then Some(OverloadedMessage)
      else
        assert (HttpFailurePrefix + NatToString(status))[0] != OverloadedMessage[0];
        Some(HttpFailurePrefix + NatToString(status))
    case Thrown(message) => message
  }

  /** `lastError?.message?.includes('503') || …('过载') || …('服务繁忙')`. */
  predicate SignalsBusy(message: Option<string>) {
    message.Some? &&
    (Contains(message.value, "503") || Contains(message.value, "过载") || Contains(message.value, "服务繁忙"))
  }

  function FinalError(last: Attempt): string
    requires !Succeeded(last)
  {
    if SignalsBusy(FailureMessage(last)) then BusyError else GenericError
  }

  /** The index of the first successful outcome at or after `from`. */
  function FirstSuccess(outcomes: seq<Attempt>, from: nat): (r: Option<nat>)
    ensures r.Some? ==>
      from <= r.value < |outcomes| && Succeeded(outcomes[r.value]) &&
      forall j :: from <= j < r.value ==> !Succeeded(outcomes[j])
    ensures r.None? ==> forall j :: from <= j < |outcomes| ==> !Succeeded(outcomes[j])
    decreases |outcomes| - from
  {
    if from >= |outcomes| then None
    else if Succeeded(outcomes[from]) then Some(from)
    else FirstSuccess(outcomes, from + 1)
  }

  /** The retry loop over the outcomes of the three models. When some
      model succeeds, the first one's text is the result, exactly the
      models up to it were called, and one wait followed each earlier
      failure. Otherwise all three were called, two waits were made, and
      the error is the busy one exactly when the last failure's message
      mentions 503, 过载 or 服务繁忙. */
  method CallWithRetry(outcomes: seq<Attempt>) returns (result: RetryResult, calls: nat, waits: nat)
    requires |outcomes| == |Models|
    ensures FirstSuccess(outcomes, 0).Some? ==>
      var i := FirstSuccess(outcomes, 0).value;
      result == Generated(outcomes[i].text.value) && calls == i + 1 && waits == i
    ensures FirstSuccess(outcomes, 0).None? ==>
      result == GaveUp(FinalError(outcomes[|outcomes| - 1])) && calls == |Models| && waits == |Models| - 1
  {
    var lastMessage: Option<string> := None;
    calls := 0;
    waits := 0;
    var modelIndex := 0;
    while modelIndex < |Models|
      invariant 0 <= modelIndex <= |Models|
      invariant calls == modelIndex
      invariant waits == if modelIndex < |Models| then modelIndex else |Models| - 1
      invariant forall j :: 0 <= j < modelIndex ==> !Succeeded(outcomes[j])
      invariant modelIndex > 0 ==> lastMessage == FailureMessage(outcomes[modelIndex - 1])
    {
      calls := calls + 1;
      match outcomes[modelIndex] {
        case Answered(text) =>
          if text.Some? && text.value != [] {
            return Generated(text.value), calls, waits;
          }
          lastMessage := Some(BadFormatMessage);
        case HttpFailure(status) =>
          if status == 503 {
            lastMessage := Some(OverloadedMessage);
          } else {
            lastMessage := Some(HttpFailurePrefix + NatToString(status));
          }
        case Thrown(message) =>
          lastMessage := message;
      }
      if modelIndex < |Models| - 1 {
        waits := waits + 1;
      }
      modelIndex := modelIndex + 1;
    }
    if SignalsBusy(lastMessage) {
      result := GaveUp(BusyError);
    } else {
      result := GaveUp(GenericError);
    }
  }

  /** How the final error reads the last failure: a 503 or an exception
      mentioning 503, 过载 or 服务繁忙 gives the busy error; an answer
      without text, an exception without a message, and any other
      three-digit status give the generic one. */
  lemma FinalErrorCases(last: Attempt)
    requires !Succeeded(last)
    ensures last == HttpFailure(503) ==> FinalError(last) == BusyError
    ensures last.HttpFailure? && 100 <= last.status <= 999 && last.status != 503 ==> FinalError(last) == GenericError
    ensures last.Answered? ==> FinalError(last) == GenericError
    ensures last == Thrown(None) ==> FinalError(last) == GenericError
  {
    if last == HttpFailure(503) {
      assert OccursAt(OverloadedMessage, "服务繁忙", 0);
    } else if last.HttpFailure? && 100 <= last.status <= 999 {
      StatusMessageNotBusy(last.status);
    } else if last.Answered? {
      NoBusyWordIn(BadFormatMessage);
    }
  }

  /** No busy keyword can start inside a text without '5', '过' or '服'. */
  lemma NoBusyWordIn(s: string)
    requires '5' !in s && '过' !in s && '服' !in s
    ensures !Contains(s, "503") && !Contains(s, "过载") && !Contains(s, "服务繁忙")
  {
    NotContainsWithoutHead(s, "503");
    NotContainsWithoutHead(s, "过载");
    NotContainsWithoutHead(s, "服务繁忙");
  }

  /** The error kept for a three-digit status other than 503 does not
      signal busy: its prefix holds no keyword's first character, and its
      three digits are "503" only for 503. */
  lemma StatusMessageNotBusy(status: nat)
    requires 100 <= status <= 999 && status != 503
    ensures !SignalsBusy(Some(HttpFailurePrefix + NatToString(status)))
  {
    var digits := NatToString(status);
    NatToStringThreeDigits(status);
    ContainsAfterPrefix(HttpFailurePrefix, digits, "503");
    ContainsAfterPrefix(HttpFailurePrefix, digits, "过载");
    ContainsAfterPrefix(HttpFailurePrefix, digits, "服务繁忙");
    if Contains(digits, "503") {
      assert FindFrom(digits, "503", 0) == 0;
      assert digits == "503";
      assert NatToString(503) == "503";
      NatToStringInjective(status, 503);
    }
    NotContainsWithoutHead(digits, "过载");
    NotContainsWithoutHead(digits, "服务繁忙");
  }
}
