/** The speech endpoint stand-in: it checks the text, estimates how long
    reading it aloud takes (four characters a second) and points at the
    mock audio file; its GET answers an empty audio response. */
module GenerateAudioRoute {
  import opened Json
  import opened Strings
  import opened MockAudioRoute

  const MissingTextError := "缺少文本内容"
  const AudioFailedError := "生成音频失败"
  const MockAudioUrl := "/api/mock-audio"

  /** `duration` is `None` where `Math.ceil` gives `NaN` (serialised as
      `null`): the text has no `length`. */
  datatype AudioInfo = AudioInfo(audioUrl: string, duration: Option<int>, text: JsonValue)

  /** `Math.ceil(length / 4)`. */
  function EstimatedDuration(length: nat): (seconds: nat)
    ensures 4 * seconds >= length
    ensures seconds == 0 || 4 * (seconds - 1) < length
  {
    (length + 3) / 4
  }

  /** The estimate is the least number of whole seconds that covers the
      text at four characters a second, and a longer text never gets a
      shorter estimate. */
  lemma EstimateIsLeast(length: nat, seconds: nat)
    requires 4 * seconds >= length
    ensures EstimatedDuration(length) <= seconds
  {
  }

  lemma EstimateMonotone(m: nat, n: nat)
    requires m <= n
    ensures EstimatedDuration(m) <= EstimatedDuration(n)
  {
    EstimateIsLeast(m, EstimatedDuration(n));
  }

  /** `text.length`: a string's length, an array's element count, and
      nothing for the other values. */
  function Length(v: JsonValue): Option<nat> {
    match v
    case JString(s) => Some(|s|)
    case JArray(items) => Some(|items|)
    case _ => None
  }

  /** POST: a body that cannot be destructured throws into the 500 reply; a
      falsy `text` is refused; anything else is echoed with the estimate. */
  function Post(body: Body): (reply: Reply<AudioInfo>)
    ensures !Destructurable(body) ==> reply == Failure(500, AudioFailedError)
    ensures Destructurable(body) && !Truthy(Field(body, "text")) ==> reply == Failure(400, MissingTextError)
    ensures reply.Success? <==> Destructurable(body) && Truthy(Field(body, "text"))
    ensures reply.Success? ==>
      reply.data.audioUrl == MockAudioUrl && Some(reply.data.text) == Field(body, "text") &&
      (Field(body, "text").value.JString? ==>
        var n := |Field(body, "text").value.s|;
        reply.data.duration.Some? && 4 * reply.data.duration.value >= n && 4 * (reply.data.duration.value - 1) < n)
  {
    if !Destructurable(body) then Failure(500, AudioFailedError)
    else
      var text := Field(body, "text");
      if !Truthy(text) then Failure(400, MissingTextError)
      else
        var duration := match Length(text.value)
          case None => None
          case Some(n) => Some(EstimatedDuration(n) as int);
        Success(AudioInfo(MockAudioUrl, duration, text.value))
  }

  /** GET: an empty `audio/mpeg` body whose `Content-Length` says so. */
  function Get(): (response: AudioResponse)
    ensures response.status == 200 && response.body == []
    ensures AllDigits(response.contentLength) && ParseDigits(response.contentLength) == |response.body|
  {
    AudioResponse(200, "audio/mpeg", "0", [])
  }
}
