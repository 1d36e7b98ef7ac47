# A Dafny model of the landmark-recognition web app

The application lets a visitor upload a photo of a landmark. A Google Gemini
model identifies the place and writes an introduction to it. The visitor
can then chat about the place, listen to a (mock) reading of the text,
share the result and switch the interface language. This project models the
server-side and client-side logic that decides what those features answer,
and proves properties of it:

- the total and daily token quota (`TokenManager`) and the in-memory
  image store with its seven-day sweep (`ImageStore`);
- the API routes:
  - image upload (`UploadImageRoute`) and image analysis
    (`AnalyzeImageRoute`)
  - shares (`ShareRoute`) and chat (`ChatRoute`)
  - introduction generation, whole (`GenerateIntroductionRoute`) and
    streamed as server-sent events (`GenerateIntroductionStreamRoute`), with
    their shared model-fallback loop (`ModelFallback`) and location summary
    (`LocationInfo`)
  - the speech stand-in (`GenerateAudioRoute`) and the silent WAV it points
    to (`MockAudioRoute`);
- the Markdown-to-plain-text cleanup applied to chat answers
  (`MarkdownUtils`);
- three client pieces:
  - the text the result card copies (`LocationResult`)
  - the locale detection hook (`GeoLocation`)
  - the language menu's path rewrite (`LanguageSwitcher`).

Two helper modules support them. `Json` describes the JSON values the
routes read and write: JavaScript truthiness, property access,
destructuring, `JSON.stringify` rendering and string escaping. `Strings`
holds the JavaScript string operations the code uses: `trim`, `includes`,
`split`/`join`, `startsWith` and decimal rendering.

The model follows the code's own form. State the code mutates becomes a
Dafny class whose methods state the whole new state:

- the token tracker, the image map and the share map;
- the geolocation hook's state and the language menu's state.

Loops in the code become methods with loop invariants, proved against
specification functions:

- the model-fallback loop;
- the chat history `forEach`;
- the streaming loop over characters;
- the sweeps over the two maps.

Straight-line code that builds its result by updating state step by step
becomes a method whose contract states the final state:
`formatLocationText`'s pushes onto its list of parts, and the WAV header
writes into a `Buffer` (an `array`).

Pure code becomes functions and lemmas, such as the Markdown passes, the
paragraph split and the locale rules.

Everything outside the program is a parameter:

- the clock;
- environment variables;
- request bodies;
- upstream Gemini responses;
- generated ids;
- `localStorage`;
- the browser language.

One ordering fact of the Markdown cleanup deserves mention. The link pass
runs before the image pass, so `![alt](url)` with a non-empty `alt` becomes
`!alt` rather than `alt` (`MarkdownUtils.ImageBecomesBangAlt`).

## Model

| member | source | states |
|---|---|---|
| TokenManager.TokenTracker.constructor | src/lib/token-manager.ts:12-17 | the record at start has nothing used, today as its reset date and now as its update stamp |
| TokenManager.TokenTracker.ResetDailyUsageIfNeeded | src/lib/token-manager.ts:78-85 | on a new date the daily counter restarts at zero and the reset date becomes today; the total and the stamp are untouched |
| TokenManager.TokenTracker.CanUseTokens | src/lib/token-manager.ts:25-39 | after the reset, the answer is true exactly when neither the total nor the daily counter would pass its ceiling (landing on it is allowed); the reset is the only change |
| TokenManager.TokenTracker.RecordTokenUsage | src/lib/token-manager.ts:44-50 | after the reset both counters grow by exactly the amount, with no ceiling check, and the stamp becomes now |
| TokenManager.TokenTracker.GetUsageStats | src/lib/token-manager.ts:55-73 | after the reset the statistics are the counters, the two ceilings and what is left under each |
| TokenManager.ResetProperties | src/lib/token-manager.ts:78-85 | the reset never touches the total, zeroes the daily counter exactly when the date changed, makes today the reset date, and a second reset the same day does nothing |
| TokenManager.AllowsIffWithinRemaining | src/lib/token-manager.ts:29-36 | the gate allows an amount exactly when it fits in both remaining amounts the statistics report |
| TokenManager.AllowedRecordStaysWithinLimits | src/lib/token-manager.ts:29-48 | recording an amount the gate allowed keeps both counters within their ceilings |
| TokenManager.RecordAllWithinDay | src/lib/token-manager.ts:44-50 | within one day a series of recordings grows both counters by the sum of the amounts |
| TokenManager.CountersAreSumsFromStart | src/lib/token-manager.ts:12-17 | from the initial record each counter is the sum of the amounts recorded that day |
| TokenManager.EstimateTokensForImage | src/lib/token-manager.ts:91-98 | the estimate is 2300 plus 300 for each started mebibyte of the file, so exactly 2300 for an empty file |
| TokenManager.EstimateMonotone | src/lib/token-manager.ts:91-98 | a larger file never gets a smaller estimate |
| ImageStore.ImageStorage.constructor | src/lib/image-storage.ts:12 | the store starts empty |
| ImageStore.ImageStorage.Store | src/lib/image-storage.ts:15-22 | the id is mapped to the bytes, type, name and upload time, replacing any earlier entry, and nothing else changes |
| ImageStore.ImageStorage.Get | src/lib/image-storage.ts:25-27 | the entry stored under the id, or none |
| ImageStore.ImageStorage.Exists | src/lib/image-storage.ts:30-32 | true exactly when an entry is stored under the id |
| ImageStore.ImageStorage.Delete | src/lib/image-storage.ts:35-37 | true exactly when the id was present; the id is gone afterwards and every other entry stays |
| ImageStore.ImageStorage.Cleanup | src/lib/image-storage.ts:40-54 | removes exactly the entries older than seven days and returns how many it removed |
| ImageStore.ImageStorage.GetStats | src/lib/image-storage.ts:57-71 | the number of entries and the total length of their buffers |
| ImageStore.LookupAfterStore | src/lib/image-storage.ts:15-27 | after a store the id reads back the new entry and every other id reads what it read before |
| ImageStore.LookupAfterDelete | src/lib/image-storage.ts:25-37 | after a delete the id reads as absent and every other id is unchanged |
| ImageStore.SweepProperties | src/lib/image-storage.ts:40-54 | a sweep keeps an entry exactly when it is at most seven days old, and a second sweep at the same time removes nothing |
| ImageStore.SweepCount | src/lib/image-storage.ts:43-53 | the count a sweep reports is the drop in the number of entries |
| ImageStore.TotalSizeRemove | src/lib/image-storage.ts:59-64 | the total size is any one entry's size plus the total of the others, which the summing loop relies on |
| ShareRoute.BaseUrl | src/app/api/share/route.ts:54-70 | the configured base URL when set; else protocol and host from the headers, the protocol defaulting to https; else the local default |
| ShareRoute.BaseUrlPrecedence | src/app/api/share/route.ts:54-70 | a host without a forwarded protocol gives an https link, and the configured URL wins over any header |
| ShareRoute.ShareStore.constructor | src/app/api/share/route.ts:6 | the share map starts empty |
| ShareRoute.ShareStore.CleanupExpiredShares | src/app/api/share/route.ts:9-16 | deletes exactly the shares whose expiry lies before now |
| ShareRoute.ShareStore.Post | src/app/api/share/route.ts:18-91 | a body that is not JSON is a 500 and a missing location a 400, both leaving the store alone; otherwise the store is swept, the new share stored to expire 48 hours later, and the reply carries its link and expiry |
| ShareRoute.ShareStore.Get | src/app/api/share/route.ts:93-130 | a missing id is a 400 leaving the store alone; otherwise the store is swept and the id looked up in what is left, 404 when absent |
| ShareRoute.SweepProperties | src/app/api/share/route.ts:9-16 | a share is kept exactly when its expiry is not before now, and sweeping twice is sweeping once |
| ShareRoute.FetchAfterSweep | src/app/api/share/route.ts:105-116 | a share found after the sweep is the stored one and has not expired, and one that expired is not found even if it was still stored |
| ShareRoute.CreatedShareReadable | src/app/api/share/route.ts:36-51 | a share is found by any fetch up to 48 hours after its creation, with its id and with its location data carrying the id |
| Json.SpreadWith | src/app/api/share/route.ts:42-45 | the spread object has the added key set, keeps every other spread field, and has no other keys |
| Json.Indexed | src/app/api/share/route.ts:42-45 | spreading an array or string gives each element under its decimal index |
| Json.EscapeChar | src/app/api/generate-introduction-stream/route.ts:166 | each character is written as itself or as an escape beginning with a backslash |
| Json.EscapeHasNoControl | src/app/api/generate-introduction-stream/route.ts:166 | no character below U+0020 survives, so an event stays on one line, and a double quote appears only after a backslash |
| Json.UnescapeEscape | src/app/api/generate-introduction-stream/route.ts:166 | unescaping the escaped text gives the text back |
| Json.AsciiLower | src/app/api/generate-introduction/route.ts:191 | lower-casing keeps the length and changes only the letters A to Z, each to its lower-case letter |
| ModelFallback.FailureMessage | src/app/api/generate-introduction/route.ts:42-90 | an answer without text keeps the format error, an exception its own message, and an HTTP failure a message that is the overload one exactly for 503 |
| ModelFallback.FirstSuccess | src/app/api/generate-introduction/route.ts:19-53 | the first index whose outcome succeeded, every earlier one having failed; none when all failed |
| ModelFallback.CallWithRetry | src/app/api/generate-introduction/route.ts:15-101 | the first successful model's text, with the models up to it called and one wait per earlier failure; otherwise all three called, two waits, and the final error made from the last failure |
| ModelFallback.FinalErrorCases | src/app/api/generate-introduction/route.ts:93-100 | a last failure of 503 gives the busy error; another three-digit status, an answer without text or an exception without a message give the generic one |
| ModelFallback.StatusMessageNotBusy | src/app/api/generate-introduction/route.ts:67-98 | the error kept for a three-digit status other than 503 does not signal busy |
| GenerateIntroductionRoute.TrimmedNonBlank | src/app/api/generate-introduction/route.ts:163-168 | every kept text is non-empty and trimmed, and there are no more of them than pieces |
| GenerateIntroductionRoute.TrimmedNonBlankMembers | src/app/api/generate-introduction/route.ts:163-168 | a text is kept exactly when it is the trim of a piece that is not all white space |
| GenerateIntroductionRoute.Paragraphs | src/app/api/generate-introduction/route.ts:163-172 | paragraph i has id i and the i-th kept text, non-empty and trimmed, with both times 0 and not active |
| GenerateIntroductionRoute.EveryNonBlankPieceKept | src/app/api/generate-introduction/route.ts:163-172 | the trim of every non-blank piece between blank lines is some paragraph's text |
| GenerateIntroductionRoute.SingleParagraph | src/app/api/generate-introduction/route.ts:163-165 | text without a blank line is one paragraph, or none when it is blank |
| GenerateIntroductionRoute.FirstParagraphThenRest | src/app/api/generate-introduction/route.ts:163-168 | the first piece's paragraph, when not blank, comes before the rest's paragraphs, in order |
| GenerateIntroductionRoute.SplitAtFirstBreak | src/app/api/generate-introduction/route.ts:164 | the split happens at the first blank line |
| GenerateIntroductionRoute.FriendlyBusyAgreesWithRetry | src/app/api/generate-introduction/route.ts:188-197 | the catch block's busy test after lower-casing holds exactly when the retry loop's busy test holds |
| GenerateIntroductionRoute.Post | src/app/api/generate-introduction/route.ts:103-204 | no key is a 500, an unreadable or null body a 500 with the friendly message for its error and a missing location a 400, all before any model call; otherwise the prompt holds the location summary and the reply is the first success's cleaned text with its paragraphs, or the fallback's error with 500 |
| GenerateIntroductionStreamRoute.ChunksConcat | src/app/api/generate-introduction-stream/route.ts:157-164 | the chunks put back together are the text |
| GenerateIntroductionStreamRoute.ChunkSizes | src/app/api/generate-introduction-stream/route.ts:157-164 | there are ceil(length / 3) chunks of one to three characters, all but the last of exactly three |
| GenerateIntroductionStreamRoute.EventRoundTrip | src/app/api/generate-introduction-stream/route.ts:166 | a content event reads back as its chunk |
| GenerateIntroductionStreamRoute.DoneIsNotContent | src/app/api/generate-introduction-stream/route.ts:172 | the end marker is not a content event |
| GenerateIntroductionStreamRoute.EventsCarryChunks | src/app/api/generate-introduction-stream/route.ts:163-170 | one event per chunk, each reading back as its chunk |
| GenerateIntroductionStreamRoute.StreamEvents | src/app/api/generate-introduction-stream/route.ts:160-173 | the loop emits one content event per three-character chunk, in order, then the end marker |
| GenerateIntroductionStreamRoute.Post | src/app/api/generate-introduction-stream/route.ts:103-208 | the plain route's checks with plain-text replies; success streams the events of the first successful text, failure answers the fallback's error with 500 |
| GenerateIntroductionStreamRoute.StreamCarriesText | src/app/api/generate-introduction-stream/route.ts:155-173 | every event before the end marker is a content event, and their contents joined are the generated text |
| LocationInfo.Line | src/app/api/generate-introduction/route.ts:126-130 | a field's line exists exactly when the field is truthy, and then starts with its label |
| LocationInfo.CoordinatesLine | src/app/api/generate-introduction/route.ts:131 | the coordinates line exists exactly when both coordinates are truthy, and starts with its label |
| LocationInfo.KeptMembers | src/app/api/generate-introduction/route.ts:132 | a line is kept exactly when some candidate holds it |
| LocationInfo.KeptAppend | src/app/api/generate-introduction/route.ts:132 | filtering a concatenation concatenates the filtered parts |
| LocationInfo.KeptInOrder | src/app/api/generate-introduction/route.ts:125-132 | a present candidate before another is output before it |
| LocationInfo.JoinEmptyIff | src/app/api/generate-introduction/route.ts:132 | joining non-empty lines gives the empty text exactly when there are none |
| LocationInfo.DescribeEmptyIff | src/app/api/generate-introduction/route.ts:125-132 | the summary is empty exactly when no field is truthy |
| LocationInfo.LinePresentIff | src/app/api/generate-introduction/route.ts:125-132 | each slot's line appears exactly when its field (both, for the coordinates) is truthy; the introduction line only where it is a candidate |
| LocationResult.PushIfTruthy | src/components/LocationResult.tsx:43-47 | the line is appended exactly when the field is truthy, which is what the filter keeps of that candidate |
| LocationResult.FormatLocationText | src/components/LocationResult.tsx:41-52 | the copy text is the shared location summary with the card's place label and no introduction line |
| LocationResult.KeptSlotBySlot | src/components/LocationResult.tsx:43-50 | filtering the six candidates is keeping each slot's line in turn |
| AnalyzeImageRoute.StatusMessageShape | src/app/api/analyze-image/route.ts:150-165 | every status message starts with its class's title and ends with the upstream error text |
| AnalyzeImageRoute.ClassifyCases | src/app/api/analyze-image/route.ts:155-165 | 401, 403 and 429 each have their own class, every status from 500 up is a server error, and anything else a plain request failure |
| AnalyzeImageRoute.FenceGroup | src/app/api/analyze-image/route.ts:181 | a match starts after the first fence, its optional json tag and white space, and ends at the next fence with no fence inside; no match means no second fence |
| AnalyzeImageRoute.JsonContentCases | src/app/api/analyze-image/route.ts:178-184 | an answer without a fence is parsed as it is; a fenced one is parsed trimmed and shorter |
| AnalyzeImageRoute.ExtractCases | src/app/api/analyze-image/route.ts:186-218 | from a parsed object each of the seven fields is its own entry, present exactly when the object has it; a parse that is neither an object nor null leaves all seven undefined; when parsing fails or gives null the location is the raw answer, fences included, and the other six are null |
| AnalyzeImageRoute.AnswerAlwaysSucceeds | src/app/api/analyze-image/route.ts:172-218 | once the key has passed, a missing or empty answer is the fixed failure; any other answer succeeds, parsed or not, and carries the model's usage record as it came |
| AnalyzeImageRoute.TotalTokenCount | src/app/api/analyze-image/route.ts:82 | `usage?.totalTokenCount` is absent when there is no usage record or no such entry, and present only for a number entry |
| AnalyzeImageRoute.TokenCountRead | src/app/api/analyze-image/route.ts:82 | a usage record whose totalTokenCount entry is the number k reads back as k |
| AnalyzeImageRoute.RecordedTokens | src/app/api/analyze-image/route.ts:83 | the reported token count when it is positive, otherwise the estimate |
| AnalyzeImageRoute.MissingImageAsWritten | src/app/api/analyze-image/route.ts:25-46 | as written, a form without an image field gets a 500, not the missing-image 400 |
| AnalyzeImageRoute.MissingImageRejected | src/app/api/analyze-image/route.ts:46-51 | with the check first, a form without an image gets the missing-image 400 and the quota is untouched |
| AnalyzeImageRoute.CorrectionIsLocal | src/app/api/analyze-image/route.ts:25-51 | the corrected handler agrees with the code on every form with a file or non-empty text, and both refuse an empty text field with 400 |
| AnalyzeImageRoute.KeyCheckedFirst | src/app/api/analyze-image/route.ts:10-21 | without a key the reply is the key error and the quota is untouched |
| AnalyzeImageRoute.QuotaBeforeValidation | src/app/api/analyze-image/route.ts:31-44 | when the estimate does not fit the remaining quota, any file, whatever its type or size, gets the 429 with only the daily reset applied, and the total-quota message exactly when nothing of the total is left |
| AnalyzeImageRoute.RecordOnlyOnSuccess | src/app/api/analyze-image/route.ts:77-84 | the total grows only after a successful analysis, and then by the recorded token count; the daily count then belongs to the day read at recording time, continuing the gate's count when the day has not changed and starting afresh when it has |
| AnalyzeImageRoute.Post | src/app/api/analyze-image/route.ts:7-103 | the reply and the new quota record are those of the handler with the missing-image check moved first, the gate reading the day once and the recording reading it again |
| AnalyzeImageRoute.AnalyzeAsWritten | src/app/api/analyze-image/route.ts:7-103 | the handler in its original order: a form without an image field is a 500; only an uploaded file can be analyzed; the total is unchanged unless the analysis succeeds (with MissingImageAsWritten and CorrectionIsLocal) |
| AnalyzeImageRoute.CallGeminiApi | src/app/api/analyze-image/route.ts:105-231 | an unusable key is the fixed 500 before anything else; every failure is a 500; it succeeds exactly when the key is usable and the answer is present and non-empty, and then carries the extracted fields and the model's whole usage record |
| AnalyzeImageRoute.UpstreamReply | src/app/api/analyze-image/route.ts:150-231 | once the key has passed: every failure is a 500, success exactly for a present non-empty answer, carrying the extracted fields and the model's whole usage record |
| UploadImageRoute.Post | src/app/api/upload-image/route.ts:5-87 | a rejected form stores nothing and gets its error; an accepted file is stored under the new id with its type, name and time, and the reply carries the link, the id plus extension, the size and the type |
| UploadImageRoute.RejectionOrder | src/app/api/upload-image/route.ts:10-33 | a missing file is reported before its type and a wrong type before the size; a file of exactly 10 MiB passes |
| UploadImageRoute.AfterLastDotIsTextAfterLastDot | src/app/api/upload-image/route.ts:39 | the last piece of the split is a dot-free suffix preceded by a dot when the name has one, and the whole name when it has none |
| UploadImageRoute.ExtensionShape | src/app/api/upload-image/route.ts:39-40 | the extension is never empty and has no dot; it is jpg when nothing follows the last dot |
| ChatRoute.HistoryFailsIffNull | src/app/api/chat/route.ts:47-52 | rendering the history throws exactly when one entry is null |
| ChatRoute.HistoryAppend | src/app/api/chat/route.ts:47-52 | the history of two runs of turns is the first's followed by the second's |
| ChatRoute.AppendTurns | src/app/api/chat/route.ts:47-52 | the forEach appends every turn's rendering to the text, failing exactly when the history throws |
| ChatRoute.ConversationShape | src/app/api/chat/route.ts:44-55 | the prompt opens with the fixed instructions and ends with the new question |
| ChatRoute.LocationContextCases | src/app/api/chat/route.ts:28-41 | without a location the prompt has no location section; with one, the heading followed by the summary with the introduction |
| ChatRoute.BuildPrompt | src/app/api/chat/route.ts:28-55 | the prompt built step by step is the conversation text, or a failure when the history throws |
| ChatRoute.Post | src/app/api/chat/route.ts:6-111 | no key, an unreadable body, a falsy message or a null history entry are refused without calling the model; otherwise the model is asked the prompt; a truthy string answer comes back cleaned of Markdown, and a failed call, a falsy answer or a non-string answer is a 500 |
| MarkdownUtils.RemoveCodeBlocks | src/lib/markdown-utils.ts:11 | every character of the result occurs in the input |
| MarkdownUtils.CodeBlockDeleted | src/lib/markdown-utils.ts:11 | a complete fenced block is deleted with its fences, and the text before it is kept |
| MarkdownUtils.Unwrap | src/lib/markdown-utils.ts:12-24 | every character of the result occurs in the input |
| MarkdownUtils.InlineCodeStripped | src/lib/markdown-utils.ts:12 | inline code `` `x` `` becomes x, and the text before it is kept |
| MarkdownUtils.Unwrapped | src/lib/markdown-utils.ts:18-24 | delimiter, text, delimiter becomes the text, and the text before it is kept |
| MarkdownUtils.UnwrappedAtStart | src/lib/markdown-utils.ts:18-24 | a wrapped text at the start becomes the text |
| MarkdownUtils.UnwrapPrefix | src/lib/markdown-utils.ts:12-24 | text without the delimiter's character is copied as is |
| MarkdownUtils.Links | src/lib/markdown-utils.ts:27-28 | every character of the result occurs in the input |
| MarkdownUtils.LinkTextKept | src/lib/markdown-utils.ts:27 | a link `[t](u)` becomes its text t, and the text before it is kept |
| MarkdownUtils.RefLinkTextKept | src/lib/markdown-utils.ts:28 | a reference link `[t][ref]` becomes its text t, and the text before it is kept |
| MarkdownUtils.NoBracketUnchanged | src/lib/markdown-utils.ts:27-31 | text without a bracket passes the link and image passes unchanged |
| MarkdownUtils.Images | src/lib/markdown-utils.ts:31 | every character of the result occurs in the input |
| MarkdownUtils.ImageAltKept | src/lib/markdown-utils.ts:31 | the image pass alone turns `![alt](u)` into alt, even for an empty alt, and keeps the text before it |
| MarkdownUtils.ImageBecomesBangAlt | src/lib/markdown-utils.ts:27-31 | because links are removed first, an image with alt text becomes "!" followed by the alt text |
| MarkdownUtils.AnchoredPass | src/lib/markdown-utils.ts:15-45 | every character of the result occurs in the input or in the replacement |
| MarkdownUtils.CopyLine | src/lib/markdown-utils.ts:15-45 | away from a line start nothing is replaced: the rest of the line and its line feed are copied |
| MarkdownUtils.MarkerReplaced | src/lib/markdown-utils.ts:15-45 | a line whose marker the pattern matches has the marker replaced and the rest of the line kept |
| MarkdownUtils.HeadingStripped | src/lib/markdown-utils.ts:15 | a line of one to six `#`, a space and its text becomes the text |
| MarkdownUtils.QuoteStripped | src/lib/markdown-utils.ts:34 | a line `> t` becomes t |
| MarkdownUtils.BulletMarked | src/lib/markdown-utils.ts:37 | a line `- t`, `* t` or `+ t` becomes `• t` |
| MarkdownUtils.NumberedStripped | src/lib/markdown-utils.ts:38 | a line of digits, a dot, a space and its text becomes the text |
| MarkdownUtils.RuleRemoved | src/lib/markdown-utils.ts:41 | a line of three or more `-`, `*` or `_` becomes empty and its line feed stays |
| MarkdownUtils.Bars | src/lib/markdown-utils.ts:44 | each bar becomes a space in its place and every other character stays; no bar is left, and text without bars is unchanged |
| MarkdownUtils.TableRuleRemoved | src/lib/markdown-utils.ts:45 | a table separator line of dashes, blanks, bars and colons becomes empty and its line feed stays |
| MarkdownUtils.BlankLines | src/lib/markdown-utils.ts:48 | no three line feeds are left in a row, and text without three in a row is unchanged; every character occurs in the input, and a text not opening with a line feed keeps its first character |
| MarkdownUtils.BlankRunCollapsed | src/lib/markdown-utils.ts:48 | a run of three or more line feeds between two stretches of text becomes exactly two, and the text before it is kept |
| MarkdownUtils.BlankLinesPrefix | src/lib/markdown-utils.ts:48 | a stretch without three line feeds in a row that does not end in one is copied, whatever follows it |
| MarkdownUtils.BlankLinesLeaveNoTriple | src/lib/markdown-utils.ts:48 | the result never contains three line feeds in a row |
| MarkdownUtils.EdgeBlanks | src/lib/markdown-utils.ts:51 | only spaces and tabs are removed: the other characters stay, in order; no line of the result ends with a space or tab, none starts with one after a line break, and at the start of the text the first character is not one; text whose lines have clean edges is unchanged |
| MarkdownUtils.EdgeBlanksLine | src/lib/markdown-utils.ts:51 | a line of blanks, text and blanks becomes the text, blanks inside it included |
| MarkdownUtils.TextThenBlanks | src/lib/markdown-utils.ts:51 | text ending in a non-blank followed by blanks to the end becomes the text |
| MarkdownUtils.BlanksVanish | src/lib/markdown-utils.ts:51 | blanks alone, away from a line start, disappear |
| MarkdownUtils.EdgeBlanksNoTriple | src/lib/markdown-utils.ts:51 | on a text without lines of blanks only, three line feeds in a row after the pass were three in a row before it |
| MarkdownUtils.TableRuleClears | src/lib/markdown-utils.ts:45 | after the table-rule pass no line consists of blanks only |
| MarkdownUtils.BlankLinesKeepLines | src/lib/markdown-utils.ts:48 | the blank-line pass creates no line of blanks only |
| MarkdownUtils.StripInline | src/lib/markdown-utils.ts:10-31 | after the code, heading, emphasis, link and image passes every character occurs in the input |
| MarkdownUtils.StripLineMarks | src/lib/markdown-utils.ts:33-41 | the quote, list and rule passes add only the bullet and the space |
| MarkdownUtils.CleanSpacing | src/lib/markdown-utils.ts:43-51 | no table bar is left, no line starts or ends with a space or tab, no three line feeds stand in a row, and only spaces are added |
| MarkdownUtils.TrimKeeps | src/lib/markdown-utils.ts:54 | trimming keeps the absence of bars and of blanks at the line edges |
| MarkdownUtils.MarkdownToPlainText | src/lib/markdown-utils.ts:5-57 | the plain text is trimmed, has no table bar, no line starting or ending with a space or tab, never three line feeds in a row, adds only bullets and spaces, and is empty for an empty input |
| MarkdownUtils.PlainTextKept | src/lib/markdown-utils.ts:5-57 | text without Markdown (no markup character, no digit before a dot, every line opening with text, no blank at a line end) comes back only trimmed |
| MarkdownUtils.LineStartNoMatch | src/lib/markdown-utils.ts:15-45 | at a line start of such text none of the six line patterns matches |
| MarkdownUtils.AnchoredPassCopies | src/lib/markdown-utils.ts:15-45 | an anchored pass whose pattern matches at no line start copies the text |
| MarkdownUtils.ReplaceBySelf | src/lib/markdown-utils.ts:66 | replacing a pattern by itself changes nothing |
| MarkdownUtils.FormatChatAnswer | src/lib/markdown-utils.ts:62-67 | the chat answer is exactly the plain-text conversion |
| MockAudioRoute.LittleEndianRoundTrip | src/app/api/mock-audio/route.ts:21-36 | a value that fits, written little-endian, reads back as itself |
| MockAudioRoute.WavLength | src/app/api/mock-audio/route.ts:8-16 | the file is the 44 header bytes plus two bytes per sample |
| MockAudioRoute.WavTags | src/app/api/mock-audio/route.ts:20-35 | the RIFF, WAVE, fmt and data tags sit at bytes 0, 8, 12 and 36 |
| MockAudioRoute.WavFields | src/app/api/mock-audio/route.ts:8-36 | the header fields read back as the RIFF size, 16, PCM, mono, the sample and byte rates, the block align, 16 bits and the data size |
| MockAudioRoute.WavSilent | src/app/api/mock-audio/route.ts:39 | every sample byte is zero |
| MockAudioRoute.Put | src/app/api/mock-audio/route.ts:20-36 | the bytes land at the offset and the rest of the buffer is unchanged |
| MockAudioRoute.FillZero | src/app/api/mock-audio/route.ts:39 | everything from the offset becomes zero and what is before it is unchanged |
| MockAudioRoute.CreateSilentWav | src/app/api/mock-audio/route.ts:7-42 | the buffer written field by field is the specified WAV file |
| MockAudioRoute.Get | src/app/api/mock-audio/route.ts:44-56 | thirty seconds of silence as audio/wav, with a Content-Length that reads back as the body's length |
| GenerateAudioRoute.EstimatedDuration | src/app/api/generate-audio/route.ts:26 | the estimate covers the text at four characters a second, and one second less would not |
| GenerateAudioRoute.EstimateIsLeast | src/app/api/generate-audio/route.ts:26 | no smaller whole number of seconds covers the text |
| GenerateAudioRoute.EstimateMonotone | src/app/api/generate-audio/route.ts:26 | a longer text never gets a shorter estimate |
| GenerateAudioRoute.Post | src/app/api/generate-audio/route.ts:3-44 | an unreadable body is a 500 and a falsy text a 400; otherwise the reply echoes the text with the mock audio URL and, for a string, the rounded-up estimate |
| GenerateAudioRoute.Get | src/app/api/generate-audio/route.ts:47-57 | an empty audio body whose Content-Length reads back as 0 |
| GeoLocation.LocaleOfTag | src/hooks/useGeoLocation.ts:43 | each supported locale is recognised from its tag |
| GeoLocation.LocaleForCountryCases | src/hooks/useGeoLocation.ts:16-31 | Chinese exactly for CN, TW, HK, MO and SG, Japanese exactly for JP and KR, English for every other code |
| GeoLocation.MissingCountryIsEnglish | src/hooks/useGeoLocation.ts:70 | a lookup without a country code gives English |
| GeoLocation.OrDefault | src/hooks/useGeoLocation.ts:73-77 | a truthy field is kept and a falsy one replaced by its default |
| GeoLocation.EmptyLookupDefaults | src/hooks/useGeoLocation.ts:67-79 | a lookup without fields gives Unknown, XX, empty strings and English |
| GeoLocation.BrowserLanguage | src/hooks/useGeoLocation.ts:86 | the browser language is never empty |
| GeoLocation.BrowserLocaleCases | src/hooks/useGeoLocation.ts:87-95 | a zh prefix gives Chinese, a ja prefix Japanese, anything else English |
| GeoLocation.BrowserLocaleOfTag | src/hooks/useGeoLocation.ts:89-95 | a browser reporting a supported tag keeps that locale |
| GeoLocation.ValidSavedIff | src/hooks/useGeoLocation.ts:42-43 | a saved preference counts exactly when it is one of the three tags |
| GeoLocation.GeoLocationHook.constructor | src/hooks/useGeoLocation.ts:34-36 | the hook starts with no data, loading, and no error |
| GeoLocation.GeoLocationHook.DetectLocation | src/hooks/useGeoLocation.ts:39-110 | a valid saved preference wins without a lookup; else a successful lookup's fields with their defaults; else the browser locale and the error message; loading ends in every case |
| LanguageSwitcher.ReplaceSecond | src/components/LanguageSwitcher.tsx:36 | the second segment becomes the locale and the others are kept; a one-segment path grows a second |
| LanguageSwitcher.LocalizedPathSegments | src/components/LanguageSwitcher.tsx:35-37 | the new path's segments are the old ones with the second replaced by the locale |
| LanguageSwitcher.LocalizedPathIdempotent | src/components/LanguageSwitcher.tsx:35-37 | choosing the same locale again stays on the same path |
| LanguageSwitcher.SwitchLocaleSegment | src/components/LanguageSwitcher.tsx:35-37 | on /locale/page the locale segment is replaced and the page kept |
| LanguageSwitcher.Switcher.constructor | src/components/LanguageSwitcher.tsx:9-12 | the menu starts closed at the current path with nothing pushed |
| LanguageSwitcher.Switcher.HandleLanguageChange | src/components/LanguageSwitcher.tsx:30-42 | the locale is stored as the preference, the rewritten path is pushed and the menu closes |
| Strings.Trim | src/app/api/generate-introduction/route.ts:165 | the trim has no white space at either end and is the text with only white space cut from each end |
| Strings.TrimEmptyIff | src/app/api/generate-introduction/route.ts:165 | the trim is empty exactly when the text is all white space |
| Strings.ContainsIff | src/app/api/generate-introduction/route.ts:96 | includes holds exactly when the pattern occurs somewhere |
| Strings.JoinSplit | src/components/LanguageSwitcher.tsx:35-37 | joining the pieces of a split with the separator gives back the text |
| Strings.SplitJoin | src/components/LanguageSwitcher.tsx:35-37 | splitting a non-empty list of pieces joined by a one-character separator they do not contain gives back the pieces |
| Strings.SplitPiecesAvoidSeparator | src/components/LanguageSwitcher.tsx:35 | no piece of a split contains the separator |
| Strings.SplitLastPiece | src/app/api/upload-image/route.ts:39 | the last piece of a split is a suffix of the text |
| Strings.NatToString | src/app/api/mock-audio/route.ts:51 | a number renders as decimal digits without a leading zero |
| Strings.ParseNatToString | src/app/api/mock-audio/route.ts:51 | reading the rendered digits back gives the number |
| Strings.NatToStringInjective | src/app/api/generate-introduction/route.ts:71 | different numbers render differently |

## Left out

- Strings are sequences of characters. JavaScript's UTF-16 code units, surrogate pairs and Unicode white space beyond the listed set are not modelled. `toLowerCase` is modelled for ASCII letters only (`Json.AsciiLower`).
- Time comes in as a parameter: the request time, the UTC day used by the token tracker (a day number standing for the `toISOString` date), and the stream's timestamps. Time zones and daylight saving are not modelled; a calendar day is a day number.
- `ImageStore.ImageStorage.GetStats`: the `totalSizeMB` figure is floating point and is left out; the byte total is kept.
- `JSON.parse` of model answers is a parameter (the parsed value or a failure), not a JSON parser.
- Not modelled: the network, the Gemini request bodies, generated UUIDs and share ids, and the 20 ms and 1 s delays.
- Object key order in replies is not modelled: a JSON object is a map.
- A candidate text that is truthy but not a string is treated as a thrown error. The server-sent event response headers are not modelled.
- `GenerateIntroductionRoute.Paragraphs`: its contract describes the list position by position. That every non-blank piece is kept is proved separately by `EveryNonBlankPieceKept`.
- `MockAudioRoute.CreateSilentWav`: `buffer.write` is modelled only for the ASCII chunk tags it is given.
- `writeUInt32LE` throws a `RangeError` (a 500 reply) for values of 2^32 or more. With the handler's constants this cannot happen, so the method requires the sizes to fit.
- `GeoLocation.LocaleForCountry`: properties inherited from `Object.prototype` (a country code such as `constructor`) are not modelled as table entries.
- `GenerateAudioRoute.Post`: an object's own `length` property is treated as absent. Only strings and arrays have a length.
- The language menu's open/close toggle and its click-outside listener are UI wiring. Only the language change is modelled.
- Response headers other than `Content-Type` and `Content-Length` are not modelled.
- The `lastUpdated` stamp of usage statistics is not modelled.
- `AnalyzeImageRoute.TotalTokenCount`: a `totalTokenCount` entry that is not a number written in decimal digits counts as missing, so the estimate is recorded. JavaScript would pass such a value on to the arithmetic.
- `AnalyzeImageRoute.Post`: the `details` field of the Gemini error is not modelled, only the message.
- Console logging is not modelled.
- `MarkdownUtils.RemoveCodeBlocks`: its own contract says only that every character of the result occurs in the input. `CodeBlockDeleted` states what the pass does to one match that has no earlier match before it.
- `MarkdownUtils.Unwrap`: its own contract says only that every character of the result occurs in the input. `InlineCodeStripped` and `Unwrapped` state what the pass does to one match that has no earlier match before it.
- `MarkdownUtils.Links`: its own contract says only that every character of the result occurs in the input. `LinkTextKept` and `RefLinkTextKept` state what the pass does to one match that has no earlier match before it.
- `MarkdownUtils.Images`: its own contract says only that every character of the result occurs in the input. `ImageAltKept` states what the pass does to one match that has no earlier match before it.
- `MarkdownUtils.AnchoredPass`: its own contract states only where the characters come from. `HeadingStripped`, `QuoteStripped`, `BulletMarked`, `NumberedStripped`, `RuleRemoved` and `TableRuleRemoved` state its effect on one line that ends in a line feed and whose text does not open with white space. Leading white space before a list marker and markers whose `\s+` runs into the next line are covered only by the function itself.
- `MarkdownUtils.TableRuleRemoved` requires the next line not to open with a dash, blank, bar or colon. Otherwise the match runs on into that line, as the regular expression does.
- `MarkdownUtils.StripInline`: its contract states where the characters come from. The effect of each single pass is stated by the lemmas above and is not composed through the pipeline.
- `MarkdownUtils.StripLineMarks`: its contract states where the characters come from. The effect of each single pass is stated by the lemmas above and is not composed through the pipeline.
- `MarkdownUtils.CleanSpacing`: its contract states where the characters come from, the line-edge properties and the absence of three line feeds in a row. The effect of each single pass is stated by the lemmas above; composed through the pipeline it is stated only for text without Markdown (`PlainTextKept`).
- `MarkdownUtils.MarkdownToPlainText`: what it returns for a given text is pinned only for text without Markdown (`PlainTextKept`). That lemma's condition is stricter than needed: it also excludes characters such as `-`, `+` and `_` anywhere, a digit before a dot, and two empty lines in a row.
- The hourly timer that runs the image store's cleanup (src/lib/image-storage.ts:79-84) is not modelled as a timer; `ImageStore.ImageStorage.Cleanup` is the step it runs.

## Findings

| source | as written | input that shows it | evidently intended | confidence | as-written member | corrected member |
|---|---|---|---|---|---|---|
| src/app/api/analyze-image/route.ts:28-51 | `file.size` is read for the token estimate (line 28) before the `!file` check (line 46) | a form with no `image` field: reading `size` of `null` throws, and the catch answers 500 | a missing image answers 400 with the missing-image message | not executed | AnalyzeImageRoute.MissingImageAsWritten | AnalyzeImageRoute.MissingImageRejected |
