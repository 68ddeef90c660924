/**
 The podcast-creation endpoint (`POST` in app/api/podcast/route.ts): it
 validates the requested topic, refuses when the limiter has no free slot,
 and otherwise runs the job-creation task through the limiter, which then
 starts it at once. The upstream calls are not modelled; their outcomes are
 parameters.
 */
module PodcastRoute {
  import opened Base
  import opened JsString
  import opened Concurrency

  const ContentTextPrefix := "Explain the following topic in a concise, engaging way suitable for a 60-second audio podcast: "
  const ThumbnailPromptPrefix := "A Ghibli style image representing the following topic (do not include text in the image): "

  const MaxTopicLength := 128

  const TopicRequiredMessage := "Topic is required and must be a string"
  const TopicEmptyMessage := "Topic cannot be empty"
  const TopicTooLongMessage := "Topic must be 128 characters or less"
  const AtCapacityMessage := "Server is at capacity. Please try again in a moment."
  const ProcessingStatus := "processing"
  const InternalErrorMessage := "Internal server error"

  /** The `topic` member of the JSON body: a string, or anything else (absent, `null`, a number, ...). */
  datatype TopicField = NotAString | Text(value: string)

  /** The request body: JSON that failed to parse or destructure (with the error's message), or parsed JSON. */
  datatype RequestBody = Malformed(message: string) | Parsed(topic: TopicField)

  /** How an upstream job creation ended: the job's id, or a thrown error. */
  datatype JobCreation = Created(id: string) | CreateFailed(message: string)

  datatype Response =
    | BadRequest(error: string)
    | ServiceUnavailable(error: string, activeGenerations: int, maxConcurrent: int)
    | Accepted(audioJobId: string, thumbnailJobId: Option<string>, topic: string, status: string)
    | ServerError(error: string)

  /** The response together with the limiter as the request leaves it when its synchronous part ends. */
  datatype PostResult = PostResult(response: Response, limiter: ConcurrencyLimiter)

  function StatusCode(r: Response): int {
    match r
    case BadRequest(_) => 400
    case ServiceUnavailable(_, _, _) => 503
    case Accepted(_, _, _, _) => 201
    case ServerError(_) => 500
  }

  /** `createContentText`: the prompt for the audio job, a fixed instruction followed by the topic. */
  function ContentText(topic: string): (r: string)
    ensures |r| == |ContentTextPrefix| + |topic|
    ensures StartsWith(r, ContentTextPrefix) && r[|ContentTextPrefix|..] == topic
  {
    ContentTextPrefix + topic
  }

  /** Recovers the topic from an audio prompt. */
  function TopicOfContentText(text: string): Option<string> {
    if StartsWith(text, ContentTextPrefix) then Some(text[|ContentTextPrefix|..]) else None
  }

  /** `createThumbnailPrompt`: a fixed instruction, the topic, then a full stop. */
  function ThumbnailPrompt(topic: string): (r: string)
    ensures |r| == |ThumbnailPromptPrefix| + |topic| + 1
    ensures StartsWith(r, ThumbnailPromptPrefix) && r[|r| - 1] == '.'
    ensures r[|ThumbnailPromptPrefix|..|r| - 1] == topic
  {
    ThumbnailPromptPrefix + topic + "."
  }

  /** Recovers the topic from a thumbnail prompt. */
  function TopicOfThumbnailPrompt(text: string): Option<string> {
    if |text| > |ThumbnailPromptPrefix| && StartsWith(text, ThumbnailPromptPrefix) && text[|text| - 1] == '.' then
      Some(text[|ThumbnailPromptPrefix|..|text| - 1])
    else
      None
  }

  /** Both prompts determine the topic they were built from. */
  lemma PromptsRoundTrip(topic: string)
    ensures TopicOfContentText(ContentText(topic)) == Some(topic)
    ensures TopicOfThumbnailPrompt(ThumbnailPrompt(topic)) == Some(topic)
  {
  }

  /**
   The three input checks, in the order the handler applies them; the first
   that fails decides the message. The length bound applies to the topic as
   sent, before trimming; an accepted topic is returned trimmed.
   */
  function Validate(topic: TopicField): (r: Result<string, string>)
    ensures r == Err(TopicRequiredMessage) <==> topic == NotAString || topic == Text("")
    ensures r == Err(TopicEmptyMessage) <==> topic.Text? && topic.value != "" && AllWhitespace(topic.value)
    ensures r == Err(TopicTooLongMessage) <==>
      topic.Text? && !AllWhitespace(topic.value) && |topic.value| > MaxTopicLength
    ensures r.Ok? <==> topic.Text? && !AllWhitespace(topic.value) && |topic.value| <= MaxTopicLength
    ensures r.Ok? ==> r.value == Trim(topic.value) && 1 <= |r.value| <= MaxTopicLength
  {
    match topic
    case NotAString => Err(TopicRequiredMessage)
    case Text(value) =>
      if value == "" then Err(TopicRequiredMessage)
      else if |Trim(value)| == 0 then Err(TopicEmptyMessage)
      else if |value| > MaxTopicLength then Err(TopicTooLongMessage)
      else Ok(Trim(value))
  }

  /** `thumbnailJob?.id || null`: a failed creation or an empty id gives no thumbnail job. */
  function ThumbnailJobId(thumbnail: JobCreation): (r: Option<string>)
    ensures r.None? <==> thumbnail.CreateFailed? || thumbnail.id == ""
    ensures r.Some? ==> thumbnail == Created(r.value)
  {
    if thumbnail.Created? && thumbnail.id != "" then Some(thumbnail.id) else None
  }

  /**
   The handler. `s` is the limiter when the request arrives and `t` the id
   of the task the handler would run; `audio` and `thumbnail` are how the
   two upstream creations end.
   */
  function Post(body: RequestBody, s: ConcurrencyLimiter, t: TaskId, audio: JobCreation, thumbnail: JobCreation): (r: PostResult)
    ensures body.Malformed? ==> r == PostResult(ServerError(body.message), s)
    ensures r.response.BadRequest? <==> body.Parsed? && Validate(body.topic).Err?
    ensures r.response.BadRequest? ==> r.response.error == Validate(body.topic).error
    ensures r.response.ServiceUnavailable? <==>
      body.Parsed? && Validate(body.topic).Ok? && s.activeCount >= s.maxConcurrent
    ensures r.response.ServiceUnavailable? ==>
      r.response.activeGenerations == s.activeCount && r.response.maxConcurrent == s.maxConcurrent
    ensures r.response.BadRequest? || r.response.ServiceUnavailable? ==> r.limiter == s
    ensures body.Parsed? && Validate(body.topic).Ok? && s.activeCount < s.maxConcurrent && audio.CreateFailed? ==>
      r.response == ServerError(audio.message)
    ensures r.response.Accepted? <==>
      body.Parsed? && Validate(body.topic).Ok? && s.activeCount < s.maxConcurrent && audio.Created?
    ensures r.response.Accepted? ==>
      && r.response.topic == Validate(body.topic).value && r.response.status == ProcessingStatus
      && audio == Created(r.response.audioJobId) && r.response.thumbnailJobId == ThumbnailJobId(thumbnail)
  {
    match body
    case Malformed(message) => PostResult(ServerError(message), s)
    case Parsed(topic) =>
      match Validate(topic)
      case Err(message) => PostResult(BadRequest(message), s)
      case Ok(trimmed) =>
        var stats := GetStats(s);
        if stats.activeCount >= stats.maxConcurrent then
          PostResult(ServiceUnavailable(AtCapacityMessage, stats.activeCount, stats.maxConcurrent), s)
        else
          var admitted := Submit(s, t);
          match audio
          case CreateFailed(message) => PostResult(ServerError(message), admitted)
          case Created(id) => PostResult(Accepted(id, ThumbnailJobId(thumbnail), trimmed, ProcessingStatus), admitted)
  }

  /**
   A request that passes validation and the capacity check is started by
   the limiter at once: it takes a slot and never waits in the queue.
   */
  lemma AdmittedRequestNeverQueues(body: RequestBody, s: ConcurrencyLimiter, t: TaskId, audio: JobCreation, thumbnail: JobCreation)
    requires body.Parsed? && Validate(body.topic).Ok? && s.activeCount < s.maxConcurrent
    ensures var r := Post(body, s, t, audio, thumbnail);
      && t in r.limiter.running
      && r.limiter.queue == s.queue
      && r.limiter.activeCount == s.activeCount + 1
      && r.limiter.maxConcurrent == s.maxConcurrent
  {
  }

  /**
   A non-blank topic of at most 128 characters, arriving while a slot is
   free, is answered 201 with status `processing`, the audio job's id, the
   trimmed topic (1 to 128 characters, no surrounding whitespace) and a
   thumbnail id only when the thumbnail job was created with a non-empty id.
   */
  lemma AcceptedResponse(value: string, s: ConcurrencyLimiter, t: TaskId, id: string, thumbnail: JobCreation)
    requires !AllWhitespace(value) && |value| <= MaxTopicLength && s.activeCount < s.maxConcurrent
    ensures var r := Post(Parsed(Text(value)), s, t, Created(id), thumbnail).response;
      && r.Accepted?
      && StatusCode(r) == 201
      && r.status == ProcessingStatus
      && r.audioJobId == id
      && r.topic == Trim(value)
      && 1 <= |r.topic| <= MaxTopicLength
      && !IsWhitespace(r.topic[0]) && !IsWhitespace(r.topic[|r.topic| - 1])
      && (r.thumbnailJobId.None? <==> thumbnail.CreateFailed? || thumbnail.id == "")
  {
    assert Validate(Text(value)) == Ok(Trim(value));
  }

  /** The length bound is inclusive and measured before trimming. */
  lemma LengthBoundary(core: string, pad: string)
    requires |core| == MaxTopicLength && !AllWhitespace(core)
    requires |pad| > 0 && AllWhitespace(pad)
    ensures Validate(Text(core)) == Ok(Trim(core))
    ensures Validate(Text(core + pad)) == Err(TopicTooLongMessage)
  {
    NotBlankExtends(core, pad);
  }

  /** Appending to a string with a non-whitespace character keeps it non-blank. */
  lemma NotBlankExtends(a: string, b: string)
    requires !AllWhitespace(a)
    ensures !AllWhitespace(a + b)
  {
    var i :| 0 <= i < |a| && !IsWhitespace(a[i]);
    assert (a + b)[i] == a[i];
  }

  /** The 500 message of the handler's `catch`: an `Error`'s message, or a generic text for any other thrown value. */
  function CaughtMessage(e: Thrown): (m: string)
    ensures e.ErrorObject? ==> m == e.message
    ensures e.OtherValue? ==> m == InternalErrorMessage
  {
    match e
    case ErrorObject(message) => message
    case OtherValue(_) => InternalErrorMessage
  }

  /**
   What the handler would report for a task that throws, by admission path:
   an `Error` keeps its message either way, but a thrown non-`Error` value
   keeps its text only when the task was queued (and so wrapped); started at
   once, it becomes the generic message.
   */
  lemma CaughtMessageOfDelivered<T>(path: AdmissionPath, o: TaskOutcome<T>)
    requires o.Rejected?
    ensures Deliver(path, o).Rejected?
    ensures CaughtMessage(Deliver(path, o).reason) ==
      if o.reason.ErrorObject? then o.reason.message
      else if path == FromQueue then o.reason.text
      else InternalErrorMessage
  {
  }
}
