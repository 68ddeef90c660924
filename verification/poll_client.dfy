/**
 The client side of podcast creation (app/page.tsx): the guard on the
 submit handler, the start of polling, and one tick of the status poll,
 lifted out of the component into pure functions. Timers, `fetch`, the
 `Image` preload and `encodeURIComponent` are inputs: a tick receives the
 current time, what the two status requests returned, and how a preload
 ended; URL encoding is a function parameter.
 */
module PollClient {
  import opened Base
  import opened JsString
  import PodcastRoute
  import Concurrency

  const MaxPollTimeMs := 180000
  const MaxRetries := 3

  const DefaultThumbnailUrl := "/thumbnails/default.svg"
  const LocalThumbnailsPrefix := "/thumbnails/"
  const ThumbnailProxyPrefix := "/api/thumbnail/"
  const TitlePrefix := "60 seconds on: "

  const CreateFailedMessage := "Failed to create podcast"
  const TimeoutMessage := "Generation timed out. Please try again."
  const StatusCheckFailedMessage := "Failed to check generation status. Please try again."
  const AudioFailedMessage := "Audio generation failed"
  const NoAudioMessage := "No audio file found in completed job"
  const InvalidAudioUrlMessage := "Invalid audio URL format. Please try again or contact support if the issue persists."

  datatype MediaKind = Audio | Image

  /** An entry of a status payload's `artifacts` or `output` list; every field may be missing. */
  datatype Artifact = Artifact(kind: Option<string>, mimeType: Option<string>, url: Option<string>, uri: Option<string>)

  /** A job-status payload as the status endpoint returns it. A missing list is empty. */
  datatype JobStatus = JobStatus(status: string, error: Option<string>, artifacts: seq<Artifact>, output: seq<Artifact>)

  /**
   What a tick's requests produced: a thrown error (either request failing
   outright, a non-ok audio response, or a body that is not JSON), or the
   payloads. A thumbnail response that arrives with a non-ok status reads
   as `None`.
   */
  datatype PollResult = FetchFailed | Fetched(audio: JobStatus, thumbnail: Option<JobStatus>)

  /** How the preload of a remote thumbnail ended. */
  datatype PreloadEvent = Loaded | LoadError

  /** `pollingData`: what the poll needs to know about the submitted podcast. */
  datatype PollingData = PollingData(audioJobId: string, thumbnailJobId: Option<string>, topic: string, startTime: int)

  /** The poll between ticks: its data and the count of consecutive failed polls. */
  datatype PollState = PollState(data: PollingData, retryCount: nat)

  /** The object handed to `setCreatedPodcast`. */
  datatype PodcastRecord = PodcastRecord(
    audioJobId: string,
    thumbnailJobId: Option<string>,
    status: string,
    topic: string,
    title: string,
    summary: string,
    audioUrl: string,
    thumbnailUrl: string)

  /**
   A tick keeps polling, stops with an error message, or finishes with the
   podcast. `Stop` clears the interval at once. `Done` is the record the
   tick decides on; with a remote thumbnail it is handed over, and the
   interval cleared, only when the preload's handler runs.
   */
  datatype TickOutcome = Continue(next: PollState) | Stop(error: string) | Done(record: PodcastRecord)

  function KindName(kind: MediaKind): string {
    match kind
    case Audio => "audio"
    case Image => "image"
  }

  /** A string JavaScript treats as truthy: present and non-empty. */
  predicate Present(o: Option<string>) {
    o.Some? && o.value != ""
  }

  /** `a.type === kind || a.mime_type?.includes(kind)`: the type is the kind's name, or the MIME type mentions it anywhere. */
  function Matches(a: Artifact, kind: MediaKind): (r: bool)
    ensures r <==>
      a.kind == Some(KindName(kind)) || (a.mimeType.Some? && exists i :: OccursAt(a.mimeType.value, KindName(kind), i))
  {
    IncludesIff(a.mimeType.GetOr(""), KindName(kind));
    a.kind == Some(KindName(kind)) || (a.mimeType.Some? && Includes(a.mimeType.value, KindName(kind)))
  }

  /** `a?.url || a?.uri`, with every falsy result read as `None`. */
  function LocationOf(a: Artifact): (r: Option<string>)
    ensures r.Some? ==> r.value != ""
    ensures Present(a.url) ==> r == a.url
    ensures !Present(a.url) ==> r == (if Present(a.uri) then a.uri else None)
  {
    if Present(a.url) then a.url else if Present(a.uri) then a.uri else None
  }

  /** `Array.prototype.find` as an index: the first entry of the kind, if any. */
  function FirstMatch(arts: seq<Artifact>, kind: MediaKind): (r: Option<nat>)
    ensures r.Some? ==> r.value < |arts| && Matches(arts[r.value], kind)
    ensures r.Some? ==> forall j | 0 <= j < r.value :: !Matches(arts[j], kind)
    ensures r.None? ==> forall j | 0 <= j < |arts| :: !Matches(arts[j], kind)
    decreases |arts|
  {
    if |arts| == 0 then None
    else if Matches(arts[0], kind) then Some(0)
    else
      match FirstMatch(arts[1..], kind)
      case None => None
      case Some(j) => Some(j + 1)
  }

  /** The location of the first artifact of the kind; `None` when there is none or it has no location. */
  function ArtifactLocation(p: JobStatus, kind: MediaKind): Option<string> {
    match FirstMatch(p.artifacts, kind)
    case Some(i) => LocationOf(p.artifacts[i])
    case None => None
  }

  /**
   Artifact extraction for one kind: the first artifact of that kind gives
   its `url`, else its `uri`; only when that yields nothing does the first
   entry of `output` get a say.
   */
  function ExtractUrl(p: JobStatus, kind: MediaKind): (r: Option<string>)
    ensures r.Some? ==> r.value != ""
    ensures ArtifactLocation(p, kind).Some? ==> r == ArtifactLocation(p, kind)
    ensures ArtifactLocation(p, kind).None? && |p.output| > 0 ==> r == LocationOf(p.output[0])
    ensures ArtifactLocation(p, kind).None? && |p.output| == 0 ==> r.None?
  {
    var fromArtifacts :=
      if |p.artifacts| > 0 then
        match FirstMatch(p.artifacts, kind)
        case Some(i) => LocationOf(p.artifacts[i])
        case None => None
      else None;
    if fromArtifacts.Some? then fromArtifacts
    else if |p.output| > 0 then LocationOf(p.output[0])
    else None
  }

  /** `find` stops at the first match: what follows it is never looked at. */
  lemma {:induction false} FirstMatchIgnoresSuffix(arts: seq<Artifact>, kind: MediaKind, i: nat, rest: seq<Artifact>)
    requires FirstMatch(arts, kind) == Some(i)
    ensures FirstMatch(arts[..i + 1] + rest, kind) == Some(i)
    decreases |arts|
  {
    var arts' := arts[..i + 1] + rest;
    if i > 0 {
      assert !Matches(arts[0], kind);
      assert arts'[0] == arts[0];
      assert FirstMatch(arts[1..], kind) == Some(i - 1);
      FirstMatchIgnoresSuffix(arts[1..], kind, i - 1, rest);
      assert arts'[1..] == arts[1..][..i] + rest;
    } else {
      assert arts'[0] == arts[0];
    }
  }

  /** Artifacts after the first one of the kind never affect the extracted URL. */
  lemma ExtractIgnoresLaterArtifacts(p: JobStatus, kind: MediaKind, rest: seq<Artifact>)
    requires FirstMatch(p.artifacts, kind).Some?
    ensures var i := FirstMatch(p.artifacts, kind).value;
      ExtractUrl(p.(artifacts := p.artifacts[..i + 1] + rest), kind) == ExtractUrl(p, kind)
  {
    var i := FirstMatch(p.artifacts, kind).value;
    var p' := p.(artifacts := p.artifacts[..i + 1] + rest);
    FirstMatchIgnoresSuffix(p.artifacts, kind, i, rest);
    assert p'.artifacts[i] == p.artifacts[i];
  }

  /** A located artifact of the kind wins over anything in `output`. */
  lemma ArtifactBeatsOutput(p: JobStatus, kind: MediaKind, output: seq<Artifact>)
    requires ArtifactLocation(p, kind).Some?
    ensures ExtractUrl(p.(output := output), kind) == ExtractUrl(p, kind) == ArtifactLocation(p, kind)
  {
  }

  /** With no artifact of the kind, the first `output` entry decides, whatever the other artifacts hold. */
  lemma OutputFallback(p: JobStatus, kind: MediaKind)
    requires forall j | 0 <= j < |p.artifacts| :: !Matches(p.artifacts[j], kind)
    requires |p.output| > 0
    ensures ExtractUrl(p, kind) == LocationOf(p.output[0])
  {
  }

  /** The only accepted audio URLs are absolute `http://` or `https://` ones; none of them is a local path. */
  function IsAbsoluteUrl(u: string): (r: bool)
    ensures r <==> exists rest: string :: u == "http://" + rest || u == "https://" + rest
    ensures r ==> |u| >= 7 && u[..4] == "http" && !StartsWith(u, "/")
    ensures StartsWith(u, "/") ==> !r
  {
    assert StartsWith(u, "/") ==> u[0] == '/';
    assert StartsWith(u, "http://") ==> u == "http://" + u[7..];
    assert StartsWith(u, "https://") ==> u == "https://" + u[8..];
    StartsWith(u, "http://") || StartsWith(u, "https://")
  }

  /**
   The thumbnail URL shown: the default, replaced only by an absolute URL
   extracted from a completed thumbnail job. Relative and other URLs keep
   the default.
   */
  function ThumbnailUrl(thumbnail: Option<JobStatus>): (r: string)
    ensures r != DefaultThumbnailUrl <==>
      && thumbnail.Some? && thumbnail.value.status == "completed"
      && ExtractUrl(thumbnail.value, Image).Some?
      && IsAbsoluteUrl(ExtractUrl(thumbnail.value, Image).value)
    ensures r != DefaultThumbnailUrl ==> IsAbsoluteUrl(r) && ExtractUrl(thumbnail.value, Image) == Some(r)
  {
    var default := DefaultThumbnailUrl;
    assert !IsAbsoluteUrl(default) by {
      assert default[0] == '/';
    }
    if thumbnail.Some? && thumbnail.value.status == "completed" then
      match ExtractUrl(thumbnail.value, Image)
      case Some(u) => if IsAbsoluteUrl(u) then u else default
      case None => default
    else
      default
  }

  /** The image source used for a thumbnail: remote URLs go through the thumbnail proxy, local paths are used as they are. */
  function DisplayThumbnailUrl(u: string, encode: string -> string): (r: string)
    ensures u == "" || StartsWith(u, "/") ==> r == u
    ensures u != "" && !StartsWith(u, "/") ==> StartsWith(r, ThumbnailProxyPrefix) && r[|ThumbnailProxyPrefix|..] == encode(u)
  {
    if u != "" && !StartsWith(u, "/") then ThumbnailProxyPrefix + encode(u) else u
  }

  /** The preload is skipped for a local thumbnail and done for one served through the proxy. */
  function NeedsPreload(displayUrl: string): (r: bool)
    ensures StartsWith(displayUrl, LocalThumbnailsPrefix) ==> !r
    ensures StartsWith(displayUrl, ThumbnailProxyPrefix) ==> r
  {
    assert StartsWith(displayUrl, ThumbnailProxyPrefix) ==> displayUrl[1] == 'a' && LocalThumbnailsPrefix[1] == 't';
    displayUrl != "" && !StartsWith(displayUrl, LocalThumbnailsPrefix)
  }

  /** The record of a finished podcast; each preload branch builds its own copy, as the handler does. */
  function CompletedRecord(data: PollingData, audioUrl: string, thumbnailUrl: string, preload: PreloadEvent, encode: string -> string): (r: PodcastRecord)
    ensures r.audioJobId == data.audioJobId && r.thumbnailJobId == data.thumbnailJobId
    ensures r.status == "completed" && r.topic == data.topic
    ensures r.title == TitlePrefix + data.topic && r.summary == "An AI-generated podcast on \"" + data.topic + "\"."
    ensures r.audioUrl == audioUrl && r.thumbnailUrl == thumbnailUrl
  {
    var title := TitlePrefix + data.topic;
    var summary := "An AI-generated podcast on \"" + data.topic + "\".";
    if NeedsPreload(DisplayThumbnailUrl(thumbnailUrl, encode)) then
      match preload
      case Loaded =>
        PodcastRecord(data.audioJobId, data.thumbnailJobId, "completed", data.topic, title, summary, audioUrl, thumbnailUrl)
      case LoadError =>
        PodcastRecord(data.audioJobId, data.thumbnailJobId, "completed", data.topic, title, summary, audioUrl, thumbnailUrl)
    else
      PodcastRecord(data.audioJobId, data.thumbnailJobId, "completed", data.topic, title, summary, audioUrl, thumbnailUrl)
  }

  /** Whether the preload succeeds, fails or is skipped, the record is the same. */
  lemma PreloadDoesNotChangeRecord(data: PollingData, audioUrl: string, thumbnailUrl: string, encode: string -> string)
    ensures CompletedRecord(data, audioUrl, thumbnailUrl, Loaded, encode) == CompletedRecord(data, audioUrl, thumbnailUrl, LoadError, encode)
    ensures var r := CompletedRecord(data, audioUrl, thumbnailUrl, Loaded, encode);
      && r.status == "completed" && r.topic == data.topic
      && r.title == "60 seconds on: " + data.topic
      && r.summary == "An AI-generated podcast on \"" + data.topic + "\"."
      && r.audioUrl == audioUrl && r.thumbnailUrl == thumbnailUrl
  {
  }

  /** A preload happens exactly when the thumbnail is not the default. */
  lemma PreloadOnlyForRemoteThumbnail(thumbnail: Option<JobStatus>, encode: string -> string)
    ensures NeedsPreload(DisplayThumbnailUrl(ThumbnailUrl(thumbnail), encode)) <==> ThumbnailUrl(thumbnail) != DefaultThumbnailUrl
  {
    var u := ThumbnailUrl(thumbnail);
    var d := DisplayThumbnailUrl(u, encode);
    if u == DefaultThumbnailUrl {
      assert StartsWith(u, "/");
      assert StartsWith(d, LocalThumbnailsPrefix);
    } else {
      assert u[0] == 'h';
      assert d[1] == 'a' && LocalThumbnailsPrefix[1] == 't';
    }
  }

  /** `thumbnailJobId` is truthy. */
  predicate HasThumbnailJob(data: PollingData) {
    Present(data.thumbnailJobId)
  }

  /** The thumbnail no longer holds up the result: there is no thumbnail job, or it completed or failed. */
  function ThumbnailSettled(data: PollingData, thumbnail: Option<JobStatus>): (r: bool)
    ensures !HasThumbnailJob(data) ==> r
    ensures HasThumbnailJob(data) && thumbnail.None? ==> !r
    ensures HasThumbnailJob(data) ==>
      (r <==> thumbnail.Some? && (thumbnail.value.status == "completed" || thumbnail.value.status == "failed"))
  {
    !HasThumbnailJob(data) || (thumbnail.Some? && (thumbnail.value.status == "completed" || thumbnail.value.status == "failed"))
  }

  /** More than three minutes have passed since polling started; exactly three minutes is not yet a timeout. */
  function TimedOut(data: PollingData, now: int): (r: bool)
    ensures r <==> now - data.startTime > MaxPollTimeMs
    ensures now - data.startTime == MaxPollTimeMs ==> !r
    ensures now - data.startTime == MaxPollTimeMs + 1 ==> r
  {
    now - data.startTime > MaxPollTimeMs
  }

  /** Once the poll has timed out it stays timed out: every later tick stops with the timeout message, whatever it would fetch. */
  lemma TimeoutIsFinal(st: PollState, now: int, later: int, poll: PollResult, preload: PreloadEvent, encode: string -> string)
    requires TimedOut(st.data, now) && now <= later
    ensures TimedOut(st.data, later)
    ensures Tick(st, later, poll, preload, encode) == Stop(TimeoutMessage)
  {
  }

  /**
   One interval tick. The timeout is checked before anything is fetched;
   a failed poll counts towards the retry limit and a successful one resets
   the count; a failed audio job stops; a completed audio job, once the
   thumbnail is settled, must yield an absolute audio URL.
   */
  function Tick(st: PollState, now: int, poll: PollResult, preload: PreloadEvent, encode: string -> string): (r: TickOutcome)
    ensures TimedOut(st.data, now) ==> r == Stop(TimeoutMessage)
    ensures r.Continue? ==> r.next.data == st.data && r.next.retryCount < MaxRetries
    ensures !TimedOut(st.data, now) && poll.FetchFailed? ==>
      if st.retryCount + 1 >= MaxRetries then r == Stop(StatusCheckFailedMessage)
      else r == Continue(st.(retryCount := st.retryCount + 1))
    ensures r.Continue? && poll.Fetched? ==> r.next.retryCount == 0
    ensures (&& !TimedOut(st.data, now) && poll.Fetched? && poll.audio.status != "failed"
             && !(poll.audio.status == "completed" && ThumbnailSettled(st.data, if HasThumbnailJob(st.data) then poll.thumbnail else None)))
      ==> r == Continue(st.(retryCount := 0))
    ensures !TimedOut(st.data, now) && poll.Fetched? && poll.audio.status == "failed" ==>
      r == Stop(if Present(poll.audio.error) then poll.audio.error.value else AudioFailedMessage)
    ensures r.Done? ==>
      && poll.Fetched? && poll.audio.status == "completed"
      && ThumbnailSettled(st.data, if HasThumbnailJob(st.data) then poll.thumbnail else None)
      && IsAbsoluteUrl(r.record.audioUrl)
      && ExtractUrl(poll.audio, Audio) == Some(r.record.audioUrl)
      && (r.record.thumbnailUrl == DefaultThumbnailUrl || IsAbsoluteUrl(r.record.thumbnailUrl))
    ensures r.Done? ==>
      && r.record.status == "completed" && r.record.topic == st.data.topic
      && r.record.title == TitlePrefix + st.data.topic
      && r.record.audioJobId == st.data.audioJobId && r.record.thumbnailJobId == st.data.thumbnailJobId
      && r.record.summary == "An AI-generated podcast on \"" + st.data.topic + "\"."
      && r.record.thumbnailUrl == ThumbnailUrl(if HasThumbnailJob(st.data) then poll.thumbnail else None)
  {
    if TimedOut(st.data, now) then
      Stop(TimeoutMessage)
    else
      match poll
      case FetchFailed =>
        if st.retryCount + 1 >= MaxRetries then Stop(StatusCheckFailedMessage)
        else Continue(st.(retryCount := st.retryCount + 1))
      case Fetched(audio, thumbnailResponse) =>
        var thumbnail := if HasThumbnailJob(st.data) then thumbnailResponse else None;
        if audio.status == "failed" then
          Stop(if Present(audio.error) then audio.error.value else AudioFailedMessage)
        else if audio.status == "completed" && ThumbnailSettled(st.data, thumbnail) then
          match ExtractUrl(audio, Audio)
          case None => Stop(NoAudioMessage)
          case Some(audioUrl) =>
            if !IsAbsoluteUrl(audioUrl) then Stop(InvalidAudioUrlMessage)
            else Done(CompletedRecord(st.data, audioUrl, ThumbnailUrl(thumbnail), preload, encode))
        else
          Continue(st.(retryCount := 0))
  }

  /**
   A completed audio job stops the poll with a specific error when no URL
   can be extracted or the URL is not absolute; a relative audio URL is
   refused, not resolved.
   */
  lemma CompletedAudioNeedsAbsoluteUrl(st: PollState, now: int, audio: JobStatus, thumbnail: Option<JobStatus>, preload: PreloadEvent, encode: string -> string)
    requires !TimedOut(st.data, now) && audio.status == "completed"
    requires ThumbnailSettled(st.data, if HasThumbnailJob(st.data) then thumbnail else None)
    ensures var r := Tick(st, now, Fetched(audio, thumbnail), preload, encode);
      && (ExtractUrl(audio, Audio).None? ==> r == Stop(NoAudioMessage))
      && (ExtractUrl(audio, Audio).Some? && !IsAbsoluteUrl(ExtractUrl(audio, Audio).value) ==> r == Stop(InvalidAudioUrlMessage))
      && (ExtractUrl(audio, Audio).Some? && IsAbsoluteUrl(ExtractUrl(audio, Audio).value) ==> r.Done?)
  {
  }

  /**
   When the thumbnail status request keeps returning a non-ok status, a
   completed audio job does not finish the poll: it waits for the thumbnail
   until the timeout.
   */
  lemma UnreachableThumbnailKeepsPolling(st: PollState, now: int, audio: JobStatus, preload: PreloadEvent, encode: string -> string)
    requires !TimedOut(st.data, now) && HasThumbnailJob(st.data)
    requires audio.status == "completed"
    ensures Tick(st, now, Fetched(audio, None), preload, encode) == Continue(st.(retryCount := 0))
  {
  }

  /** A poll event: the tick's time, what its requests returned, and how a preload would end. */
  datatype PollEvent = PollEvent(now: int, result: PollResult, preload: PreloadEvent)

  /** Ticks in order until one stops or finishes; `Continue` when all of them kept polling. */
  function RunTicks(st: PollState, evs: seq<PollEvent>, encode: string -> string): TickOutcome
    decreases |evs|
  {
    if |evs| == 0 then Continue(st)
    else
      var last := evs[|evs| - 1];
      match RunTicks(st, evs[..|evs| - 1], encode)
      case Continue(s) => Tick(s, last.now, last.result, last.preload, encode)
      case stopped => stopped
  }

  /** The number of failed polls at the end of `evs`. */
  function TrailingFailures(evs: seq<PollEvent>): nat
    decreases |evs|
  {
    if |evs| == 0 || !evs[|evs| - 1].result.FetchFailed? then 0
    else TrailingFailures(evs[..|evs| - 1]) + 1
  }

  /** While polling continues, the retry count is the number of consecutive failed polls so far, always below three. */
  lemma {:induction false} RetryCountCountsConsecutiveFailures(st: PollState, evs: seq<PollEvent>, encode: string -> string)
    requires st.retryCount == 0
    ensures RunTicks(st, evs, encode).Continue? ==>
      && RunTicks(st, evs, encode).next.retryCount == TrailingFailures(evs)
      && TrailingFailures(evs) < MaxRetries
    decreases |evs|
  {
    if |evs| > 0 {
      RetryCountCountsConsecutiveFailures(st, evs[..|evs| - 1], encode);
    }
  }

  /** The third failed poll in a row, within the time limit, stops polling. */
  lemma ThirdConsecutiveFailureStops(st: PollState, evs: seq<PollEvent>, e: PollEvent, encode: string -> string)
    requires st.retryCount == 0 && RunTicks(st, evs, encode).Continue?
    requires TrailingFailures(evs) == 2
    requires e.result.FetchFailed? && !TimedOut(st.data, e.now)
    ensures RunTicks(st, evs + [e], encode) == Stop(StatusCheckFailedMessage)
  {
    RetryCountCountsConsecutiveFailures(st, evs, encode);
    assert (evs + [e])[..|evs + [e]| - 1] == evs;
    RunTicksKeepsData(st, evs, encode);
  }

  /** Polling never changes what it polls for. */
  lemma {:induction false} RunTicksKeepsData(st: PollState, evs: seq<PollEvent>, encode: string -> string)
    ensures RunTicks(st, evs, encode).Continue? ==> RunTicks(st, evs, encode).next.data == st.data
    decreases |evs|
  {
    if |evs| > 0 {
      RunTicksKeepsData(st, evs[..|evs| - 1], encode);
    }
  }

  /** `handleCreatePodcast`'s guard: a blank topic sends nothing; otherwise the trimmed topic is sent. */
  function SubmitGuard(input: string): (r: Option<string>)
    ensures r.None? <==> AllWhitespace(input)
    ensures r.Some? ==> r.value == Trim(input) && r.value != ""
  {
    var topic := Trim(input);
    if topic == "" then None else Some(topic)
  }

  /**
   What the creation request yields on the page: the route's answer, or an
   error thrown before an answer could be read (the `fetch` rejected, or a
   response body was not JSON), with that error's message.
   */
  datatype CreateReply = Answered(response: PodcastRoute.Response) | RequestFailed(message: string)

  /** The message the page shows for a thrown error: its own, or the generic one when that is empty. */
  function ShownError(message: string): (m: string)
    ensures m != ""
    ensures message != "" ==> m == message
    ensures message == "" ==> m == CreateFailedMessage
  {
    if message != "" then message else CreateFailedMessage
  }

  /**
   The answer to the creation request: an accepted podcast starts polling
   at `now` with no failures counted; a refusal becomes its `error` text,
   and a request that failed outright its error's message, or the generic
   message when that text is empty.
   */
  function StartPolling(topic: string, reply: CreateReply, now: int): (r: Result<PollState, string>)
    ensures r.Ok? <==> reply.Answered? && reply.response.Accepted?
    ensures r.Ok? ==>
      r.value == PollState(PollingData(reply.response.audioJobId, reply.response.thumbnailJobId, topic, now), 0)
    ensures reply.Answered? && !reply.response.Accepted? ==>
      r == Err(if reply.response.error != "" then reply.response.error else CreateFailedMessage)
    ensures reply.RequestFailed? ==>
      r == Err(if reply.message != "" then reply.message else CreateFailedMessage)
    ensures r.Err? ==> r.error != ""
  {
    match reply
    case RequestFailed(message) => Err(ShownError(message))
    case Answered(response) =>
      match response
      case Accepted(audioJobId, thumbnailJobId, _, _) =>
        Ok(PollState(PollingData(audioJobId, thumbnailJobId, topic, now), 0))
      case BadRequest(e) => Err(ShownError(e))
      case ServiceUnavailable(e, _, _) => Err(ShownError(e))
      case ServerError(e) => Err(ShownError(e))
  }

  /**
   Submitting a topic end to end: what the guard sends, if it is at most 128
   characters and a slot is free and the audio job is created, is accepted
   by the endpoint and starts polling for the created jobs under the topic
   the page sent, at `now`, with no failures counted.
   */
  lemma SubmittedTopicStartsPolling(input: string, s: Concurrency.ConcurrencyLimiter, t: Concurrency.TaskId, id: string, thumbnail: PodcastRoute.JobCreation, now: int)
    requires SubmitGuard(input).Some?
    requires |SubmitGuard(input).value| <= PodcastRoute.MaxTopicLength
    requires s.activeCount < s.maxConcurrent
    ensures var sent := SubmitGuard(input).value;
      var answer := PodcastRoute.Post(PodcastRoute.Parsed(PodcastRoute.Text(sent)), s, t, PodcastRoute.Created(id), thumbnail).response;
      StartPolling(sent, Answered(answer), now)
        == Ok(PollState(PollingData(id, PodcastRoute.ThumbnailJobId(thumbnail), sent, now), 0))
  {
    ClientTopicPassesServerChecks(input);
  }

  /** A topic the guard sends while the limiter is full makes the page show the endpoint's capacity message. */
  lemma FullLimiterShowsCapacityMessage(input: string, s: Concurrency.ConcurrencyLimiter, t: Concurrency.TaskId, audio: PodcastRoute.JobCreation, thumbnail: PodcastRoute.JobCreation, now: int)
    requires SubmitGuard(input).Some?
    requires |SubmitGuard(input).value| <= PodcastRoute.MaxTopicLength
    requires s.activeCount >= s.maxConcurrent
    ensures var sent := SubmitGuard(input).value;
      var answer := PodcastRoute.Post(PodcastRoute.Parsed(PodcastRoute.Text(sent)), s, t, audio, thumbnail).response;
      StartPolling(sent, Answered(answer), now) == Err(PodcastRoute.AtCapacityMessage)
  {
    ClientTopicPassesServerChecks(input);
  }

  /**
   What the client sends always passes the server's "required" and "empty"
   checks; only the length check can refuse it, and the server's trimmed
   topic is the one the client sent.
   */
  lemma ClientTopicPassesServerChecks(input: string)
    requires SubmitGuard(input).Some?
    ensures var sent := SubmitGuard(input).value;
      && PodcastRoute.Validate(PodcastRoute.Text(sent)) != Err(PodcastRoute.TopicRequiredMessage)
      && PodcastRoute.Validate(PodcastRoute.Text(sent)) != Err(PodcastRoute.TopicEmptyMessage)
      && (PodcastRoute.Validate(PodcastRoute.Text(sent)).Ok? <==> |sent| <= PodcastRoute.MaxTopicLength)
      && (PodcastRoute.Validate(PodcastRoute.Text(sent)).Ok? ==> PodcastRoute.Validate(PodcastRoute.Text(sent)).value == sent)
  {
    var sent := SubmitGuard(input).value;
    TrimIdempotent(input);
    assert !AllWhitespace(sent) by {
      assert !IsWhitespace(sent[0]);
    }
  }
}
