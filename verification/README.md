# Podcast generation core: limiter, request admission and status polling

This project models, in Dafny, the part of the "explained in 60 seconds" podcast
generator that carries real logic:

- **The concurrency limiter** (`ConcurrencyLimiter`, app/lib/concurrency-limiter.ts).
  It is a bounded-admission state machine: a bound `maxConcurrent`, a counter
  `activeCount` and a FIFO queue. Its operations are `run` (start a task now or
  queue it), settlement of a running task (release the slot, then admit the head
  of the queue), `setMaxConcurrent` (validate the bound, then drain the queue in a
  loop) and `getStats`. The model is immutable states with pure transitions over
  abstract task ids. A separate event-trace module runs whole sequences of
  submissions, settlements and bound changes.
- **The podcast-creation endpoint** (`POST` in app/api/podcast/route.ts). The
  model covers the three topic checks in their order, the refusal at capacity
  (503), the immediate admission through the limiter, the 201 answer with the
  trimmed topic, and the two prompt builders.
- **The client's poll loop** (app/page.tsx). The guard on the submit handler, the
  start of polling, artifact URL extraction, URL acceptance, the thumbnail
  default, and one interval tick are lifted into pure functions. A tick ends as
  `Continue`, `Stop(error)` or `Done(record)`.

Modules: `Base` (Option, Result), `JsString` (JavaScript `trim`, `startsWith`,
`includes`), `Concurrency` (the limiter), `LimiterTrace` (event traces),
`PodcastRoute` (the endpoint) and `PollClient` (the page's logic).

Inputs that stand for I/O:
- upstream job creation is a `JobCreation` outcome (an id, or a thrown message);
- a poll's two `fetch` calls are a `PollResult`;
- `Date.now()` is the integer `now`;
- the `Image` preload is a `PreloadEvent`;
- `encodeURIComponent` is a function parameter `encode`.

Facts about the code that the model keeps, some of which a reader might not expect:
- After the bound is lowered, running tasks are not preempted. `activeCount` can
  then exceed `maxConcurrent` and `availableSlots` can go negative
  (`LoweringBoundDoesNotPreempt`). So "activeCount never exceeds the capacity"
  holds only while the bound is never lowered below the count (`StepKeepsBound`).
- For a numeric bound, the endpoint refuses a request when the limiter is full
  (503) and never queues one. (A `NaN` bound would let every request past the
  capacity check and into the queue; it is not modelled, see below.)
- The 128-character limit is checked on the topic as sent, before trimming.
- The page rejects an audio URL that does not start with `http://` or
  `https://`. It does not resolve relative URLs.
- The page's timeout is 180000 ms and it tolerates 2 failed polls in a row.
- A queued task that throws a value that is not an `Error` reaches its caller
  wrapped as `new Error(String(v))`. A task started at once rethrows the value
  unchanged (`Deliver`).
- If the thumbnail status request keeps returning a non-ok status, a finished audio
  job still waits for the thumbnail until the timeout
  (`UnreachableThumbnailKeepsPolling`). A thumbnail request that is rejected outright
  counts as a failed poll.

## Model

| member | source | states |
|---|---|---|
| Concurrency.New | app/lib/concurrency-limiter.ts:12-19 | a new limiter has the given bound, no running task and an empty queue, and satisfies the limiter invariant |
| Concurrency.GetStats | app/lib/concurrency-limiter.ts:24-31 | reports the bound, the count, the queue length and `availableSlots = maxConcurrent - activeCount`; in a consistent limiter a non-empty queue means no free slot is reported |
| Concurrency.Submit | app/lib/concurrency-limiter.ts:37-67 | below the bound the task starts: the count rises by exactly one and the queue is unchanged; otherwise the task joins the back of the queue and the count is unchanged |
| Concurrency.ProcessQueue | app/lib/concurrency-limiter.ts:73-90 | admits at most one task, always the queue head; it is a no-op exactly when the queue is empty or the count has reached the bound |
| Concurrency.Settle | app/lib/concurrency-limiter.ts:45-48 | settling a running task releases its slot and admits at most one task, the queue head, exactly when a task waits and a slot is free |
| Concurrency.Deliver | app/lib/concurrency-limiter.ts:42-62 | the caller of `run` is fulfilled exactly when the task is, with its value; a rejection keeps the task's reason, except that a queued task's non-`Error` reason is rewrapped as an `Error`, so a queued rejection always carries an `Error` |
| Concurrency.Drain | app/lib/concurrency-limiter.ts:101-103 | the drain loop as a recursive reference: it ends drained (queue empty or bound reached), admits a prefix of the queue in order, and keeps every running task |
| Concurrency.DrainAdmitsFreeSlots | app/lib/concurrency-limiter.ts:101-103 | the drain admits exactly min(queue length, free slots) tasks, and none when there is no free slot |
| Concurrency.SetMax | app/lib/concurrency-limiter.ts:95-104 | a bound below 1 is refused exactly, with the source's message; any other bound is set and the queue is left drained |
| Concurrency.DrainQueue | app/lib/concurrency-limiter.ts:100-103 | the imperative `while` loop terminates, because the queue shrinks on each pass; it computes the same admissions as the reference |
| Concurrency.SetMaxConcurrent | app/lib/concurrency-limiter.ts:95-104 | the method agrees with `SetMax`: it is refused below 1, and otherwise sets the bound and leaves the limiter drained |
| Concurrency.SubmitPreservesValid | app/lib/concurrency-limiter.ts:39-55 | submitting a fresh task keeps the invariant: the count equals the number of running tasks, queued tasks are distinct and not running, and a non-empty queue means the bound is reached |
| Concurrency.SubmitNeverOvertakes | app/lib/concurrency-limiter.ts:39-55 | while any task waits, a new task can only queue behind it and never starts first |
| Concurrency.ProcessQueuePreservesWellFormed | app/lib/concurrency-limiter.ts:73-82 | admitting the head keeps the count equal to the number of running tasks and the queue disjoint from them |
| Concurrency.SettlePreservesValid | app/lib/concurrency-limiter.ts:85-88 | settlement keeps the invariant and the settled task stops running |
| Concurrency.DrainPreservesValid | app/lib/concurrency-limiter.ts:101-103 | draining restores the invariant that a non-empty queue means the bound is reached |
| Concurrency.SetMaxPreservesValid | app/lib/concurrency-limiter.ts:95-103 | an accepted bound change leaves a consistent limiter consistent |
| Concurrency.SubmitKeepsBound | app/lib/concurrency-limiter.ts:39-40 | `run` never pushes the count above the bound when it starts within it |
| Concurrency.SettleKeepsBound | app/lib/concurrency-limiter.ts:45-48 | settling a running task never pushes the count above the bound when it starts within it |
| Concurrency.LoweringBoundDoesNotPreempt | app/lib/concurrency-limiter.ts:95-103 | lowering the bound from 5 to 2 with five running tasks keeps all five running, so `availableSlots` becomes -3 |
| LimiterTrace.Step | app/lib/concurrency-limiter.ts:37-103 | for each event, the queue before it followed by what it queued equals what it admitted from the queue followed by the queue after it |
| LimiterTrace.Exec | app/lib/concurrency-limiter.ts:37-103 | over any run of events the queue acts as a single FIFO: admitted tasks plus those still waiting equal the initial queue plus every task queued |
| LimiterTrace.QueueAccounting | app/lib/concurrency-limiter.ts:53-55 | the FIFO accounting of two consecutive runs composes into that of the whole |
| LimiterTrace.StepPreservesValid | app/lib/concurrency-limiter.ts:37-103 | every enabled event keeps the limiter invariant |
| LimiterTrace.ExecPreservesValid | app/lib/concurrency-limiter.ts:37-103 | every run of enabled events keeps the limiter invariant |
| LimiterTrace.FifoAdmission | app/lib/concurrency-limiter.ts:53-88 | from a new limiter, the tasks admitted from the queue are exactly the first tasks queued, in submission order |
| LimiterTrace.StepKeepsRunning | app/lib/concurrency-limiter.ts:45-48 | no preemption: a running task keeps running through any event except its own settlement |
| LimiterTrace.ExecKeepsRunning | app/lib/concurrency-limiter.ts:45-48 | no preemption over a whole run in which the task does not settle |
| LimiterTrace.StepKeepsBound | app/lib/concurrency-limiter.ts:39-40 | the count stays within the bound through every event except lowering the bound below the current count |
| LimiterTrace.SettleOutcomeIrrelevant | app/lib/concurrency-limiter.ts:45-48 | settlement bookkeeping is the same whether the task fulfilled or rejected |
| JsString.LeadingEnd | app/api/podcast/route.ts:115 | scanning forward, the index of the first non-whitespace character, with only whitespace before it |
| JsString.TrailingStart | app/api/podcast/route.ts:115 | scanning backward, the index just past the last non-whitespace character, with only whitespace after it |
| JsString.Trim | app/api/podcast/route.ts:115 | the result is the input with a whitespace-only prefix and a whitespace-only suffix removed; it has no whitespace at either end, and is empty exactly when the input is all whitespace |
| JsString.StartsWith | app/page.tsx:237 | `startsWith` holds exactly when the prefix occurs at position 0; the empty prefix always matches |
| JsString.Includes | app/page.tsx:219 | a string includes its own prefixes, and never a substring longer than itself |
| JsString.TrimIdempotent | app/page.tsx:135 | trimming an already trimmed topic changes nothing |
| JsString.IncludesIff | app/page.tsx:219 | `includes` holds exactly when the substring occurs at some position |
| PodcastRoute.ContentText | app/api/podcast/route.ts:4-6 | the audio prompt is the fixed instruction followed by the topic, and nothing else |
| PodcastRoute.ThumbnailPrompt | app/api/podcast/route.ts:8-10 | the image prompt is the fixed instruction, the topic, then a full stop |
| PodcastRoute.PromptsRoundTrip | app/api/podcast/route.ts:4-10 | both prompts can be decoded back to the topic they were built from |
| PodcastRoute.Validate | app/api/podcast/route.ts:107-127 | the checks run in a fixed order. A missing, non-string or `""` topic gets "required"; a non-empty all-whitespace topic gets "cannot be empty"; a longer-than-128 topic gets the length error, measured before trimming; anything else is accepted, trimmed |
| PodcastRoute.ThumbnailJobId | app/api/podcast/route.ts:148-153 | the thumbnail id is null exactly when the thumbnail job failed, was absent or has an empty id |
| PodcastRoute.Post | app/api/podcast/route.ts:103-172 | the first failing topic check decides the 400. The 503 is returned exactly when the topic is valid and the limiter is full, and it reports the count and the bound. Every refusal leaves the limiter untouched. A 201 is returned exactly when the topic is valid, a slot is free and the audio job was created; it carries the trimmed topic, the audio job id and the thumbnail id. A failed audio job creation gives 500 with the thrown message. A body that cannot be parsed gives 500 |
| PodcastRoute.AdmittedRequestNeverQueues | app/api/podcast/route.ts:129-155 | a request that passes the capacity check is started by `run` at once: it takes a slot and the queue is unchanged |
| PodcastRoute.AcceptedResponse | app/api/podcast/route.ts:144-162 | a non-blank topic of at most 128 characters, arriving while a slot is free and with the audio job created, is answered 201 with status `processing`, the audio job id and the trimmed 1-128 character topic; the thumbnail id is null exactly when the thumbnail job failed or has an empty id |
| PodcastRoute.CaughtMessage | app/api/podcast/route.ts:164-170 | the 500 answer carries an `Error`'s message, and "Internal server error" for any other thrown value |
| PodcastRoute.CaughtMessageOfDelivered | app/api/podcast/route.ts:164-170 | a rejected task reaches the catch: an `Error` keeps its message; a queued non-`Error` value shows its string form; an immediate one shows "Internal server error" |
| PodcastRoute.LengthBoundary | app/api/podcast/route.ts:122-127 | a non-blank 128-character topic is accepted, but the same topic with trailing whitespace is refused as too long |
| PollClient.Matches | app/page.tsx:218-219 | an artifact matches a kind exactly when its `type` equals the kind's name or its `mime_type` contains that name at some position |
| PollClient.LocationOf | app/page.tsx:221 | an artifact's location is its `url` when that is non-empty, else its `uri`, else nothing |
| PollClient.FirstMatch | app/page.tsx:218-220 | finds the first artifact whose `type` is the kind or whose `mime_type` contains it, and none exists before it |
| PollClient.ExtractUrl | app/page.tsx:216-225 | the first matching artifact's location wins; only when it yields nothing is `output[0]` used |
| PollClient.FirstMatchIgnoresSuffix | app/page.tsx:218-220 | entries after the first match never change what `find` returns |
| PollClient.ExtractIgnoresLaterArtifacts | app/page.tsx:216-222 | later matching artifacts are never consulted, even when the first one has no location |
| PollClient.ArtifactBeatsOutput | app/page.tsx:216-225 | once the first matching artifact has a location, `output` is irrelevant |
| PollClient.OutputFallback | app/page.tsx:223-225 | with no matching artifact, `output[0]`'s url or uri decides |
| PollClient.IsAbsoluteUrl | app/page.tsx:237 | a URL is accepted exactly when it is `http://` or `https://` followed by anything; so an accepted URL never starts with `/` |
| PollClient.ThumbnailUrl | app/page.tsx:247-283 | the thumbnail stays `/thumbnails/default.svg` unless the thumbnail job completed and yielded an absolute http(s) URL; relative and other URLs keep the default |
| PollClient.DisplayThumbnailUrl | app/page.tsx:291-293 | a local path is used unchanged; any other URL goes through `/api/thumbnail/` with its encoding |
| PollClient.NeedsPreload | app/page.tsx:295 | a `/thumbnails/` path is never preloaded, and a `/api/thumbnail/` proxied URL always is |
| PollClient.CompletedRecord | app/page.tsx:301-346 | the finished record keeps the polled job ids and the topic, has status `completed`, the title "60 seconds on: " + topic, the summary `An AI-generated podcast on "<topic>".`, and the given audio and thumbnail URLs |
| PollClient.TimedOut | app/page.tsx:170-171 | the poll times out exactly when strictly more than 180000 ms have elapsed: at exactly 180000 ms it continues, one millisecond later it stops |
| PollClient.TimeoutIsFinal | app/page.tsx:168-176 | once the poll has timed out, every later tick times out too and stops with the timeout message, whatever it would have fetched |
| PollClient.ThumbnailSettled | app/page.tsx:211 | without a thumbnail job the thumbnail never holds the result back; with one, it is settled exactly when its status was read and is `completed` or `failed` |
| PollClient.PreloadDoesNotChangeRecord | app/page.tsx:295-346 | the loaded, failed-preload and no-preload branches produce the same record: status `completed`, title "60 seconds on: " + topic, and the summary built from the topic |
| PollClient.PreloadOnlyForRemoteThumbnail | app/page.tsx:291-295 | a preload is started exactly when the thumbnail is not the default |
| PollClient.Tick | app/page.tsx:168-372 | the timeout is checked before any fetch. A failed poll counts and a successful one resets the count; the third failure in a row stops the poll. A failed audio job stops with its error or the default message. A successful poll whose audio has not failed and that is not both completed and settled continues with the count reset. A result needs completed audio, a settled thumbnail and an absolute audio URL. It is marked `completed`, titled "60 seconds on: " + topic, carries the summary built from the topic and the thumbnail URL chosen from the polled thumbnail, and keeps the polled job ids |
| PollClient.CompletedAudioNeedsAbsoluteUrl | app/page.tsx:227-244 | a completed audio job with no URL stops with "No audio file found"; a URL that is not http(s) stops with the invalid-format error |
| PollClient.UnreachableThumbnailKeepsPolling | app/page.tsx:193-213 | when the thumbnail status request returns a non-ok status, finished audio keeps polling with the count reset |
| PollClient.RetryCountCountsConsecutiveFailures | app/page.tsx:360-370 | while polling continues, the retry count equals the number of consecutive failed polls at the end of the history, and stays below 3 |
| PollClient.ThirdConsecutiveFailureStops | app/page.tsx:362-370 | the third consecutive failed poll within the time limit stops with the status-check error |
| PollClient.RunTicksKeepsData | app/page.tsx:163 | polling never changes the job ids, topic or start time it polls for |
| PollClient.SubmitGuard | app/page.tsx:125 | a topic that is blank after trimming sends nothing; otherwise the trimmed topic is sent |
| PollClient.ShownError | app/page.tsx:152 | the error shown is the thrown error's message, or "Failed to create podcast" when that is empty; it is never empty |
| PollClient.StartPolling | app/page.tsx:131-154 | only an accepted answer starts polling, at `now` with no failures counted. A refusal shows its own `error` text; a rejected `fetch` or a body that is not JSON shows the thrown error's message; either falls back to "Failed to create podcast" when empty |
| PollClient.SubmittedTopicStartsPolling | app/page.tsx:125-149 | a topic the guard sends, at most 128 characters long, with a free slot and the audio job created, is accepted by the endpoint and starts polling for the created job ids under the topic sent |
| PollClient.FullLimiterShowsCapacityMessage | app/page.tsx:138-153 | a topic the guard sends while the limiter is full makes the page show the endpoint's capacity message |
| PollClient.ClientTopicPassesServerChecks | app/page.tsx:125-135 | what the page sends never fails the server's "required" or "empty" checks; only the length check can refuse it, and the server keeps the topic unchanged |

## Left out

- The promise plumbing of `run`: the resolve/reject wrappers, `await`, and the `finally` scheduling. Settlement is a separate event, and `Deliver` gives the outcome the caller receives.
- `console.log` calls and the `globalThis` singleton with its hot-reload re-initialisation (app/lib/concurrency-limiter.ts:107-128): process lifecycle, not logic. Parsing `MAX_CONCURRENT_GENERATIONS` is also left out. The bound is an `int`, so a `NaN` bound from `parseInt` is not modelled. With one, `activeCount >= maxConcurrent` and `activeCount < maxConcurrent` are both false, so every request would pass the 503 check (app/api/podcast/route.ts:131) and then wait in the queue forever (app/lib/concurrency-limiter.ts:39).
- The upstream `fetch` calls, environment lookups and request bodies of `createVPJob` and `createThumbnailJob` (app/api/podcast/route.ts:12-101): network I/O, modelled as the abstract `JobCreation` outcome.
- PodcastRoute.Post: returns the limiter as the request's synchronous part leaves it, just after admission. The task's later settlement is the separate `Settle` event, because other requests may interleave while the upstream calls run.
- PodcastRoute.Validate: every non-string `topic` (absent, `null`, numbers, objects) is one case, since the code treats them all alike.
- `setInterval` scheduling, `clearInterval` and React state setters. Ticks are sequential: overlapping ticks that share `retryCount`, and ticks already in flight when the interval is cleared, are not modelled.
- PollClient.Tick: when the result has a remote thumbnail, the code clears the interval only in the preload's `onload`/`onerror` handlers (app/page.tsx:298-332). Ticks that fire between the deciding tick and those handlers poll again and may set the result a second time. The model stops at the first `Done`.
- The `Image` preload and `encodeURIComponent`: browser APIs, modelled as an event and a function parameter.
- String length counts Dafny characters, not UTF-16 code units. A topic with characters outside the Basic Multilingual Plane counts one per character here, while JavaScript counts two.
- The status proxy (app/api/podcast/[id]/route.ts), the stats and health routes, the audio and thumbnail proxies, and all UI components and pages. They are pass-throughs or presentation.
