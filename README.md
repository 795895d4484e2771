# simple-transcribe: a Dafny model of video intake and processing

simple-transcribe accepts a YouTube URL, stores a `videos` row for it, and hands
the video to a worker that returns a transcript and a summary. The results go
into the `transcripts` and `summaries` tables. A web page submits URLs and polls
for the result. This project models the logic in that path and proves its
properties:

- **`YoutubeId`** models `extractVideoId`. The first of its two regular
  expressions is described structurally, the way a backtracking matcher runs it:
  leftmost start, alternatives in written order, greedy `.+`/`.*` with
  backtracking, and the `i` flag. The second pattern has no capture group, so it
  yields `undefined`.
- **`Database`** holds the record types of `database.ts`, their insert and update
  shapes, and what the store fills in on insert (identity and timestamps).
- **`Repository`** models `VideoRepository`: a class whose fields are the three
  tables and the next generated identity. Each method is proved against a pure
  function over a `Tables` value. `.single()` yields the row when exactly one is
  selected. Otherwise it raises the "no single row" error, `PGRST116`. Every store
  request may also fail with an injected store fault.
- **`Workflow`** models `VideoService` as a sequential state machine over the
  tables. The inputs are:
  - the store faults;
  - the youtube-dl and ytdl-core metadata results;
  - the worker's reply.

  `processVideo` returns its result and the row it hands to background
  processing. `processVideoInBackground` is a separate method.
- **`DemoVideo`** models the in-memory demo service of `video.ts`. It is a class
  holding the `videos` map, with the deferred callback as its own method.
- **`SummarizePage`** models the summarize page:
  - the URL check;
  - the submit guard and mutation callbacks over the form state;
  - the polling interval;
  - the status label.

Where the code departs from its evident intent, the model follows the code:

- A bare 11-character id is rejected. The second pattern matches it but has no capture group, so `extractVideoId` returns `undefined`.
- A child lookup error other than `PGRST116` is swallowed like not-found, so that field is null.
- `getVideoDetails` returns the repository's `{video, transcript, summary}` object as it is. It has no `hasTranscript`/`hasSummary` flags.

## Model

| member | source | states |
|---|---|---|
| Wrappers.MessageOr | backend/node-service/src/services/video.ts:63 | a thrown `Error` gives its message, and any other thrown value gives the fallback text |
| Database.StatusText | backend/node-service/src/types/database.ts:1 | each status has a spelling, and parsing it back gives the same status |
| Database.ParseStatus | backend/node-service/src/types/database.ts:1 | a status string is valid exactly when it is `processing`, `completed` or `failed` |
| Database.InsertedVideo | backend/node-service/src/types/database.ts:3-12 | a stored video has exactly the inserted fields, plus the store's identity and timestamps |
| Database.InsertedText | backend/node-service/src/types/database.ts:14-26 | a stored transcript or summary has exactly the inserted `video_id` and `text`, plus identity and creation time |
| Database.ApplyUpdate | backend/node-service/src/types/database.ts:48 | a partial update never changes the id or the timestamps, and the empty update changes nothing |
| Database.StatusUpdateOnlyStatus | backend/node-service/src/types/database.ts:48 | an update that carries only a status changes only the status |
| YoutubeId.CaptureAt | backend/node-service/src/services/videoService.ts:90 | a match of pattern 1 at a start position captures 11 id characters after a `youtube.com/…` or `youtu.be/` prefix |
| YoutubeId.LeftmostSkips | backend/node-service/src/services/videoService.ts:95 | start positions at which nothing matches do not change the leftmost match |
| YoutubeId.ExtractVideoId | backend/node-service/src/services/videoService.ts:87-104 | an id is returned exactly when pattern 1 matches at some start position, and it is the 11 characters captured at the leftmost such position (after a `youtube.com/…` or `youtu.be/` prefix, by `CaptureAt`), none of them `"`, `&`, `?`, `/` or whitespace; otherwise the result is `undefined` exactly when the whole URL is a bare id, and `null` when it is not |
| YoutubeId.LeftmostCapture | backend/node-service/src/services/videoService.ts:95 | `url.match` reports the first start position at which pattern 1 matches, with that match's capture; with no such position there is no match |
| YoutubeId.IsBareId | backend/node-service/src/services/videoService.ts:91 | a string matching pattern 2 consists of characters pattern 1 accepts in an id, yet pattern 1 matches nowhere in it |
| YoutubeId.BareIdYieldsNoId | backend/node-service/src/services/videoService.ts:91-98 | a bare 11-character id yields `undefined`, not an id |
| YoutubeId.NoCaptureInPrefix | backend/node-service/src/services/videoService.ts:90 | no match can start before the first `y` or `Y` |
| YoutubeId.ShortLinkYieldsId | backend/node-service/src/services/videoService.ts:90 | a `youtu.be/<id>` link yields that id when the text before the host contains no `y` or `Y`, whatever follows the id |
| YoutubeId.WatchLinkYieldsId | backend/node-service/src/services/videoService.ts:90 | a link ending in `youtube.com/watch?v=<id>` yields that id when the text before the host contains no `y` or `Y` |
| YoutubeId.EmbedLinkYieldsId | backend/node-service/src/services/videoService.ts:90 | a `youtube.com/embed/<id>` link yields that id when the text before the host contains no `y` or `Y` and the text after the id contains no `/` |
| Repository.OrThrow | backend/node-service/src/repositories/videoRepository.ts:25-26 | a read returns the row exactly when one was found; not-found becomes the `PGRST116` error |
| Repository.OrNull | backend/node-service/src/repositories/videoRepository.ts:113-123 | a child lookup gives its row when one was found, and null otherwise |
| Repository.Single | backend/node-service/src/repositories/videoRepository.ts:19-23 | `.single()` finds the row exactly when one row is selected; a store fault is reported as such |
| Repository.LookupVideo | backend/node-service/src/repositories/videoRepository.ts:18-27 | with no fault, the select by id finds `videos[id]` exactly when that row exists |
| Repository.LookupByYoutubeId | backend/node-service/src/repositories/videoRepository.ts:29-38 | a found row is a stored row carrying the requested YouTube id; with no fault, one is found exactly when one row carries it |
| Repository.LookupChild | backend/node-service/src/repositories/videoRepository.ts:107-111 | a found transcript or summary belongs to the requested video; with no fault, one is found exactly when that video has one row |
| Repository.InsertVideo | backend/node-service/src/repositories/videoRepository.ts:7-16 | an insert adds exactly one row under an unused identity and returns it; on a fault it throws and adds nothing |
| Repository.InsertTranscript | backend/node-service/src/repositories/videoRepository.ts:52-66 | the same for a transcript; the other tables are untouched |
| Repository.InsertSummary | backend/node-service/src/repositories/videoRepository.ts:68-82 | the same for a summary; the other tables are untouched |
| Repository.UpdateStatus | backend/node-service/src/repositories/videoRepository.ts:40-50 | only the status of the row with that identity changes, and the updated row is returned; a missing row is `PGRST116` and a fault is thrown, both with no change |
| Repository.Details | backend/node-service/src/repositories/videoRepository.ts:84-163 | it fails exactly when the video select fails, with that error; a transcript or summary is present exactly when its select had no fault and found one row; a failed transcript select does not affect the summary |
| Repository.UniqueIdFound | backend/node-service/src/repositories/videoRepository.ts:29-38 | when YouTube ids are unique, the select by YouTube id finds the one row that carries it |
| Repository.AbsentIdNotFound | backend/node-service/src/repositories/videoRepository.ts:29-38 | a YouTube id no row carries is "no single row" |
| Repository.InsertKeepsUnique | backend/node-service/src/repositories/videoRepository.ts:7-16 | inserting a video with a new YouTube id keeps YouTube ids unique |
| Repository.UpdateKeepsUnique | backend/node-service/src/repositories/videoRepository.ts:40-50 | a status update keeps YouTube ids unique |
| Repository.SelectSingle | backend/node-service/src/repositories/videoRepository.ts:19-23 | the select step the methods share computes `.single()` |
| Repository.VideoRepository.CreateVideo | backend/node-service/src/repositories/videoRepository.ts:7-16 | the tables and the result are those of `InsertVideo`, and the tables stay well formed |
| Repository.VideoRepository.GetVideoById | backend/node-service/src/repositories/videoRepository.ts:18-27 | read-only; returns the outcome of `LookupVideo` |
| Repository.VideoRepository.GetVideoByYoutubeId | backend/node-service/src/repositories/videoRepository.ts:29-38 | read-only; returns the outcome of `LookupByYoutubeId` |
| Repository.VideoRepository.UpdateVideoStatus | backend/node-service/src/repositories/videoRepository.ts:40-50 | the tables and the result are those of `UpdateStatus` |
| Repository.VideoRepository.CreateTranscript | backend/node-service/src/repositories/videoRepository.ts:52-66 | the tables and the result are those of `InsertTranscript` |
| Repository.VideoRepository.CreateSummary | backend/node-service/src/repositories/videoRepository.ts:68-82 | the tables and the result are those of `InsertSummary` |
| Repository.VideoRepository.GetVideoWithDetails | backend/node-service/src/repositories/videoRepository.ts:84-163 | read-only; its step-by-step `transcript`/`summary` locals give exactly `Details` |
| Workflow.ThumbnailOrNull | backend/node-service/src/services/videoService.ts:156 | an absent or empty thumbnail is stored as null; any other thumbnail is kept |
| Workflow.NewRow | backend/node-service/src/services/videoService.ts:152-158 | a new row carries the extracted id, the submitted URL, the fetched title and status `processing` |
| Workflow.ViaYoutubeDl | backend/node-service/src/services/videoService.ts:132-167 | a row is created exactly when the metadata has a non-empty title and the insert succeeds; otherwise nothing changes |
| Workflow.ViaYtdl | backend/node-service/src/services/videoService.ts:106-130 | a row is created exactly when the metadata was fetched and the insert succeeds; otherwise nothing changes |
| Workflow.Create | backend/node-service/src/services/videoService.ts:72-80 | creation succeeds exactly when youtube-dl can supply the row or ytdl-core can; the row comes from youtube-dl when it can, and is dispatched; a failure changes nothing and gives the generic message |
| Workflow.Intake | backend/node-service/src/services/videoService.ts:31-85 | every failure reaches the caller as "Failed to process video. Please try again." with no table changed and nothing dispatched |
| Workflow.Completion | backend/node-service/src/services/videoService.ts:171-205 | the `try` block succeeds exactly when the worker reports `completed`, the row exists, and the status update and every insert of non-empty text succeed |
| Workflow.Background | backend/node-service/src/services/videoService.ts:169-210 | the background step keeps the tables well formed |
| Workflow.VideoService.ProcessVideo | backend/node-service/src/services/videoService.ts:31-85 | the tables, the result and the dispatched row are those of `Intake` |
| Workflow.VideoService.ProcessWithYoutubeDl | backend/node-service/src/services/videoService.ts:132-167 | the tables and the created row are those of `ViaYoutubeDl` |
| Workflow.VideoService.ProcessWithYtdl | backend/node-service/src/services/videoService.ts:106-130 | the tables and the created row are those of `ViaYtdl` |
| Workflow.VideoService.ProcessVideoInBackground | backend/node-service/src/services/videoService.ts:169-210 | the tables, and the error that escapes to the logging `.catch`, are those of `Background` |
| Workflow.VideoService.GetVideoDetails | backend/node-service/src/services/videoService.ts:212-215 | read-only; returns the repository's details |
| Workflow.InvalidUrlChangesNothing | backend/node-service/src/services/videoService.ts:38-41 | a URL with no extractable id fails with the generic message, creates no row and dispatches nothing |
| Workflow.BareIdRejected | backend/node-service/src/services/videoService.ts:38-41 | a bare 11-character id is rejected in the same way |
| Workflow.LookupFaultRejected | backend/node-service/src/services/videoService.ts:64-70 | a lookup error other than `PGRST116` propagates as the generic failure |
| Workflow.ExistingRowReused | backend/node-service/src/services/videoService.ts:46-61 | when YouTube ids are unique and neither the lookup by YouTube id nor the video select meets a store fault, a row carrying the extracted id is returned unchanged with no write; it is dispatched exactly when its transcript or its summary did not come back |
| Workflow.NotFoundMeansAbsent | backend/node-service/src/services/videoService.ts:63-70 | when YouTube ids are unique, `PGRST116` from the lookup means no row carries the id |
| Workflow.AbsentIdCreates | backend/node-service/src/services/videoService.ts:63-80 | for an id no row carries, when the lookup by YouTube id meets no store fault, the intake is creation |
| Workflow.CreationOnlyForAbsentId | backend/node-service/src/services/videoService.ts:44-80 | when YouTube ids are unique, an intake that writes anything writes only for an id no row carried |
| Workflow.IntakeKeepsUnique | backend/node-service/src/services/videoService.ts:31-85 | the intake keeps the tables well formed and YouTube ids unique |
| Workflow.IntakeResultStored | backend/node-service/src/services/videoService.ts:31-85 | a returned video is stored under its identity and carries the extracted id |
| Workflow.ResubmissionReusesRow | backend/node-service/src/services/videoService.ts:46-61 | after a successful submission, submitting the same id again, in any URL form, returns the same row and writes nothing, provided the second submission's lookup by YouTube id and its video select meet no store fault |
| Workflow.BackgroundKeepsUnique | backend/node-service/src/services/videoService.ts:169-210 | under any worker reply and any store faults, the background step keeps every video row and its YouTube id, so YouTube ids stay unique |
| Workflow.ResubmitAfterBackground | backend/node-service/src/services/videoService.ts:46-61 | after a successful submission and a background run under any reply and any faults, a second submission of the same id, with no store fault on its lookup or video select, returns the first submission's row and writes nothing |
| Workflow.BackgroundCompletes | backend/node-service/src/services/videoService.ts:180-201 | with no store fault on the `completed` update or the two inserts, a `completed` reply marks the row `completed`, then inserts a transcript and a summary, each only when its text is non-empty |
| Workflow.BackgroundFailsOtherwise | backend/node-service/src/services/videoService.ts:202-209 | when the final `failed` update meets no store fault, any other reply, or a failed request, marks the row `failed` and changes nothing else |
| Workflow.TranscriptFaultEndsFailed | backend/node-service/src/services/videoService.ts:183-209 | when the final `failed` update meets no store fault, a failed transcript insert after the row was marked `completed` leaves it `failed`, with no text row |
| Workflow.BackgroundFinalStatus | backend/node-service/src/services/videoService.ts:169-210 | when the final `failed` update meets no store fault, the row ends `completed` or `failed` with no other video row changed, and it is `completed` exactly when the `try` block succeeded |
| Workflow.BackgroundFailedMarkFault | backend/node-service/src/services/videoService.ts:202-209 | when the `try` block throws and the final `failed` update meets a store fault, the tables stay as the `try` block left them: the row keeps its status (`processing` for a row this intake created) or is left `completed`, and the fault escapes to the logging `.catch` |
| Workflow.BackgroundMissingRow | backend/node-service/src/services/videoService.ts:206-209 | for a vanished row nothing is written, and the error of the final update escapes to the logging `.catch` |
| Workflow.RowsAfterInsert | backend/node-service/src/repositories/videoRepository.ts:52-66 | an inserted text row joins its video's selection, which grows by one |
| Workflow.CompletedRunVideos | backend/node-service/src/services/videoService.ts:180-183 | a fault-free completed run keeps the tables well formed and YouTube ids unique, and marks the row `completed` |
| Workflow.CompletedRunRows | backend/node-service/src/services/videoService.ts:185-201 | a fault-free completed run adds one transcript row and one summary row for each non-empty text |
| Workflow.CompletedRowNotRedispatched | backend/node-service/src/services/videoService.ts:46-61 | after a run with a `completed` reply, both texts non-empty and no store fault, for a row with no texts, a resubmission whose lookup and selects meet no store fault returns the `completed` row and dispatches nothing |
| Workflow.CompletedRunDetails | backend/node-service/src/services/videoService.ts:180-201 | after a `completed` run with both texts non-empty and no store fault on its three writes, for a row with no texts, the details (fetched with no store fault) show the row `completed` with the worker's transcript and summary |
| Workflow.FailedRunDetails | backend/node-service/src/services/videoService.ts:202-209 | after a run whose reply is not `completed` and whose final `failed` update meets no store fault, for a row with no texts, the details show the row `failed` with neither text |
| Workflow.RedispatchDuplicatesTranscript | backend/node-service/src/services/videoService.ts:52-56 | when YouTube ids are unique and a row with one transcript is run again with a `completed` reply, a non-empty transcript and no store fault on the `completed` update or either insert, it gains a second transcript; no single transcript is then found, so the next resubmission, with no store fault on its lookup or video select, dispatches the row again |
| DemoVideo.Pended | backend/node-service/src/services/video.ts:21-25 | the stored entry is `pending`, with only the id and the URL |
| DemoVideo.MarkProcessing | backend/node-service/src/services/video.ts:33-36 | the first update sets `processing` and keeps every other field |
| DemoVideo.MarkCompleted | backend/node-service/src/services/video.ts:45-51 | completion sets the sample title, transcript and summary, and keeps the id and URL |
| DemoVideo.MarkFailed | backend/node-service/src/services/video.ts:60-64 | the `catch` sets `failed` with the error's message, or "Unknown error", and keeps the other fields |
| DemoVideo.Deferred | backend/node-service/src/services/video.ts:28-66 | the callback ends `completed` exactly when nothing was thrown, and `failed` with the message otherwise; the id and URL are always kept |
| DemoVideo.SubmissionLifecycle | backend/node-service/src/services/video.ts:17-66 | a fresh entry ends as the completed sample entry, or, when the first step throws, as a failed entry holding only the error |
| DemoVideo.DemoVideoStore.ProcessVideo | backend/node-service/src/services/video.ts:17-25 | the pending entry is stored under the generated id, which is returned; no other entry changes |
| DemoVideo.DemoVideoStore.RunDeferred | backend/node-service/src/services/video.ts:28-66 | only the entry for that id changes, to `Deferred` of its previous value |
| DemoVideo.DemoVideoStore.GetVideoStatus | backend/node-service/src/services/video.ts:71-76 | read-only; returns the stored entry, or "Video not found" for an unknown id |
| SummarizePage.IsValidYoutubeUrl | frontend/src/app/summarize/page.tsx:28-31 | an accepted URL is an optional `http://`/`https://`, an optional `www.`, `youtube.com/` or `youtu.be/`, then at least one character on one line |
| SummarizePage.DecompositionValid | frontend/src/app/summarize/page.tsx:28-31 | every string of that form is accepted |
| SummarizePage.Mutation | frontend/src/app/summarize/page.tsx:55-73 | a request is sent exactly when the URL is valid; an invalid URL throws "Please enter a valid YouTube URL" |
| SummarizePage.RefetchInterval | frontend/src/app/summarize/page.tsx:99-103 | polling is off with no data, and every 2000 ms exactly while the transcript or the summary is missing |
| SummarizePage.StatusLabel | frontend/src/app/summarize/page.tsx:171 | the label is "Completed" exactly when both parts are present, and "Processing" otherwise |
| SummarizePage.PollingStopsWhenCompleted | frontend/src/app/summarize/page.tsx:99-103 | polling stops exactly when the label reads "Completed" |
| SummarizePage.SummarizeForm.OnSuccess | frontend/src/app/summarize/page.tsx:74-77 | stores the returned video's id and clears the error |
| SummarizePage.SummarizeForm.OnError | frontend/src/app/summarize/page.tsx:78-80 | shows the error's message, or "Failed to process video" |
| SummarizePage.SummarizeForm.HandleSubmit | frontend/src/app/summarize/page.tsx:106-112 | clears the error; an empty URL sends nothing; the backend is called exactly for a non-empty valid URL, and the settled outcome lands in the id or the error |

## Left out

- Logging (`console.*`, `logger.*`) is not modelled, except that in the demo callback the two `logger.info` calls are kept as the points where its `try` block can throw (`DeferredFault`), since nothing else in that block can throw. A `logger.error` that throws inside the `catch` would skip the `failed` update; that case is not modelled.
- The network calls are inputs, not modelled code. This covers ytdl-core, youtube-dl-exec, the worker's `POST /process`, and `supabase.auth.getSession()` and `axios` on the page. Their outcomes are parameters: `MetadataFetch`, `WorkerReply`, and the reply handed to `HandleSubmit`.
- The Supabase client and PostgREST are abstracted to the behaviour the code relies on. `.single()` finds exactly one row or reports `PGRST116`, and any request may fail with a store fault. Database-side defaults, triggers and constraints are not modelled. In particular, nothing refreshes `updated_at` on an update.
- Generated values are modelled as follows:
  - server-generated identities are natural numbers from a counter;
  - the demo's `uuidv4()` id is a parameter;
  - timestamps are a `now` parameter.
- Concurrency is not modelled:
  - The background task detached with `.catch` is a separate sequential method run after `ProcessVideo`. `ProcessVideo` reports the row it would hand over.
  - The demo's `setTimeout` callback is the separate method `RunDeferred`.
  - The race between two simultaneous submissions of the same id is out of scope. `IntakeKeepsUnique` holds only for one intake at a time.
- `User`, `UserVideo` and their table shapes (backend/node-service/src/types/database.ts:28-40, 60-69) are not used by the core and are not modelled. Neither are the unused transcript and summary update shapes (lines 53, 58).
- YoutubeId.ExtractVideoId counts characters as Unicode code points, while JavaScript strings and a regular expression without the `u` flag count UTF-16 code units. An id containing characters outside the Basic Multilingual Plane is therefore counted differently: `{11}` may capture part of a surrogate pair in the source, where the model sees fewer characters.
- YoutubeId.ExtractVideoId implements only the two fixed patterns, described structurally. It is not a general regular-expression engine. Case folding under the `i` flag is modelled for ASCII letters only; no other character in the pattern has a case variant.
- `processVideo` is called with an extra `userId` argument at backend/node-service/src/index.ts:82. The service ignores it, and the model has no such parameter.
- The Express routes (`index.ts`, `routes/video.ts`) and their HTTP status mapping are not part of this model. Nor are the Python worker, authentication, or the page's rendering and sign-out.
- SummarizePage.RefetchInterval and SummarizePage.StatusLabel take `hasTranscript`/`hasSummary` as given. The backend's details response (`{video, transcript, summary}`, backend/node-service/src/repositories/videoRepository.ts:158-162) carries neither field. This model does not connect the page to that response.
- SummarizePage.SummarizeForm.HandleSubmit settles the mutation within the call. The pending state between submission and `onSuccess`/`onError` is not modelled.
