# Clip-job pipeline of a video segment downloader, in Dafny

This project models the core of a web service that cuts a time-bounded clip
out of a YouTube video. A client submits a video URL, a start and an end
offset in seconds, and a quality. The service checks the request and
estimates the clip's size. It then stores a pending `DownloadTask` record
and queues a background job. The job downloads the full video into a temp
cache (or reuses a cached copy), cuts the segment with ffmpeg, and reports
progress through the record until it is `completed` or `failed`. A
maintenance sweep deletes stale cache files. A browser script renders
clock times, keeps the chosen interval inside the video, and pre-checks the
URL.

One Dafny module per source file:

| module | file | models |
|---|---|---|
| `Common` | `common.dfy` | Option/Result types, `str()` of integers, arithmetic lemmas |
| `VideoModels` | `models.dfy` | the `VideoInfo` row and its stored format records (videos/models.py) |
| `TaskModels` | `models.dfy` | the `DownloadTask` record, its status domain and creation defaults |
| `Store` | `store.dfy` | the database tables and the job queue as a class, `Database` |
| `Validators` | `validators.dfy` | URL pattern, timestamps with drift clamp, quality lookup, 10 GiB check |
| `Progress` | `progress.dfy` | the progress clamp, the progress lookup, the size estimate |
| `FileManager` | `file_manager.dfy` | cache and output names, the two media directories as a class, the sweep |
| `Services` | `services.dfy` | creation guard, format selector, download progress hook, ffmpeg command and errors |
| `Tasks` | `tasks.dfy` | the background job `process_download_segment` and `cleanup_old_files` |
| `VideoServices` | `video_services.dfy` | the format filter and the upsert of `get_video_info` |
| `Serializers` | `serializers.dfy` | request bounds, `download_url` and `file_size` of a task |
| `Views` | `views.dfy` | the three endpoints and their guard chains |
| `Client` | `client.dfy` | `formatTime`, the time pickers, the preview clamp, the URL regex, the click check |

The job runner is imperative. `Tasks.ProcessDownloadSegment` updates the
`Database` record step by step and saves it at each checkpoint. Every save
is also appended to a ghost log, `Database.saves`. The method is proved
equal to the pure function `Tasks.RunJob`, which lists the records saved in
order. The lemmas about `RunJob` state what a run promises: status order,
the checkpoints 5, 10 or 65, 70, 90 and 100, progress bounds, and what a
failure leaves behind. The outcomes of the external tools are inputs to
the job:

- whether the cache file exists;
- the sequence of download progress reports (`HookEvent`);
- the download result (`DownloadOutcome`);
- the cut result (`CutOutcome`).

Some behaviours of the code worth knowing:

- The job saves progress 10 only on a cache miss
  (downloads/tasks.py:59-63); a cache hit goes straight to 65
  (downloads/tasks.py:72-74). Nothing holds a lock or lease on the temp
  file between the existence check at downloads/tasks.py:59 and the
  download, so two jobs for the same video and quality can both download.
- Progress is not monotone. The download hook reports
  `int(downloaded / total * 60)` (downloads/services.py:77-79), so a
  report after checkpoint 10 can save a value below 10
  (`Tasks.ProgressCanGoBack`), and when the downloaded bytes run past an
  estimated total it can save a value above 100
  (`Tasks.ProgressCanPassHundred`). The real bounds are proved instead
  (`Tasks.RunProgressBounds`).
- The size estimate is `int()` of a quotient (downloads/progress.py:50-51):
  it truncates, it does not round (`Progress.EstimateTruncates`).
- No 3600-second cap limits the segment length, although a test expects
  one (downloads/tests.py:42-44). `Validators.NoSegmentLengthCap` states
  what the code does.

## Model

| member | source | states |
|---|---|---|
| `TaskModels.StatusOf` | downloads/models.py:6-11 | a stored status is one of the four choices; any other spelling has no status |
| `TaskModels.StatusNameRoundTrip` | downloads/models.py:6-11 | every status is stored as one of "pending", "processing", "completed", "failed" and reads back as itself |
| `TaskModels.NewTask` | downloads/models.py:13-23 | a new record keeps the given video, interval and quality, is pending at progress 0, has no output, no error and no completion time |
| `TaskModels.NewTaskConsistent` | downloads/models.py:18-23 | a new record satisfies the status/progress consistency the record promises |
| `Store.Database.Create` | downloads/models.py:13 | a new record gets an id no existing record has, and nothing else in the table changes |
| `Validators.ValidateYoutubeUrl` | downloads/validators.py:6-13 | true exactly when a prefix of the URL is in the language of the server's pattern |
| `Validators.PatternMatches` | downloads/validators.py:6-13 | the URL starts with an optional scheme, an optional "www.", a listed host and domain, "/", an optional path form and 11 characters outside "&=%?" |
| `Validators.PatternIsPrefixMatch` | downloads/validators.py:11 | no end anchor: any text appended to an accepted URL is still accepted |
| `Validators.AcceptsWatchUrl` | downloads/tests.py:10-14 | "https://www.youtube.com/watch?v=dQw4w9WgXcQ" is accepted |
| `Validators.RejectsOtherHost` | downloads/tests.py:12-15 | "https://example.com/video" is refused |
| `Validators.DialectsAgree` | downloads/validators.py:6 | two spellings of the pattern that differ only in line terminators absent from the URL accept it alike |
| `Validators.ValidateTimestamps` | downloads/validators.py:16-39 | rejects iff start < 0, end <= start or end > duration + 5, with the first failing check's message; accepts with start unchanged and end clamped to duration when it overshoots by at most 5 |
| `Validators.AcceptedIntervalOrder` | downloads/validators.py:27-37 | an accepted interval is non-empty iff the clamp did not fire or start < duration |
| `Validators.ClampMakesEmptyInterval` | downloads/validators.py:31-37 | (1000, 1003, 1000) is accepted as (1000, 1000) |
| `Validators.ValidateTimestampsOrdered` | downloads/validators.py:29-37 | corrected check: accepts only 0 <= start < end <= duration, and exactly the non-empty intervals the original accepts, unchanged |
| `Validators.OrderedRefusesClampedEmpty` | downloads/validators.py:29-35 | the corrected check refuses (1000, 1003, 1000) with the order message and still clamps (10, 1003, 1000) to (10, 1000) |
| `Validators.NoSegmentLengthCap` | downloads/validators.py:27-37 | a 3601-second segment of a 5000-second video is accepted unchanged |
| `Validators.ValidateQuality` | downloads/validators.py:41-53 | true iff some listed format has the selector as quality label or as format id (false for no formats) |
| `Validators.ValidateFileSize` | downloads/validators.py:55-60 | passes iff the size is at most 10 737 418 240 bytes; otherwise fails with the 10GB message |
| `Progress.Clamp` | downloads/progress.py:11 | the stored value lies in [0, 100], equals the input inside it, and is 0 or 100 outside it |
| `Progress.GetProgress` | downloads/progress.py:16-23 | the stored progress of a known task, 0 for an unknown one |
| `Progress.UpdateProgress` | downloads/progress.py:6-14 | a known task gets the clamped progress and that record is saved once; an unknown task leaves the table and the save log unchanged; the videos, the queue and the id counter never change |
| `Progress.LinearEstimate` | downloads/progress.py:44-51 | 0 without a size or a duration; otherwise size * (end - start) / duration truncated (its properties are `Progress.WholeVideoEstimate`, `Progress.EstimateMonotone`, `Progress.EstimateTruncates`) |
| `Progress.FirstAnswering` | downloads/progress.py:35-38 | the first format in list order answering to the selector by quality or format id; none iff no format answers |
| `Progress.TruncDiv` | downloads/progress.py:51 | `int()` of a quotient, which for a non-negative dividend and positive divisor is floor division |
| `Progress.Estimate` | downloads/progress.py:25-51 | 0 when the quality check fails; otherwise the linear estimate from the first answering format |
| `Progress.EstimateSize` | downloads/progress.py:31-51 | the loop with its early break computes `Estimate` |
| `Progress.FoundIffQualityValid` | downloads/progress.py:35-41 | the estimate finds a format exactly when `validate_quality` accepts the selector |
| `Progress.WholeVideoEstimate` | downloads/progress.py:49-51 | estimating (0, duration) gives back the full file size |
| `Progress.EstimateMonotone` | downloads/progress.py:49-51 | a longer segment never gets a smaller (and never a negative) estimate |
| `Progress.EstimateExample` | downloads/progress.py:49-51 | 100 000 000 bytes over 300 s gives 10 000 000 for seconds 10 to 40 |
| `Progress.EstimateTruncates` | downloads/progress.py:50-51 | 10 bytes over 3 s for 2 s gives 6: truncation, not rounding |
| `FileManager.GetTempPath` | downloads/file_manager.py:18-22 | the cache file of a key lies in TEMP_DIR |
| `FileManager.TempNamesDistinct` | downloads/file_manager.py:22 | with 11-character ids, equal cache names mean equal (id, quality) keys |
| `FileManager.TempNamesCollide` | downloads/file_manager.py:22 | without that length, ("a_b", "c") and ("a", "b_c") share a cache file |
| `FileManager.OutputNameIgnoresQuality` | downloads/file_manager.py:24-28 | the output name is the same for every quality |
| `FileManager.OutputNamesDistinct` | downloads/file_manager.py:28 | for one video, equal output names mean equal start and end |
| `FileManager.GetOutputFilename` | downloads/file_manager.py:24-28 | "{id}_{start}_{end}.mp4" (its properties are `FileManager.OutputNameIgnoresQuality` and `FileManager.OutputNamesDistinct`) |
| `FileManager.GetOutputPath` | downloads/file_manager.py:30-33 | the output file lies in DOWNLOAD_DIR under the given name |
| `FileManager.Survivors` | downloads/file_manager.py:61-64 | an entry survives a sweep iff its mtime is at or after `now - max_age` or its removal fails; survivors are unchanged |
| `FileManager.SweepIdempotent` | downloads/file_manager.py:54-64 | a second sweep with the same cutoff removes nothing more |
| `FileManager.SweepKeepsMoreWithEarlierCutoff` | downloads/file_manager.py:54-64 | a larger maximum age keeps a superset of the entries |
| `FileManager.MediaFiles.GetFileSize` | downloads/file_manager.py:35-40 | the entry's size, 0 for a missing path |
| `FileManager.MediaFiles.DeleteFile` | downloads/file_manager.py:42-52 | nothing changes for an absent path, a missing path or a removal that raises; otherwise exactly that entry goes, and the other directory is untouched |
| `FileManager.MediaFiles.CleanupOldTempFiles` | downloads/file_manager.py:54-64 | the temp directory becomes its survivors; DOWNLOAD_DIR is unchanged |
| `Services.CreateGuard` | downloads/services.py:24-31 | passes iff the video row exists and 0 <= start < end <= duration; a missing row gives the "Video info not found" message, other failures "Invalid timestamps" |
| `Services.CreateDownloadTask` | downloads/services.py:17-49 | on failure no record is created; on success exactly one new pending record with the given interval and quality |
| `Services.GuardAfterValidator` | downloads/services.py:30-31 | after the validator accepts, the guard refuses iff the clamp fired with start at or past the duration |
| `Services.GuardAfterOrderedValidator` | downloads/services.py:30-31 | after the corrected validator accepts, the guard always passes |
| `Services.ClampedIntervalFailsCreation` | downloads/services.py:30-31 | the validator's (1000, 1000) for (1000, 1003) on a 1000-second video fails the guard |
| `Services.FormatSelector` | downloads/services.py:59-68 | "best" gives the fixed best-mp4 chain, digits followed by "p" a height-capped chain, anything else passes through |
| `Services.HookTotal` | downloads/services.py:75 | `total_bytes` when present and non-zero, else `total_bytes_estimate`, else 0 |
| `Services.HeightLabelsSelectDifferently` | downloads/services.py:62-65 | two height labels give the same selector iff they are the same label |
| `Services.BarePPassesThrough` | downloads/services.py:62-68 | a bare "p" passes through unchanged |
| `Services.SelectorFor720p` | downloads/services.py:62-65 | "720p" caps the height at "720" |
| `Services.ProgressHook` | downloads/services.py:71-82 | calls back iff a callback exists and the report is "finished" or downloading with a positive total; 65 when finished, floor(downloaded*60/total) while downloading |
| `Services.HookAtMostSixty` | downloads/services.py:75-79 | while downloading with downloaded <= total, the reported value is at most 60 |
| `Services.CallbackBounds` | downloads/services.py:71-82 | every callback value is at least 0, and at most 65 when no report counts more bytes than its total |
| `Services.HookHalfway` | downloads/services.py:75-82 | 50 of 100 bytes then "finished" call back 30 then 65 |
| `Services.DownloadFullVideo` | downloads/services.py:51-96 | requests the watch URL with the chosen selector and output path; passes the callback values in order; on success writes the temp file and returns its path unchanged, on error changes no file |
| `Services.WatchUrlIsValid` | downloads/services.py:57 | the watch URL built for an 11-character id passes the server's URL check |
| `Services.FfmpegCommand` | downloads/services.py:109-118 | 13 arguments: the binary first, the input path at 3, the output path last |
| `Services.FfmpegOffsetsReadBack` | downloads/services.py:109-118 | the start and end arguments are decimal text that reads back as the requested offsets |
| `Services.CutErrorMessage` | downloads/services.py:127-132 | a non-zero exit gives "FFmpeg error: " followed by stderr; a missing binary gives the install message; other errors keep their text |
| `Services.ExtractSegment` | downloads/services.py:98-132 | runs that command; on success the output file is written, otherwise the mapped error is returned and no file changes |
| `Services.CleanupTempFiles` | downloads/services.py:134-137 | is `delete_file` on the path |
| `Tasks.FailedRecord` | downloads/tasks.py:117-121 | the failure save sets status failed and the error text and keeps progress, output and completion time |
| `Tasks.DownloadStage` | downloads/tasks.py:56-74 | no error iff cached or the download succeeds; only progress changes |
| `Tasks.FinishStage` | downloads/tasks.py:76-115 | first saves the record at 70 |
| `Tasks.ProgressCallback` | downloads/tasks.py:35-41 | the closure saves the record with exactly the given progress, unclamped |
| `Tasks.SaveCallbacks` | downloads/tasks.py:66-71 | each callback value is saved in order; the record ends at the last value |
| `Tasks.DownloadMiss` | downloads/tasks.py:59-71 | saves 10 and then the callback values; writes the temp file iff the download succeeds |
| `Tasks.DownloadStep` | downloads/tasks.py:56-74 | the cache check picks 65 on a hit, or the download on a miss; a hit writes no file |
| `Tasks.FinishStep` | downloads/tasks.py:76-115 | saves 70; then either the failed record, or 90 and the completed record with the output name; writes the output file iff the cut succeeds |
| `Tasks.ConcludeStep` | downloads/tasks.py:117-121 | a download error saves the failed record and runs no later step |
| `Tasks.AfterStartStep` | downloads/tasks.py:56-115 | the steps after the processing mark save what `AfterStart` lists |
| `Tasks.RunJob` | downloads/tasks.py:43-123 | the records a run saves, in order, and its returned message (its properties are the `Tasks.Run*` lemmas below) |
| `Tasks.RunMissingVideo` | downloads/tasks.py:50-52 | with the video row gone (a branch the source cannot reach, see Left out), the processing mark then the failed record |
| `Tasks.RunPresent` | downloads/tasks.py:43-115 | the saves, final record and files of a run are those of `RunJob` |
| `Tasks.RunExisting` | downloads/tasks.py:43-123 | for a known task, the saves, final record, message and files are those of `RunJob` |
| `Tasks.ProcessDownloadSegment` | downloads/tasks.py:12-123 | an unknown id returns "Task not found" and writes nothing; otherwise the saves, final record, message and files are those of `RunJob` |
| `Tasks.CleanupOldFiles` | downloads/tasks.py:125-129 | the temp sweep with a maximum age of 86400 s; returns "Cleanup completed" |
| `Tasks.RunStartsProcessing` | downloads/tasks.py:44-48 | the first save is status processing at progress 5, and a run saves at least twice |
| `Tasks.FailureMessageDiffers` | downloads/tasks.py:115-123 | a "Failed: " message is never "Completed" |
| `Tasks.StageOnlyMovesProgress` | downloads/tasks.py:59-74 | the download step changes only progress, and saves 65, or 10 followed by the callback values |
| `Tasks.RunOutcome` | downloads/tasks.py:43-123 | every save but the last is processing; the last is completed iff video present, cached or downloaded, and cut ok; otherwise failed with an error, and the message is "Failed: " plus that error |
| `Tasks.CompletedRun` | downloads/tasks.py:102-115 | a completed run returns "Completed"; its record holds "downloads/" plus the output name and the completion time, and is consistent |
| `Tasks.CompletedRunCheckpoints` | downloads/tasks.py:44-113 | a completed run saves progress 5, then 65 or 10 and the callback values, then 70, 90, 100 |
| `Tasks.ConcludeCompletes` | downloads/tasks.py:76-115 | after a clean download and a successful cut, saves 70, 90, 100 and the completed record |
| `Tasks.FailedRunKeepsOutput` | downloads/tasks.py:117-121 | a failed run ends failed with the output file and completion time it started with, and is consistent |
| `Tasks.RunKeepsRequest` | downloads/tasks.py:43-121 | no save changes the id, video, interval, quality or creation time |
| `Tasks.NoCutAfterFailedDownload` | downloads/tasks.py:66-95 | when the download raised, the cut outcome does not matter: the cut is not attempted |
| `Tasks.CacheHitSkipsDownload` | downloads/tasks.py:59-74 | on a cache hit the download reports and result do not matter |
| `Tasks.StageProgressBounds` | downloads/tasks.py:59-74 | the download step saves values of at least 0, and at most 65 when no report passes its total |
| `Tasks.ConcludeProgress` | downloads/tasks.py:76-121 | later saves keep the progress reached or lie in [70, 100] |
| `Tasks.RunProgressBounds` | downloads/tasks.py:43-115 | every saved progress is at least 0, and at most 100 when no report counts more bytes than its total |
| `Tasks.ProgressCanGoBack` | downloads/tasks.py:61-71 | 5 of 100 bytes saves 5, 10, 3, 70, 90, 100: progress is not monotone |
| `Tasks.ProgressCanPassHundred` | downloads/tasks.py:35-39 | 200 bytes against a 100-byte estimate saves 120: the closure does not clamp |
| `VideoServices.Convert` | videos/services.py:55-72 | a kept format gets quality "{height}p", its id, size and "mp4"; a codec counts as present unless it is "none" |
| `VideoServices.FilterFormats` | videos/services.py:47-72 | the loop with its `continue`s computes the kept, converted formats |
| `VideoServices.KeptFormats` | videos/services.py:47-72 | the kept, converted formats in list order; never more than the extracted ones |
| `VideoServices.KeptFormatsAppend` | videos/services.py:50-72 | filtering distributes over concatenation: order kept, duplicates kept |
| `VideoServices.KeptIsStored` | videos/services.py:52-72 | every mp4 format with a non-zero height is stored |
| `VideoServices.LabelOfKeptHeight` | videos/services.py:56-60 | "{h}p" passes the quality check if some kept format has height h; when no format id is spelled like it, only then |
| `VideoServices.FilterExample` | videos/services.py:50-72 | two 720-pixel mp4 formats are kept in order; webm and height 0 are dropped |
| `VideoServices.StoredInfo` | videos/services.py:74-93 | the stored row carries the extracted fields and, as `available_qualities`, exactly the returned formats |
| `Store.Database.Upsert` | videos/services.py:84-93 | the row of the video's id becomes the given row; tasks, queue, id counter and save log are unchanged |
| `VideoServices.GetVideoInfo` | videos/services.py:17-99 | on success the row for the id is replaced and returned; an extractor error is re-raised with the "Failed to extract video info: " prefix and the store is unchanged |
| `Serializers.Strip` | api/serializers.py:49 | the text `CharField` hands on (`trim_whitespace`): neither starts nor ends with a character Python counts as white space |
| `Serializers.SpaceAfterEveryStep` | api/serializers.py:49 | the white-space class used for stripping is the same however many times its definition is unfolded, so `PySpace` is exactly the `str.isspace` set |
| `Serializers.StripBlank` | api/serializers.py:49 | the stripped text is empty iff every character is white space |
| `Serializers.StripKeepsNul` | api/serializers.py:49 | the stripped text holds a NUL character iff the submitted text does |
| `Serializers.StripStartDropsSpace` | api/serializers.py:49 | what the leading strip removes is white space |
| `Serializers.StripEndDropsSpace` | api/serializers.py:49 | what the trailing strip removes is white space |
| `Serializers.StripIdempotent` | api/serializers.py:49 | stripping the stripped text changes nothing |
| `Serializers.StripKeepsBareText` | api/serializers.py:49 | a text without white space at either end is its own stripped text |
| `Serializers.FieldErrors` | api/serializers.py:45-49 | a field fails iff it is absent or malformed, a time is negative, or the quality is white space only or holds a NUL character |
| `Serializers.ValidateDownloadRequest` | api/serializers.py:45-54 | valid iff every field passes and start < end; the validated quality is the stripped, non-blank text; the order check is reported only when the fields pass |
| `Serializers.StrippedQualityKept` | api/serializers.py:45-54 | with ordered times, a quality whose stripped text is non-empty and NUL-free passes, and the request is validated with the stripped text |
| `Serializers.BareQualityKept` | api/serializers.py:45-54 | with ordered times, a quality without white space at either end and without NUL is validated as it is |
| `Serializers.BlankQualityRefused` | api/serializers.py:45-49 | a quality of white space only fails, under the quality field alone |
| `Serializers.ValidQualityIsBare` | api/serializers.py:49-54 | a validated quality is non-empty, NUL-free and has no white space at either end |
| `Serializers.StripPaddedExample` | api/serializers.py:49 | " 22\n" strips to "22" |
| `Serializers.PaddedQualityExample` | api/serializers.py:45-54 | " 22\n" is validated as "22" |
| `Serializers.BlankQualityExample` | api/serializers.py:45-49 | " \t" fails the quality field alone |
| `Serializers.ValidateExtractRequest` | api/serializers.py:56-57 | valid iff the URL field is given |
| `Serializers.GetDownloadUrl` | api/serializers.py:32-35 | a URL iff completed with a non-empty output file; the media URL followed by that name |
| `Serializers.GetFileSize` | api/serializers.py:37-43 | a size only when completed with output set; null when the file cannot be found |
| `Serializers.SerializeTask` | api/serializers.py:24-30 | the view carries id, status name, progress, error, download URL and size of the record |
| `Serializers.FileSizeOfRunnerOutput` | api/serializers.py:37-43 | for the runner's "downloads/<name>", a size iff the file exists, and then its size |
| `Serializers.ValidRequestOnlyFailsOnDuration` | api/serializers.py:51-54 | behind the serializer, the validator can only fail with "End time exceeds video duration" |
| `Views.MaxSegmentSize` | api/views.py:103 | the setting, or 1073741824 when unset |
| `Views.ExtractResponse` | api/views.py:27-54 | 400 iff the field fails or the URL check fails; 500 with the prefixed error when extraction fails; 200 with the stored row otherwise |
| `Views.VideoInfoPost` | api/views.py:27-54 | answers `ExtractResponse`; the store changes only on 200, by the upsert |
| `Views.RefusedUrlNotExtracted` | api/views.py:34-36 | a refused URL gets 400 "Invalid YouTube URL" whatever the extractor would say |
| `Views.SubmitVerdict` | api/views.py:61-121 | serializer errors give 400 with those errors; a metadata failure gives 400 "Could not retrieve video info"; refusals are 400 or 500 |
| `Views.DownloadSegmentPost` | api/views.py:61-121 | a refusal creates and queues nothing; an admission creates one pending record with the validated interval, queues its id once, and answers 202 "pending" with the estimate and end - start |
| `Views.AdmittedIffAllChecksPass` | api/views.py:86-118 | admitted iff serializer, metadata, timestamps (non-empty after clamp), quality and size all pass; the admitted interval lies in the video |
| `Views.ClampedRequestGets500` | api/views.py:86-121 | (1000, 1003) on a 1000-second video, with a quality whose stripped text is listed, passes every 400 check and gets 500 "Invalid timestamps" |
| `Views.SizeRefusalNeedsPositiveEstimate` | api/views.py:96-104 | a size refusal needs an estimate above a non-negative limit: an estimate of 0 never blocks |
| `Views.TimestampsCheckedBeforeQuality` | api/views.py:86-94 | a timestamp failure answers with the validator's message whatever the quality; a quality refusal means the timestamps passed |
| `Views.SubmissionIgnoresUrl` | api/views.py:61-84 | the verdict does not depend on which URL is submitted: the URL pattern is not applied |
| `Views.AdmitExample` | api/views.py:106-118 | 0 to 10 s of a 100-second video in format "22" of unknown size is admitted with estimate 0 |
| `Views.RefusedUrlAdmitted` | api/views.py:61-87 | a URL that extract-info refuses can still get a job |
| `Store.Database.Enqueue` | api/views.py:111 | the id is appended to the queue; tables, id counter and save log are unchanged |
| `Views.TaskStatusGet` | api/views.py:128-136 | 404 "Task not found" iff the id is unknown; otherwise 200 with the serialized record |
| `Views.AdmittedTaskIsPending` | api/views.py:128-136 | a just-created task reads as pending at 0 with no link and no size |
| `Client.JsRem` | static/js/main.js:45-46 | JavaScript's `%`: Euclidean on non-negative operands, in (-b, 0] for a negative dividend |
| `Client.Pad2` | static/js/main.js:49-51 | texts of two or more characters unchanged; shorter ones left-padded with '0' to two |
| `Client.FormatTime` | static/js/main.js:43-52 | clock text of a time (its properties are `Client.FormatTimeRoundTrip`, `Client.FormatTimeInjective`, `Client.FormatTimeExamples`) |
| `Client.FormatTimeRoundTrip` | static/js/main.js:43-52 | "h:mm:ss" or "m:ss" text reads back as the number of seconds |
| `Client.FormatTimeInjective` | static/js/main.js:43-52 | distinct non-negative times show distinct texts |
| `Client.FormatTimeNonNegative` | static/js/main.js:43-52 | for a non-negative time, JavaScript's floor and remainder give the plain hours, minutes and seconds |
| `Client.FormatTimeExamples` | static/js/main.js:43-52 | 75 is "1:15", 3605 is "1:00:05", 9 is "0:09" |
| `Client.Seconds` | static/js/main.js:84-96 | h*3600 + m*60 + s with non-numeric fields as 0 |
| `Client.ClockOf` | static/js/main.js:114-116 | all three pickers get numbers; for a non-negative time the minutes and seconds lie in [0, 60) |
| `Client.ClockRoundTrip` | static/js/main.js:114-116 | picker values written back for a time read as that time |
| `Client.MinMax` | static/js/main.js:104-105 | for a non-negative duration the value lands in [0, duration] and is unchanged when already inside; a negative duration is returned as it is |
| `Client.PreviewOf` | static/js/main.js:99-117 | both ends in [0, duration] and end >= start; end > start iff start < duration; a correction sets end to min(start + 60, duration) |
| `Client.PreviewIdempotent` | static/js/main.js:104-117 | settling the preview again gives the same interval |
| `Client.PreviewText` | static/js/main.js:124 | "clip: " and both ends as clock text (read back by `Client.FormatTimeRoundTrip`) |
| `Client.BadgeText` | static/js/main.js:126-127 | the badge shows max(0, end - start) |
| `Client.TimePicker.UpdateTimePreview` | static/js/main.js:99-128 | the hidden inputs, end pickers, preview and badge become those of `PreviewOf` |
| `Client.TimePicker.LoadVideo` | static/js/main.js:67-81 | the start pickers read 0:0:0 and the end pickers the duration; the inputs become 0 and the duration (both the duration when it is negative); preview and badge show them |
| `Client.TimeField` | static/js/main.js:280-281 | NaN is sent as null |
| `Client.ClickRequest` | static/js/main.js:280-289 | refuses iff both times are numbers with start >= end; otherwise posts the URL, times and quality |
| `Client.SettledClickAccepted` | static/js/main.js:286-289 | after a settled preview, with a quality the serializer's text check passes, the click posts iff start < duration, and then the serializer accepts |
| `Client.UnsettledClickPostsNulls` | static/js/main.js:280-289 | before any preview the click posts null times, which the serializer refuses |
| `Client.ValidateYouTubeUrl` | static/js/main.js:204-207 | true exactly when a prefix of the URL matches the client's pattern, whose scheme has no colon |
| `Client.ClientRefusesWatchUrl` | static/js/main.js:205 | "https://www.youtube.com/watch?v=dQw4w9WgXcQ" is refused by the client pattern |
| `Client.ClientAcceptsBareHost` | static/js/main.js:205 | "www.youtube.com/watch?v=dQw4w9WgXcQ" is accepted |
| `Client.ValidateYouTubeUrlFixed` | static/js/main.js:205 | the client pattern with "://" |
| `Client.FixedAcceptsWatchUrl` | static/js/main.js:205 | the corrected pattern accepts the full watch URL |
| `Client.FixedAgreesWithServer` | static/js/main.js:205 | the corrected pattern agrees with the server's on every URL without '\r', U+2028 or U+2029 |
| `Client.Trim` | static/js/main.js:195 | the trimmed text neither starts nor ends with JavaScript white space |
| `Client.PasteAutoSubmits` | static/js/main.js:192-201 | a paste submits iff the trimmed field is non-empty and matches the client pattern |
| `Client.PastedWatchUrlDoesNotSubmit` | static/js/main.js:192-201 | pasting the full watch URL does not submit the form |

## Left out

- The yt-dlp metadata extraction and download (videos/services.py:37-39, downloads/services.py:84-94): foreign tools. Their results are inputs: an extraction `Result`, a sequence of progress reports and a download outcome. `get_download_url` (videos/services.py:101-110) only asks yt-dlp and is not modelled.
- The ffmpeg subprocess (downloads/services.py:120-125): a foreign tool. Its result is a `CutOutcome`. The path of the ffmpeg binary is a parameter.
- Celery scheduling (`shared_task`, `.delay`): the queue is a sequence of task ids that `Enqueue` appends to. Nothing consumes it; the job is called directly.
- `transaction.atomic`, `save(update_fields=...)` and `refresh_from_db`: saves are infallible whole-record writes to an in-memory table. If the final save at downloads/tasks.py:113 raised, the failure branch would store `failed` with progress 100 and the output set; the model cannot produce that record.
- Tasks.ProgressCallback: does not model a failing save inside the closure, whose exception downloads/tasks.py:40-41 swallows. Saves cannot fail here, so that branch has nothing to do.
- Concurrency: two jobs for the same cache key race at the existence check (downloads/tasks.py:59) and the download overwrites the file. The code has no lock or lease, and the model has none either. A cache hit is a bare existence check, as in the code.
- Floating point: the size estimate (downloads/progress.py:50) and the hook percentage (downloads/services.py:78) use float division and `int()`. The model uses exact integer arithmetic truncated toward zero, which approximates the float result.
- Regular expressions: the URL pattern is hand-coded for its fixed alternatives, not a general regex engine. `.` stops at '\n' on the server and at the four JavaScript line terminators on the client.
- Django's `URLField` well-formedness rules: a URL field arrives already classified as missing, malformed or given, and a given URL is the field's cleaned value (stripped like any `CharField`).
- The `int()` coercions in `validate_timestamps` (downloads/validators.py:23-25): the model takes integers. A `None` duration never reaches that function: `VideoInfo.duration` is a non-null integer column (videos/models.py:6), so the upsert at videos/services.py:84-93 fails and `get_video_info` re-raises it as "Failed to extract video info: …" (videos/services.py:97-99). The model covers that case as an `Err` extraction result: `Views.SubmitVerdict` answers 400 "Could not retrieve video info" (api/views.py:83-84) and `Views.ExtractResponse` answers 500 (api/views.py:52-54).
- Timestamps: `timezone.now()`, `time.time()` and file modification times are integer parameters. The sweep compares whole seconds where the code compares floats.
- `ensure_directories`: both media directories always exist. A directory inside TEMP_DIR is removed as one entry (`shutil.rmtree`).
- Tasks.RunMissingVideo: the branch at downloads/tasks.py:51-52 is dead in the source. `video` is a non-null foreign key that cascades on delete (downloads/models.py:14), so no stored task lacks its row, and reading `task.video` for a missing row would raise `DoesNotExist`, not yield a false value. With the cascade the task row would be gone as well, and the save at downloads/tasks.py:48 would fail first. The model keeps the branch; its failure text "Associated video info missing" is the model's own choice, not the `DoesNotExist` text the source would store.
- The browser's DOM, toasts, `onbeforeunload`, polling timers, `fetch` and quality dropdown population. The click handler posts to `/api/download-clip/` (static/js/main.js:304), but the route is `download-segment/`; the model treats the posted body as reaching the submission view.
- Task ids are allocated numbers, not UUIDs. Uniqueness holds by construction.
- A row created without formats holds the column default `{}` (videos/models.py:9). The model writes it as the empty sequence, which iterates the same way.
- `validate_file_size` is modelled on its own; the views never call it and use the 1 GiB `MAX_SEGMENT_SIZE` instead.
- Services.FormatSelector: a height label is ASCII digits followed by "p". Python's `str.isdigit` also accepts other Unicode digits (such as '²' or '٣'); for those the source builds a height-capped chain and the model passes the label through. A label reaches the selector only after `validate_quality` found it among the stored labels ("{height}p" in ASCII) or format ids, so such a label would have to be a format id.
- Services.HookTotal: a report whose `total_bytes_estimate` is present but null would make `total > 0` raise `TypeError` inside the hook; the model reads it as 0.
- Services.DownloadFullVideo: a failed download leaves no file in the model. A real yt-dlp failure can leave a partial temp file, and a later job would then take it as a cache hit (downloads/tasks.py:59). The model's download outcome is all-or-nothing.
- Services.ExtractSegment: a failed cut leaves the output directory unchanged in the model. ffmpeg's `-y` truncates an existing output file first, so a real failure can leave a partial or emptied clip. The model's cut outcome is all-or-nothing.
- Client.ValidateYouTubeUrl: counts Unicode scalar values. The browser's regex has no `u` flag and counts UTF-16 code units, so a character outside the Basic Multilingual Plane counts once here and twice in the browser in `[^&=%?]{11}`.
- Client.ValidateYouTubeUrlFixed: the same character counting as `Client.ValidateYouTubeUrl`.
- Client.FixedAgreesWithServer: the agreement holds for the model's character counting. Python's `re` counts code points like the model, but the browser counts UTF-16 code units, so on URLs with characters outside the Basic Multilingual Plane the real client and server can disagree.
- Lone surrogate code points, which `CharField` also refuses: a Dafny `char` cannot hold one, so that check has nothing to do.
- The endpoint models (`Views`, `Client.PasteAutoSubmits`) keep the as-written checks listed under Findings, because they model the endpoints as they behave; the corrected members stand beside them.

## Findings

| source | as written | input that shows it | evidently intended | confidence | as-written member | corrected member |
|---|---|---|---|---|---|---|
| downloads/validators.py:31-37 | the drift clamp sets end to duration without repeating the end > start check | start 1000, end 1003, duration 1000 gives (True, 1000, 1000); `create_download_task` then raises "Invalid timestamps" and the view answers 500 instead of 400 | refuse the clamped empty interval with "End time must be greater than start time" | not executed; high | `Services.ClampedIntervalFailsCreation` | `Validators.ValidateTimestampsOrdered` |
| static/js/main.js:205 | the scheme is written `https?\/\/`, without the colon | "https://www.youtube.com/watch?v=dQw4w9WgXcQ" is refused by the client, so pasting it does not auto-submit; "www.youtube.com/watch?v=…" is accepted | `https?:\/\/`, as in the server's pattern | not executed; high | `Client.ClientRefusesWatchUrl` | `Client.FixedAgreesWithServer` |
