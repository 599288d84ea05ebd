/** The segment downloader (downloads/services.py): the creation guard,
    the format selector handed to the downloader, the download progress
    hook, and the ffmpeg cut with its error mapping. The downloader and
    ffmpeg themselves are outside the model; their results are inputs. */
module Services {
  import opened Common
  import opened VideoModels
  import opened TaskModels
  import opened Store
  import opened FileManager
  import Validators

  // ---------------------------------------------------------------------
  // create_download_task
  // ---------------------------------------------------------------------

  const VideoNotFound := "Video info not found. Please extract info first."
  const InvalidTimestamps := "Invalid timestamps"

  function Lookup(videos: map<string, VideoInfo>, youtubeId: string): (v: Option<VideoInfo>)
    ensures v.Some? <==> youtubeId in videos
    ensures v.Some? ==> v.value == videos[youtubeId]
  {
    if youtubeId in videos then Some(videos[youtubeId]) else None
  }

  /** The checks `create_download_task` makes before creating a record:
      the video row must exist and `0 <= start < end <= duration`. */
  function CreateGuard(video: Option<VideoInfo>, start: int, end: int): (o: Outcome)
    ensures o.Pass? <==> video.Some? && 0 <= start < end <= video.value.duration
    ensures video.None? ==> o == Fail(VideoNotFound)
    ensures video.Some? && o.Fail? ==> o == Fail(InvalidTimestamps)
  {
    if video.None? then Fail(VideoNotFound)
    else if start < 0 || end > video.value.duration || start >= end then Fail(InvalidTimestamps)
    else Pass
  }

  /** `create_download_task`: a pending record with exactly the given
      interval and quality, or the guard's error and no record. */
  method CreateDownloadTask(db: Database, youtubeId: string, start: int, end: int, quality: string, now: int)
    returns (r: Result<TaskId>)
    requires db.Valid()
    modifies db
    ensures db.Valid()
    ensures var o := CreateGuard(Lookup(old(db.videos), youtubeId), start, end);
            && (o.Fail? ==> r == Err(o.error) && db.tasks == old(db.tasks) && db.saves == old(db.saves))
            && (o.Pass? ==> && r.Ok? && r.value !in old(db.tasks)
                            && db.tasks == old(db.tasks)[r.value := NewTask(r.value, youtubeId, start, end, quality, now)]
                            && db.saves == old(db.saves) + [NewTask(r.value, youtubeId, start, end, quality, now)])
    ensures db.videos == old(db.videos) && db.queue == old(db.queue)
  {
    if youtubeId !in db.videos {
      return Err(VideoNotFound);
    }
    var video := db.videos[youtubeId];
    if start < 0 || end > video.duration || start >= end {
      return Err(InvalidTimestamps);
    }
    var id := db.Create(youtubeId, start, end, quality, now);
    r := Ok(id);
  }

  /** After the timestamp validator has accepted an interval, the creation
      guard rejects it exactly when the drift clamp pulled `end` down onto
      or below a `start` that is at or past the end of the video. */
  lemma GuardAfterValidator(v: VideoInfo, start: int, end: int)
    requires Validators.ValidateTimestamps(start, end, v.duration).Accepted?
    ensures var a := Validators.ValidateTimestamps(start, end, v.duration);
            CreateGuard(Some(v), a.start, a.end).Fail? <==> end > v.duration && start >= v.duration
  {
    Validators.AcceptedIntervalOrder(start, end, v.duration);
  }

  /** With the order test repeated after the clamp, the creation guard
      accepts every interval the validator accepts. */
  lemma GuardAfterOrderedValidator(v: VideoInfo, start: int, end: int)
    requires Validators.ValidateTimestampsOrdered(start, end, v.duration).Accepted?
    ensures var a := Validators.ValidateTimestampsOrdered(start, end, v.duration);
            CreateGuard(Some(v), a.start, a.end) == Pass
  {
  }

  /** The request (1000, 1003) on a 1000-second video passes the validator
      as (1000, 1000) and then fails the creation guard. */
  lemma ClampedIntervalFailsCreation(v: VideoInfo)
    requires v.duration == 1000
    ensures Validators.ValidateTimestamps(1000, 1003, 1000) == Validators.Accepted(1000, 1000)
    ensures CreateGuard(Some(v), 1000, 1000) == Fail(InvalidTimestamps)
  {
    Validators.ClampMakesEmptyInterval();
  }

  // ---------------------------------------------------------------------
  // The format selector of download_full_video
  // ---------------------------------------------------------------------

  const BestSelector := "bestvideo[ext=mp4]+bestaudio[ext=m4a]/best[ext=mp4]/best"

  const HeightSelectorHead := "bestvideo[height<="

  function HeightSelectorTail(height: string): (tail: string)
    ensures |tail| > 0 && tail[0] == ']'
  {
    var tail := "][ext=mp4]+bestaudio[ext=m4a]/best[height<=" + height + "][ext=mp4]/best[height<=" + height + "]";
    assert tail[0] == "][ext=mp4]+bestaudio[ext=m4a]/best[height<="[0];
    tail
  }

  /** The selector for the best streams no taller than `height`. */
  function HeightSelector(height: string): string {
    HeightSelectorHead + height + HeightSelectorTail(height)
  }

  /** A label such as "720p": digits followed by 'p', with at least one digit. */
  predicate IsHeightLabel(quality: string) {
    |quality| >= 2 && quality[|quality| - 1] == 'p' && AllDigits(quality[..|quality| - 1])
  }

  /** The yt-dlp format string chosen for a quality: the fixed best-mp4
      chain for "best", a height-capped chain for a height label, and
      the quality itself (a format id) otherwise. */
  function FormatSelector(quality: string): (sel: string)
    ensures quality == "best" ==> sel == BestSelector
    ensures IsHeightLabel(quality) ==> sel == HeightSelector(quality[..|quality| - 1])
    ensures quality != "best" && !IsHeightLabel(quality) ==> sel == quality
  {
    if quality == "best" then BestSelector
    else if IsHeightLabel(quality) then HeightSelector(quality[..|quality| - 1])
    else quality
  }

  /** Distinct digit strings give distinct height selectors. */
  lemma HeightSelectorInjective(h1: string, h2: string)
    requires AllDigits(h1) && AllDigits(h2)
    requires HeightSelector(h1) == HeightSelector(h2)
    ensures h1 == h2
  {
    var t1, t2 := HeightSelectorTail(h1), HeightSelectorTail(h2);
    ConcatAssoc(HeightSelectorHead, h1, t1);
    ConcatAssoc(HeightSelectorHead, h2, t2);
    DropCommonPrefix(HeightSelectorHead, h1 + t1, h2 + t2);
    assert forall k :: 0 <= k < |h1| ==> IsDigit(h1[k]);
    assert forall k :: 0 <= k < |h2| ==> IsDigit(h2[k]);
    SplitBefore(h1, t1, h2, t2, ']');
  }

  /** Height labels select the same streams exactly when they are the same label. */
  lemma HeightLabelsSelectDifferently(q1: string, q2: string)
    requires IsHeightLabel(q1) && IsHeightLabel(q2)
    ensures FormatSelector(q1) == FormatSelector(q2) <==> q1 == q2
  {
    if FormatSelector(q1) == FormatSelector(q2) {
      HeightSelectorInjective(q1[..|q1| - 1], q2[..|q2| - 1]);
      assert q1 == q1[..|q1| - 1] + "p";
      assert q2 == q2[..|q2| - 1] + "p";
    }
  }

  /** A bare "p" has no digits, so it is passed on as a format id. */
  lemma BarePPassesThrough()
    ensures FormatSelector("p") == "p"
  {
  }

  /** The label "720p" caps the height at 720. */
  lemma SelectorFor720p()
    ensures FormatSelector("720p") == HeightSelector("720")
  {
    assert "720p"[..3] == "720";
  }

  // ---------------------------------------------------------------------
  // The progress hook of download_full_video
  // ---------------------------------------------------------------------

  /** A progress report from the downloader. Absent keys are None; a
      `Downloading` report carries the exact total, the estimated total and
      the bytes so far. */
  datatype HookEvent =
    | Downloading(totalBytes: Option<nat>, totalBytesEstimate: Option<nat>, downloadedBytes: Option<nat>)
    | Finished
    | OtherStatus

  /** `d.get('total_bytes') or d.get('total_bytes_estimate', 0)`: a missing
      or zero exact total falls back to the estimate, then to 0. */
  function HookTotal(e: HookEvent): nat
    requires e.Downloading?
  {
    if e.totalBytes.Some? && e.totalBytes.value != 0 then e.totalBytes.value
    else if e.totalBytesEstimate.Some? then e.totalBytesEstimate.value
    else 0
  }

  function HookDownloaded(e: HookEvent): nat
    requires e.Downloading?
  {
    if e.downloadedBytes.Some? then e.downloadedBytes.value else 0
  }

  /** The value the hook passes to the callback, if it calls it: the
      download share of 60 points while downloading (floored), 65 when
      finished, nothing without a callback or a positive total. */
  function ProgressHook(e: HookEvent, hasCallback: bool): (r: Option<int>)
    ensures r.Some? <==> hasCallback && (e.Finished? || (e.Downloading? && HookTotal(e) > 0))
    ensures r.Some? && e.Finished? ==> r.value == 65
    ensures r.Some? && e.Downloading? ==>
              && 0 <= r.value
              && r.value * HookTotal(e) <= HookDownloaded(e) * 60 < (r.value + 1) * HookTotal(e)
  {
    match e
    case Downloading(_, _, _) =>
      if hasCallback && HookTotal(e) > 0 then Some(HookDownloaded(e) * 60 / HookTotal(e)) else None
    case Finished => if hasCallback then Some(65) else None
    case OtherStatus => None
  }

  /** A report whose byte count does not run past its total. */
  predicate WithinTotal(e: HookEvent) {
    e.Downloading? ==> HookDownloaded(e) <= HookTotal(e)
  }

  /** While downloading, the hook reports at most 60 when the count is within the total. */
  lemma HookAtMostSixty(e: HookEvent, hasCallback: bool)
    requires e.Downloading? && WithinTotal(e) && ProgressHook(e, hasCallback).Some?
    ensures ProgressHook(e, hasCallback).value <= 60
  {
    var v := ProgressHook(e, hasCallback).value;
    var total := HookTotal(e);
    LemmaMulMonotone(60, HookDownloaded(e), total);
    LemmaMulBound(v - 60, total);
    assert (v - 60) * total == v * total - 60 * total;
  }

  /** The callback values of one report. */
  function Emitted(e: HookEvent, hasCallback: bool): seq<int> {
    match ProgressHook(e, hasCallback)
    case None => []
    case Some(v) => [v]
  }

  /** The callback values of a run of reports, in order. */
  function CallbackValues(hooks: seq<HookEvent>, hasCallback: bool): (vs: seq<int>)
    ensures |vs| <= |hooks|
    ensures !hasCallback ==> vs == []
  {
    if hooks == [] then []
    else CallbackValues(hooks[..|hooks| - 1], hasCallback) + Emitted(hooks[|hooks| - 1], hasCallback)
  }

  /** Every callback value is at least 0, and at most 65 when no report
      runs past its total. */
  lemma {:induction false} CallbackBounds(hooks: seq<HookEvent>, hasCallback: bool)
    ensures forall k :: 0 <= k < |CallbackValues(hooks, hasCallback)| ==> CallbackValues(hooks, hasCallback)[k] >= 0
    ensures (forall j :: 0 <= j < |hooks| ==> WithinTotal(hooks[j])) ==>
              forall k :: 0 <= k < |CallbackValues(hooks, hasCallback)| ==> CallbackValues(hooks, hasCallback)[k] <= 65
  {
    if hooks != [] {
      var init := hooks[..|hooks| - 1];
      var e := hooks[|hooks| - 1];
      CallbackBounds(init, hasCallback);
      if (forall j :: 0 <= j < |hooks| ==> WithinTotal(hooks[j])) && e.Downloading? && ProgressHook(e, hasCallback).Some? {
        HookAtMostSixty(e, hasCallback);
      }
      var vs := CallbackValues(hooks, hasCallback);
      assert vs == CallbackValues(init, hasCallback) + Emitted(e, hasCallback);
      assert forall j :: 0 <= j < |init| ==> init[j] == hooks[j];
    }
  }

  /** One report of half the bytes of a 100-byte total is called back as 30. */
  lemma HookHalfway()
    ensures CallbackValues([Downloading(Some(100), None, Some(50)), Finished], true) == [30, 65]
  {
    var hooks := [Downloading(Some(100), None, Some(50)), Finished];
    assert hooks[..1] == [Downloading(Some(100), None, Some(50))];
    assert hooks[..1][..0] == [];
  }

  // ---------------------------------------------------------------------
  // download_full_video
  // ---------------------------------------------------------------------

  /** What the downloader does with the request: the file arrives with
      this many bytes, or it raises with this message. */
  datatype DownloadOutcome = Downloaded(bytes: nat) | DownloadFailed(message: string)

  /** The watch URL handed to the downloader. */
  function WatchUrl(youtubeId: string): string {
    "https://" + Validators.WwwWatchPrefix + youtubeId
  }

  /** The parts of the downloader options the model keeps: the URL, the
      format selector and the output template. */
  datatype YdlRequest = YdlRequest(url: string, format: string, outtmpl: string)

  /** `download_full_video`: the temp file is written (overwriting any
      earlier one) and its path returned unchanged; the progress reports
      are turned into callback values in order; a downloader error
      propagates with the file listing unchanged. */
  method DownloadFullVideo(files: MediaFiles, youtubeId: string, quality: string, tempPath: Path,
                           hasCallback: bool, hooks: seq<HookEvent>, outcome: DownloadOutcome, now: int)
    returns (request: YdlRequest, callbacks: seq<int>, r: Result<Path>)
    modifies files
    ensures request == YdlRequest(WatchUrl(youtubeId), FormatSelector(quality), PathString(tempPath))
    ensures callbacks == CallbackValues(hooks, hasCallback)
    ensures outcome.Downloaded? ==>
              && r == Ok(tempPath)
              && files.Listing(tempPath.dir) == old(files.Listing(tempPath.dir))[tempPath.name := Entry(now, outcome.bytes, false)]
    ensures outcome.DownloadFailed? ==> r == Err(outcome.message)
    ensures outcome.DownloadFailed? || tempPath.dir == DownloadDir ==> files.temp == old(files.temp)
    ensures outcome.DownloadFailed? || tempPath.dir == TempDir ==> files.downloads == old(files.downloads)
  {
    request := YdlRequest(WatchUrl(youtubeId), FormatSelector(quality), PathString(tempPath));
    callbacks := [];
    var i := 0;
    while i < |hooks|
      invariant 0 <= i <= |hooks|
      invariant callbacks == CallbackValues(hooks[..i], hasCallback)
    {
      assert hooks[..i + 1][..i] == hooks[..i];
      var percent := ProgressHook(hooks[i], hasCallback);
      if percent.Some? {
        callbacks := callbacks + [percent.value];
      }
      i := i + 1;
    }
    assert hooks[..|hooks|] == hooks;
    match outcome
    case Downloaded(bytes) =>
      files.Write(tempPath, Entry(now, bytes, false));
      r := Ok(tempPath);
    case DownloadFailed(message) =>
      r := Err(message);
  }

  /** The watch URL of an id of the platform's length and alphabet passes
      the server-side URL check. */
  lemma WatchUrlIsValid(youtubeId: string)
    requires Validators.VideoIdAt(youtubeId, 0)
    ensures Validators.ValidateYoutubeUrl(WatchUrl(youtubeId))
  {
    Validators.WatchFormFrom(Validators.ServerDialect, "https://", youtubeId);
    assert Validators.HasAt(WatchUrl(youtubeId), 0, "https://");
  }

  // ---------------------------------------------------------------------
  // extract_segment
  // ---------------------------------------------------------------------

  /** What running ffmpeg does: the segment is written with this many
      bytes, the process exits non-zero with this error output, the
      binary is missing, or some other exception is raised. */
  datatype CutOutcome = Cut(bytes: nat) | FfmpegExit(stderr: string) | FfmpegMissing | CutError(message: string)

  const FfmpegErrorPrefix := "FFmpeg error: "
  const FfmpegNotFound := "FFmpeg not found. Please install ffmpeg."

  /** The argument vector: overwrite, input, start and end as decimal
      text, stream copy, timestamps shifted to zero, output. */
  function FfmpegCommand(exe: string, input: Path, start: int, end: int, output: Path): (cmd: seq<string>)
    ensures |cmd| == 13 && cmd[0] == exe
    ensures cmd[3] == PathString(input) && cmd[12] == PathString(output)
  {
    [exe, "-y", "-i", PathString(input), "-ss", IntToString(start), "-to", IntToString(end),
     "-c", "copy", "-avoid_negative_ts", "make_zero", PathString(output)]
  }

  /** The offsets ffmpeg is given read back as the requested start and end. */
  lemma FfmpegOffsetsReadBack(exe: string, input: Path, start: int, end: int, output: Path)
    ensures var cmd := FfmpegCommand(exe, input, start, end, output);
            ParseInt(cmd[5]) == start && ParseInt(cmd[7]) == end
  {
    ParseIntToString(start);
    ParseIntToString(end);
  }

  /** The message a failed cut raises with; an exit failure keeps the
      process's error output after a fixed prefix. */
  function CutErrorMessage(c: CutOutcome): (m: string)
    requires !c.Cut?
    ensures c.FfmpegExit? ==> |m| >= |FfmpegErrorPrefix| && m[..|FfmpegErrorPrefix|] == FfmpegErrorPrefix
                              && m[|FfmpegErrorPrefix|..] == c.stderr
    ensures c.FfmpegMissing? ==> m == FfmpegNotFound
    ensures c.CutError? ==> m == c.message
  {
    match c
    case FfmpegExit(stderr) => FfmpegErrorPrefix + stderr
    case FfmpegMissing => FfmpegNotFound
    case CutError(message) => message
  }

  /** `extract_segment`: ffmpeg is run on the command above; on success the
      output file is written, otherwise the mapped error is raised and the
      listing is unchanged. */
  method ExtractSegment(files: MediaFiles, exe: string, input: Path, start: int, end: int, output: Path,
                        outcome: CutOutcome, now: int)
    returns (cmd: seq<string>, r: Outcome)
    modifies files
    ensures cmd == FfmpegCommand(exe, input, start, end, output)
    ensures outcome.Cut? ==>
              && r == Pass
              && files.Listing(output.dir) == old(files.Listing(output.dir))[output.name := Entry(now, outcome.bytes, false)]
    ensures !outcome.Cut? ==> r == Fail(CutErrorMessage(outcome))
    ensures !outcome.Cut? || output.dir == DownloadDir ==> files.temp == old(files.temp)
    ensures !outcome.Cut? || output.dir == TempDir ==> files.downloads == old(files.downloads)
  {
    cmd := FfmpegCommand(exe, input, start, end, output);
    match outcome
    case Cut(bytes) =>
      files.Write(output, Entry(now, bytes, false));
      r := Pass;
    case FfmpegExit(stderr) =>
      r := Fail(FfmpegErrorPrefix + stderr);
    case FfmpegMissing =>
      r := Fail(FfmpegNotFound);
    case CutError(message) =>
      r := Fail(message);
  }

  /** `cleanup_temp_files`: `delete_file` on the given path. */
  method CleanupTempFiles(files: MediaFiles, path: Option<Path>, denied: bool)
    modifies files
    ensures path.None? || !old(files.Exists(path.value)) || denied ==>
              files.temp == old(files.temp) && files.downloads == old(files.downloads)
    ensures path.Some? && old(files.Exists(path.value)) && !denied ==>
              files.Listing(path.value.dir) == old(files.Listing(path.value.dir)) - {path.value.name}
  {
    files.DeleteFile(path, denied);
  }
}
