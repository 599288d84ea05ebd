/** The background job (downloads/tasks.py). `ProcessDownloadSegment`
    walks one DownloadTask record through processing to completed or
    failed, saving the record at each checkpoint; `RunJob` is the
    specification of the records it saves, and the lemmas below state
    what the job promises about them. */
module Tasks {
  import opened Common
  import opened VideoModels
  import opened TaskModels
  import opened Store
  import opened FileManager
  import opened Services

  const TaskNotFound := "Task not found"
  const VideoMissing := "Associated video info missing"
  const CompletedMessage := "Completed"
  const FailedPrefix := "Failed: "

  /** What one run leaves behind: the records saved, in order, and the
      message the job returns. */
  datatype Run = Run(saves: seq<DownloadTask>, message: string)

  /** The record the failure branch saves: status failed with the
      exception text; every other field as the job last set it. */
  function FailedRecord(t: DownloadTask, message: string): (f: DownloadTask)
    ensures f.status == Failed && f.errorMessage == Some(message)
    ensures f.progress == t.progress && f.outputFile == t.outputFile && f.completedAt == t.completedAt
  {
    t.(status := Failed, errorMessage := Some(message))
  }

  /** The saves of the progress callback, one per value. */
  function ProgressSaves(t: DownloadTask, values: seq<int>): (r: seq<DownloadTask>)
    ensures |r| == |values|
    ensures forall i :: 0 <= i < |values| ==> r[i] == t.(progress := values[i])
  {
    seq(|values|, i requires 0 <= i < |values| => t.(progress := values[i]))
  }

  /** The relative name stored in `output_file` for a finished segment. */
  function OutputFile(video: VideoInfo, t: DownloadTask): string {
    DirName(DownloadDir) + "/" + GetOutputFilename(video.youtubeId, t.startTime, t.endTime, t.quality)
  }

  /** The download step: the records it saves, the record afterwards, and
      the error it raised, if any. */
  datatype Stage = Stage(saves: seq<DownloadTask>, current: DownloadTask, error: Option<string>)

  function DownloadStage(t: DownloadTask, cached: bool, hooks: seq<HookEvent>, dl: DownloadOutcome): (st: Stage)
    ensures st.error.None? <==> cached || dl.Downloaded?
    ensures st.current == t.(progress := st.current.progress)
  {
    if cached then
      var t65 := t.(progress := 65);
      Stage([t65], t65, None)
    else
      var t10 := t.(progress := 10);
      var values := CallbackValues(hooks, true);
      var current := if values == [] then t10 else t10.(progress := values[|values| - 1]);
      Stage([t10] + ProgressSaves(t10, values), current, if dl.DownloadFailed? then Some(dl.message) else None)
  }

  /** The steps after a successful download step, from record `c`: 70,
      the cut, then 90 and the completed record, or the failed record. */
  function FinishStage(c: DownloadTask, video: VideoInfo, cut: CutOutcome, now: int): (r: Run)
    ensures r.saves != [] && r.saves[0] == c.(progress := 70)
  {
    var t70 := c.(progress := 70);
    if !cut.Cut? then
      Run([t70, FailedRecord(t70, CutErrorMessage(cut))], FailedPrefix + CutErrorMessage(cut))
    else
      var t90 := t70.(progress := 90);
      var done := t90.(status := Completed, progress := 100, completedAt := Some(now),
                       outputFile := Some(OutputFile(video, c)));
      Run([t70, t90, done], CompletedMessage)
  }

  /** The steps after the download step, from the record `c` it left and
      the error it raised: the failed record, or the finishing steps. */
  function Conclude(c: DownloadTask, error: Option<string>, video: VideoInfo, cut: CutOutcome, now: int): (r: Run)
    ensures r.saves != []
  {
    if error.Some? then Run([FailedRecord(c, error.value)], FailedPrefix + error.value)
    else FinishStage(c, video, cut, now)
  }

  /** The run after the processing mark `p` was saved, for a present video. */
  function AfterStart(p: DownloadTask, video: VideoInfo, cached: bool, hooks: seq<HookEvent>,
                      dl: DownloadOutcome, cut: CutOutcome, now: int): Run
  {
    var st := DownloadStage(p, cached, hooks, dl);
    var rest := Conclude(st.current, st.error, video, cut, now);
    Run(st.saves + rest.saves, rest.message)
  }

  /** The run of the job on record `t`, given the video row (None when
      missing), whether the temp file is already present, the downloader's
      progress reports and result, the cut's result, and the clock. */
  function RunJob(t: DownloadTask, video: Option<VideoInfo>, cached: bool, hooks: seq<HookEvent>,
                  dl: DownloadOutcome, cut: CutOutcome, now: int): Run
  {
    var p := t.(status := Processing, progress := 5);
    if video.None? then
      Run([p, FailedRecord(p, VideoMissing)], FailedPrefix + VideoMissing)
    else
      var rest := AfterStart(p, video.value, cached, hooks, dl, cut, now);
      Run([p] + rest.saves, rest.message)
  }

  /** The run reaches completion: the video is there, the segment source is
      cached or downloads, and the cut succeeds. */
  predicate Completes(video: Option<VideoInfo>, cached: bool, dl: DownloadOutcome, cut: CutOutcome) {
    video.Some? && (cached || dl.Downloaded?) && cut.Cut?
  }

  function Last(saves: seq<DownloadTask>): DownloadTask
    requires saves != []
  {
    saves[|saves| - 1]
  }

  /** The progress values between checkpoint 5 and checkpoint 70: 65 on a
      cache hit, else 10 followed by the callback values. */
  function DownloadCheckpoints(cached: bool, hooks: seq<HookEvent>): seq<int> {
    if cached then [65] else [10] + CallbackValues(hooks, true)
  }

  // ---------------------------------------------------------------------
  // The job
  // ---------------------------------------------------------------------

  lemma AppendAssoc(a: seq<DownloadTask>, b: seq<DownloadTask>, c: seq<DownloadTask>)
    ensures a + b + c == a + (b + c)
  {
  }

  lemma AppendTwo(a: seq<DownloadTask>, x: DownloadTask, y: DownloadTask)
    ensures a + [x] + [y] == a + [x, y]
  {
  }

  lemma AppendThree(a: seq<DownloadTask>, x: DownloadTask, y: DownloadTask, z: DownloadTask)
    ensures a + [x] + [y] + [z] == a + [x, y, z]
  {
  }

  lemma UpdateTwice(m: map<TaskId, DownloadTask>, k: TaskId, a: DownloadTask, b: DownloadTask)
    ensures m[k := a][k := b] == m[k := b]
  {
  }

  lemma LastAppend(a: seq<DownloadTask>, b: seq<DownloadTask>)
    requires b != []
    ensures Last(a + b) == Last(b)
  {
  }

  /** The `update_progress` closure: the record with the new progress,
      saved as given (no clamping). */
  method ProgressCallback(db: Database, task: DownloadTask, percent: int) returns (updated: DownloadTask)
    requires db.Valid() && task.taskId in db.tasks
    modifies db
    ensures db.Valid()
    ensures updated == task.(progress := percent)
    ensures db.saves == old(db.saves) + [updated]
    ensures db.tasks == old(db.tasks)[task.taskId := updated]
    ensures db.videos == old(db.videos) && db.queue == old(db.queue) && db.nextId == old(db.nextId)
  {
    updated := task.(progress := percent);
    db.Save(updated);
  }

  /** The callback applied to each value the progress hook produced, in order. */
  method SaveCallbacks(db: Database, task: DownloadTask, values: seq<int>) returns (current: DownloadTask)
    requires db.Valid() && task.taskId in db.tasks && db.tasks[task.taskId] == task
    modifies db
    ensures db.Valid()
    ensures current == if values == [] then task else task.(progress := values[|values| - 1])
    ensures db.saves == old(db.saves) + ProgressSaves(task, values)
    ensures db.tasks == old(db.tasks)[task.taskId := current]
    ensures db.videos == old(db.videos) && db.queue == old(db.queue) && db.nextId == old(db.nextId)
  {
    current := task;
    var i := 0;
    while i < |values|
      invariant 0 <= i <= |values|
      invariant db.Valid() && task.taskId in db.tasks
      invariant current == if i == 0 then task else task.(progress := values[i - 1])
      invariant db.tasks == old(db.tasks)[task.taskId := current]
      invariant db.saves == old(db.saves) + ProgressSaves(task, values[..i])
      invariant db.videos == old(db.videos) && db.queue == old(db.queue) && db.nextId == old(db.nextId)
    {
      assert ProgressSaves(task, values[..i + 1]) == ProgressSaves(task, values[..i]) + [task.(progress := values[i])];
      current := ProgressCallback(db, current, values[i]);
      i := i + 1;
    }
    assert values[..|values|] == values;
  }

  /** A cache miss: checkpoint 10, then the download, whose progress
      reports reach the callback. */
  method DownloadMiss(db: Database, files: MediaFiles, task: DownloadTask, video: VideoInfo,
                      hooks: seq<HookEvent>, dl: DownloadOutcome, now: int)
    returns (current: DownloadTask, error: Option<string>)
    requires db.Valid() && task.taskId in db.tasks
    modifies db, files
    ensures db.Valid()
    ensures var st := DownloadStage(task, false, hooks, dl);
            && current == st.current && error == st.error
            && db.saves == old(db.saves) + st.saves
            && db.tasks == old(db.tasks)[task.taskId := current]
    ensures db.videos == old(db.videos) && db.queue == old(db.queue) && db.nextId == old(db.nextId)
    ensures files.temp == (if dl.Downloaded?
                           then old(files.temp)[TempName(video.youtubeId, task.quality) := Entry(now, dl.bytes, false)]
                           else old(files.temp))
    ensures files.downloads == old(files.downloads)
  {
    var tempPath := GetTempPath(video.youtubeId, task.quality);
    var t10 := task.(progress := 10);
    db.Save(t10);
    var request, callbacks, r := DownloadFullVideo(files, video.youtubeId, task.quality, tempPath, true, hooks, dl, now);
    current := SaveCallbacks(db, t10, callbacks);
    error := if r.Err? then Some(r.error) else None;
    AppendAssoc(old(db.saves), [t10], ProgressSaves(t10, callbacks));
    UpdateTwice(old(db.tasks), task.taskId, t10, current);
  }

  /** The download step of the job, from record `task` (already saved):
      the cache check, then either checkpoint 65 or the download. */
  method DownloadStep(db: Database, files: MediaFiles, task: DownloadTask, video: VideoInfo,
                      hooks: seq<HookEvent>, dl: DownloadOutcome, now: int)
    returns (current: DownloadTask, error: Option<string>)
    requires db.Valid() && task.taskId in db.tasks
    modifies db, files
    ensures db.Valid()
    ensures var st := DownloadStage(task, TempName(video.youtubeId, task.quality) in old(files.temp), hooks, dl);
            && current == st.current && error == st.error
            && db.saves == old(db.saves) + st.saves
            && db.tasks == old(db.tasks)[task.taskId := current]
    ensures db.videos == old(db.videos) && db.queue == old(db.queue) && db.nextId == old(db.nextId)
    ensures files.temp == (if TempName(video.youtubeId, task.quality) !in old(files.temp) && dl.Downloaded?
                           then old(files.temp)[TempName(video.youtubeId, task.quality) := Entry(now, dl.bytes, false)]
                           else old(files.temp))
    ensures files.downloads == old(files.downloads)
  {
    var tempPath := GetTempPath(video.youtubeId, task.quality);
    if !files.Exists(tempPath) {
      current, error := DownloadMiss(db, files, task, video, hooks, dl, now);
    } else {
      // the cached file is reused
      current := ProgressCallback(db, task, 65);
      error := None;
    }
  }

  /** The steps after a successful download step, from record `task`
      (already saved): checkpoint 70, the cut, checkpoint 90 and the
      completed record, or the failed record. */
  method FinishStep(db: Database, files: MediaFiles, task: DownloadTask, video: VideoInfo,
                    cut: CutOutcome, ffmpeg: string, now: int)
    returns (msg: string)
    requires db.Valid() && task.taskId in db.tasks
    modifies db, files
    ensures db.Valid()
    ensures var fin := FinishStage(task, video, cut, now);
            && msg == fin.message
            && db.saves == old(db.saves) + fin.saves
            && db.tasks == old(db.tasks)[task.taskId := Last(fin.saves)]
    ensures db.videos == old(db.videos) && db.queue == old(db.queue) && db.nextId == old(db.nextId)
    ensures files.temp == old(files.temp)
    ensures files.downloads == (if cut.Cut?
                                then old(files.downloads)[GetOutputFilename(video.youtubeId, task.startTime, task.endTime, task.quality)
                                                          := Entry(now, cut.bytes, false)]
                                else old(files.downloads))
  {
    var current := task.(progress := 70);
    db.Save(current);

    var tempPath := GetTempPath(video.youtubeId, current.quality);
    var outputFilename := GetOutputFilename(video.youtubeId, current.startTime, current.endTime, current.quality);
    var outputPath := GetOutputPath(outputFilename);
    var cmd, cutResult := ExtractSegment(files, ffmpeg, tempPath, current.startTime, current.endTime, outputPath, cut, now);
    if cutResult.Fail? {
      ghost var t70 := current;
      current := FailedRecord(current, cutResult.error);
      db.Save(current);
      AppendTwo(old(db.saves), t70, current);
      UpdateTwice(old(db.tasks), task.taskId, t70, current);
      return FailedPrefix + cutResult.error;
    }

    ghost var t70 := current;
    current := current.(progress := 90);
    db.Save(current);
    ghost var t90 := current;

    var relativePath := DirName(DownloadDir) + "/" + outputFilename;
    current := current.(status := Completed, progress := 100, completedAt := Some(now), outputFile := Some(relativePath));
    db.Save(current);
    AppendThree(old(db.saves), t70, t90, current);
    UpdateTwice(old(db.tasks), task.taskId, t70, t90);
    UpdateTwice(old(db.tasks), task.taskId, t90, current);
    return CompletedMessage;
  }

  /** The job after the download step: the failed record when it raised,
      the finishing steps otherwise. */
  method ConcludeStep(db: Database, files: MediaFiles, current: DownloadTask, error: Option<string>, video: VideoInfo,
                      cut: CutOutcome, ffmpeg: string, now: int)
    returns (msg: string)
    requires db.Valid() && current.taskId in db.tasks
    modifies db, files
    ensures db.Valid()
    ensures var rest := Conclude(current, error, video, cut, now);
            && msg == rest.message
            && db.saves == old(db.saves) + rest.saves
            && db.tasks == old(db.tasks)[current.taskId := Last(rest.saves)]
    ensures db.videos == old(db.videos) && db.queue == old(db.queue) && db.nextId == old(db.nextId)
    ensures files.temp == old(files.temp)
    ensures files.downloads == (if error.None? && cut.Cut?
                                then old(files.downloads)[GetOutputFilename(video.youtubeId, current.startTime, current.endTime, current.quality)
                                                          := Entry(now, cut.bytes, false)]
                                else old(files.downloads))
  {
    if error.Some? {
      var failed := FailedRecord(current, error.value);
      db.Save(failed);
      return FailedPrefix + error.value;
    }
    msg := FinishStep(db, files, current, video, cut, ffmpeg, now);
  }

  /** The job after the processing mark `task` was saved, for a present video. */
  method AfterStartStep(db: Database, files: MediaFiles, task: DownloadTask, video: VideoInfo,
                        hooks: seq<HookEvent>, dl: DownloadOutcome, cut: CutOutcome, ffmpeg: string, now: int)
    returns (msg: string)
    requires db.Valid() && task.taskId in db.tasks
    modifies db, files
    ensures db.Valid()
    ensures var cached := TempName(video.youtubeId, task.quality) in old(files.temp);
            var rest := AfterStart(task, video, cached, hooks, dl, cut, now);
            && msg == rest.message
            && rest.saves != []
            && db.saves == old(db.saves) + rest.saves
            && db.tasks == old(db.tasks)[task.taskId := Last(rest.saves)]
            && files.temp == (if !cached && dl.Downloaded?
                              then old(files.temp)[TempName(video.youtubeId, task.quality) := Entry(now, dl.bytes, false)]
                              else old(files.temp))
            && files.downloads == (if (cached || dl.Downloaded?) && cut.Cut?
                                   then old(files.downloads)[GetOutputFilename(video.youtubeId, task.startTime, task.endTime, task.quality)
                                                             := Entry(now, cut.bytes, false)]
                                   else old(files.downloads))
    ensures db.videos == old(db.videos) && db.queue == old(db.queue) && db.nextId == old(db.nextId)
  {
    ghost var st := DownloadStage(task, TempName(video.youtubeId, task.quality) in files.temp, hooks, dl);
    var current, error := DownloadStep(db, files, task, video, hooks, dl, now);
    msg := ConcludeStep(db, files, current, error, video, cut, ffmpeg, now);
    ghost var rest := Conclude(current, error, video, cut, now);
    AppendAssoc(old(db.saves), st.saves, rest.saves);
    LastAppend(st.saves, rest.saves);
    UpdateTwice(old(db.tasks), task.taskId, current, Last(rest.saves));
  }

  /** `process_download_segment`. An unknown id writes nothing; otherwise
      the saved records, the final record, the returned message and the
      files written are those of `RunJob`. */
  method ProcessDownloadSegment(db: Database, files: MediaFiles, taskId: TaskId, hooks: seq<HookEvent>,
                                dl: DownloadOutcome, cut: CutOutcome, ffmpeg: string, now: int)
    returns (msg: string)
    requires db.Valid()
    modifies db, files
    ensures db.Valid()
    ensures db.videos == old(db.videos) && db.queue == old(db.queue) && db.nextId == old(db.nextId)
    ensures taskId !in old(db.tasks) ==>
              && msg == TaskNotFound
              && db.tasks == old(db.tasks) && db.saves == old(db.saves)
              && files.temp == old(files.temp) && files.downloads == old(files.downloads)
    ensures taskId in old(db.tasks) ==>
              var t := old(db.tasks[taskId]);
              var video := Lookup(old(db.videos), t.youtubeId);
              var cached := video.Some? && TempName(video.value.youtubeId, t.quality) in old(files.temp);
              var run := RunJob(t, video, cached, hooks, dl, cut, now);
              && msg == run.message
              && run.saves != []
              && db.saves == old(db.saves) + run.saves
              && db.tasks == old(db.tasks)[taskId := Last(run.saves)]
              && files.temp == (if video.Some? && !cached && dl.Downloaded?
                                then old(files.temp)[TempName(video.value.youtubeId, t.quality) := Entry(now, dl.bytes, false)]
                                else old(files.temp))
              && files.downloads == (if Completes(video, cached, dl, cut)
                                     then old(files.downloads)[GetOutputFilename(t.youtubeId, t.startTime, t.endTime, t.quality)
                                                               := Entry(now, cut.bytes, false)]
                                     else old(files.downloads))
  {
    if taskId !in db.tasks {
      return TaskNotFound;
    }
    msg := RunExisting(db, files, db.tasks[taskId], hooks, dl, cut, ffmpeg, now);
  }

  /** The job on a record that exists. */
  method RunExisting(db: Database, files: MediaFiles, t: DownloadTask, hooks: seq<HookEvent>,
                     dl: DownloadOutcome, cut: CutOutcome, ffmpeg: string, now: int)
    returns (msg: string)
    requires db.Valid() && t.taskId in db.tasks
    modifies db, files
    ensures db.Valid()
    ensures db.videos == old(db.videos) && db.queue == old(db.queue) && db.nextId == old(db.nextId)
    ensures var video := Lookup(old(db.videos), t.youtubeId);
            var cached := video.Some? && TempName(video.value.youtubeId, t.quality) in old(files.temp);
            var run := RunJob(t, video, cached, hooks, dl, cut, now);
            && msg == run.message
            && run.saves != []
            && db.saves == old(db.saves) + run.saves
            && db.tasks == old(db.tasks)[t.taskId := Last(run.saves)]
            && files.temp == (if video.Some? && !cached && dl.Downloaded?
                              then old(files.temp)[TempName(video.value.youtubeId, t.quality) := Entry(now, dl.bytes, false)]
                              else old(files.temp))
            && files.downloads == (if Completes(video, cached, dl, cut)
                                   then old(files.downloads)[GetOutputFilename(t.youtubeId, t.startTime, t.endTime, t.quality)
                                                             := Entry(now, cut.bytes, false)]
                                   else old(files.downloads))
  {
    if t.youtubeId !in db.videos {
      msg := RunMissingVideo(db, t, hooks, dl, cut, now);
    } else {
      msg := RunPresent(db, files, t, db.videos[t.youtubeId], hooks, dl, cut, ffmpeg, now);
    }
  }

  /** The job on a record whose video row is gone: the processing mark,
      then the failed record. The cascading foreign key keeps this from
      happening in the source; the model keeps the branch with its own
      failure text. */
  method RunMissingVideo(db: Database, t: DownloadTask, hooks: seq<HookEvent>,
                         dl: DownloadOutcome, cut: CutOutcome, now: int)
    returns (msg: string)
    requires db.Valid() && t.taskId in db.tasks
    modifies db
    ensures db.Valid()
    ensures db.videos == old(db.videos) && db.queue == old(db.queue) && db.nextId == old(db.nextId)
    ensures var run := RunJob(t, None, false, hooks, dl, cut, now);
            && msg == run.message
            && run.saves != []
            && db.saves == old(db.saves) + run.saves
            && db.tasks == old(db.tasks)[t.taskId := Last(run.saves)]
  {
    // status 'processing', progress 5
    var task := t.(status := Processing, progress := 5);
    db.Save(task);
    task := FailedRecord(task, VideoMissing);
    db.Save(task);
    return FailedPrefix + VideoMissing;
  }

  /** The job on a record whose video row is `video`. */
  method RunPresent(db: Database, files: MediaFiles, t: DownloadTask, video: VideoInfo, hooks: seq<HookEvent>,
                    dl: DownloadOutcome, cut: CutOutcome, ffmpeg: string, now: int)
    returns (msg: string)
    requires db.Valid() && t.taskId in db.tasks && video.youtubeId == t.youtubeId
    modifies db, files
    ensures db.Valid()
    ensures db.videos == old(db.videos) && db.queue == old(db.queue) && db.nextId == old(db.nextId)
    ensures var cached := TempName(t.youtubeId, t.quality) in old(files.temp);
            var run := RunJob(t, Some(video), cached, hooks, dl, cut, now);
            && msg == run.message
            && run.saves != []
            && db.saves == old(db.saves) + run.saves
            && db.tasks == old(db.tasks)[t.taskId := Last(run.saves)]
    ensures var cached := TempName(t.youtubeId, t.quality) in old(files.temp);
            && files.temp == (if !cached && dl.Downloaded?
                              then old(files.temp)[TempName(t.youtubeId, t.quality) := Entry(now, dl.bytes, false)]
                              else old(files.temp))
            && files.downloads == (if (cached || dl.Downloaded?) && cut.Cut?
                                   then old(files.downloads)[GetOutputFilename(t.youtubeId, t.startTime, t.endTime, t.quality)
                                                             := Entry(now, cut.bytes, false)]
                                   else old(files.downloads))
  {
    // status 'processing', progress 5
    var task := t.(status := Processing, progress := 5);
    db.Save(task);
    ghost var rest := AfterStart(task, video, TempName(t.youtubeId, t.quality) in files.temp, hooks, dl, cut, now);
    msg := AfterStartStep(db, files, task, video, hooks, dl, cut, ffmpeg, now);
    AppendAssoc(old(db.saves), [task], rest.saves);
    LastAppend([task], rest.saves);
    UpdateTwice(old(db.tasks), t.taskId, task, Last(rest.saves));
  }

  /** `cleanup_old_files`: the temp sweep with a maximum age of one day. */
  method CleanupOldFiles(files: MediaFiles, now: int, undeletable: set<string>) returns (msg: string)
    modifies files
    ensures msg == "Cleanup completed"
    ensures files.temp == Survivors(old(files.temp), now - 86400, undeletable)
    ensures files.downloads == old(files.downloads)
  {
    files.CleanupOldTempFiles(now, 86400, undeletable);
    msg := "Cleanup completed";
  }

  // ---------------------------------------------------------------------
  // What a run promises
  // ---------------------------------------------------------------------

  /** The first save marks the record as processing at 5, and a run always
      saves at least twice: that mark and a terminal record. */
  lemma RunStartsProcessing(t: DownloadTask, video: Option<VideoInfo>, cached: bool, hooks: seq<HookEvent>,
                            dl: DownloadOutcome, cut: CutOutcome, now: int)
    ensures var r := RunJob(t, video, cached, hooks, dl, cut, now);
            |r.saves| >= 2 && r.saves[0] == t.(status := Processing, progress := 5)
  {
  }

  /** A failure message is never the completion message. */
  lemma FailureMessageDiffers(error: string)
    ensures FailedPrefix + error != CompletedMessage
  {
    assert (FailedPrefix + error)[0] == 'F';
  }

  /** A run on a present video saves the processing mark, the download
      step's records, then the tail. */
  lemma RunSaves(t: DownloadTask, video: VideoInfo, cached: bool, hooks: seq<HookEvent>,
                 dl: DownloadOutcome, cut: CutOutcome, now: int)
    ensures var p := t.(status := Processing, progress := 5);
            var st := DownloadStage(p, cached, hooks, dl);
            RunJob(t, Some(video), cached, hooks, dl, cut, now).saves == [p] + st.saves + Conclude(st.current, st.error, video, cut, now).saves
  {
  }

  function Progresses(saves: seq<DownloadTask>): (ps: seq<int>)
    ensures |ps| == |saves| && forall i :: 0 <= i < |saves| ==> ps[i] == saves[i].progress
  {
    seq(|saves|, i requires 0 <= i < |saves| => saves[i].progress)
  }

  lemma ProgressesAppend(a: seq<DownloadTask>, b: seq<DownloadTask>)
    ensures Progresses(a + b) == Progresses(a) + Progresses(b)
  {
    assert |Progresses(a + b)| == |Progresses(a) + Progresses(b)|;
    forall i | 0 <= i < |a + b|
      ensures Progresses(a + b)[i] == (Progresses(a) + Progresses(b))[i]
    {
      if i >= |a| {
        assert (a + b)[i] == b[i - |a|];
      }
    }
  }

  /** The download step changes nothing but the progress: every record it
      saves, and the record after it, is the record it started from with
      another progress; the last save is that record, and the progress
      values saved are the checkpoints between 5 and 70. */
  lemma StageOnlyMovesProgress(p: DownloadTask, cached: bool, hooks: seq<HookEvent>, dl: DownloadOutcome)
    ensures var st := DownloadStage(p, cached, hooks, dl);
            && st.saves != [] && st.current == Last(st.saves)
            && st.current == p.(progress := st.current.progress)
            && (forall i :: 0 <= i < |st.saves| ==> st.saves[i] == p.(progress := st.saves[i].progress))
            && Progresses(st.saves) == DownloadCheckpoints(cached, hooks)
  {
    if !cached {
      var t10 := p.(progress := 10);
      var values := CallbackValues(hooks, true);
      var st := DownloadStage(p, cached, hooks, dl);
      assert st.saves == [t10] + ProgressSaves(t10, values);
      assert forall i :: 1 <= i < |st.saves| ==> st.saves[i] == t10.(progress := values[i - 1]);
      assert Progresses(st.saves) == [10] + values;
    }
  }

  /** Status moves pending/processing -> processing -> completed | failed:
      every save but the last is processing, the last is terminal. It is
      completed exactly when the video is there, the source is cached or
      downloads, and the cut succeeds, and the message says which. */
  lemma RunOutcome(t: DownloadTask, video: Option<VideoInfo>, cached: bool, hooks: seq<HookEvent>,
                   dl: DownloadOutcome, cut: CutOutcome, now: int)
    ensures var r := RunJob(t, video, cached, hooks, dl, cut, now);
            && r.saves != []
            && (forall i :: 0 <= i < |r.saves| - 1 ==> r.saves[i].status == Processing)
            && (Last(r.saves).status == Completed <==> Completes(video, cached, dl, cut))
            && (Last(r.saves).status == Completed <==> r.message == CompletedMessage)
            && (Last(r.saves).status != Completed ==>
                  && Last(r.saves).status == Failed
                  && Last(r.saves).errorMessage.Some?
                  && r.message == FailedPrefix + Last(r.saves).errorMessage.value)
  {
    if video.Some? {
      var p := t.(status := Processing, progress := 5);
      var st := DownloadStage(p, cached, hooks, dl);
      StageOnlyMovesProgress(p, cached, hooks, dl);
      RunSaves(t, video.value, cached, hooks, dl, cut, now);
      if st.error.Some? {
        FailureMessageDiffers(st.error.value);
      } else if !cut.Cut? {
        FailureMessageDiffers(CutErrorMessage(cut));
      }
    } else {
      FailureMessageDiffers(VideoMissing);
    }
  }

  /** A completed run says so, and its final record points at the cut
      file, carries the completion time and is consistent. */
  lemma CompletedRun(t: DownloadTask, video: Option<VideoInfo>, cached: bool, hooks: seq<HookEvent>,
                     dl: DownloadOutcome, cut: CutOutcome, now: int)
    requires Completes(video, cached, dl, cut)
    ensures var r := RunJob(t, video, cached, hooks, dl, cut, now);
            && r.message == CompletedMessage
            && Last(r.saves).outputFile == Some(PathString(GetOutputPath(GetOutputFilename(video.value.youtubeId, t.startTime, t.endTime, t.quality))))
            && Last(r.saves).completedAt == Some(now)
            && Consistent(Last(r.saves))
  {
    var p := t.(status := Processing, progress := 5);
    var st := DownloadStage(p, cached, hooks, dl);
    RunSaves(t, video.value, cached, hooks, dl, cut, now);
    ConcludeCompletes(st.current, video.value, cut, now);
    LastAppend([p] + st.saves, Conclude(st.current, st.error, video.value, cut, now).saves);
  }

  /** A completed run wrote the checkpoints 5, then 65 or 10 and the
      callback values, then 70, 90 and 100. */
  lemma CompletedRunCheckpoints(t: DownloadTask, video: Option<VideoInfo>, cached: bool, hooks: seq<HookEvent>,
                                dl: DownloadOutcome, cut: CutOutcome, now: int)
    requires Completes(video, cached, dl, cut)
    ensures var r := RunJob(t, video, cached, hooks, dl, cut, now);
            Progresses(r.saves) == [5] + DownloadCheckpoints(cached, hooks) + [70, 90, 100]
  {
    var p := t.(status := Processing, progress := 5);
    var st := DownloadStage(p, cached, hooks, dl);
    StageOnlyMovesProgress(p, cached, hooks, dl);
    RunSaves(t, video.value, cached, hooks, dl, cut, now);
    var tail := Conclude(st.current, st.error, video.value, cut, now).saves;
    ConcludeCompletes(st.current, video.value, cut, now);
    assert Progresses([p]) == [5];
    ProgressesAppend([p], st.saves);
    ProgressesAppend([p] + st.saves, tail);
  }

  /** After a download step that did not raise, a successful cut saves 70,
      90 and the completed record pointing at the cut file. */
  lemma ConcludeCompletes(c: DownloadTask, video: VideoInfo, cut: CutOutcome, now: int)
    requires cut.Cut?
    ensures var rest := Conclude(c, None, video, cut, now);
            && rest.message == CompletedMessage
            && Progresses(rest.saves) == [70, 90, 100]
            && Last(rest.saves) == c.(status := Completed, progress := 100, completedAt := Some(now),
                                      outputFile := Some(OutputFile(video, c)))
  {
    var rest := Conclude(c, None, video, cut, now);
    assert Progresses(rest.saves) == [70, 90, 100];
  }

  /** A failed run leaves the output file and completion time as they were. */
  lemma FailedRunKeepsOutput(t: DownloadTask, video: Option<VideoInfo>, cached: bool, hooks: seq<HookEvent>,
                             dl: DownloadOutcome, cut: CutOutcome, now: int)
    requires !Completes(video, cached, dl, cut)
    ensures var r := RunJob(t, video, cached, hooks, dl, cut, now);
            && Last(r.saves).status == Failed
            && Last(r.saves).outputFile == t.outputFile
            && Last(r.saves).completedAt == t.completedAt
            && Consistent(Last(r.saves))
  {
  }

  /** Two records agree on the request: identity, video, interval,
      quality and creation time. */
  predicate SameRequest(a: DownloadTask, b: DownloadTask) {
    && a.taskId == b.taskId && a.youtubeId == b.youtubeId
    && a.startTime == b.startTime && a.endTime == b.endTime
    && a.quality == b.quality && a.createdAt == b.createdAt
  }

  /** No save changes the record's identity, interval, quality or creation time. */
  lemma RunKeepsRequest(t: DownloadTask, video: Option<VideoInfo>, cached: bool, hooks: seq<HookEvent>,
                        dl: DownloadOutcome, cut: CutOutcome, now: int)
    ensures var r := RunJob(t, video, cached, hooks, dl, cut, now);
            forall i :: 0 <= i < |r.saves| ==> SameRequest(r.saves[i], t)
  {
    if video.Some? {
      var p := t.(status := Processing, progress := 5);
      var st := DownloadStage(p, cached, hooks, dl);
      StageOnlyMovesProgress(p, cached, hooks, dl);
      RunSaves(t, video.value, cached, hooks, dl, cut, now);
      var tail := Conclude(st.current, st.error, video.value, cut, now).saves;
      assert forall i :: 0 <= i < |tail| ==> SameRequest(tail[i], t);
      var saves := [p] + st.saves + tail;
      forall i | 0 <= i < |saves|
        ensures SameRequest(saves[i], t)
      {
        if 1 <= i <= |st.saves| {
          assert saves[i] == st.saves[i - 1];
        } else if i > |st.saves| {
          assert saves[i] == tail[i - 1 - |st.saves|];
        }
      }
    }
  }

  /** When the download raised, the cut is never attempted: its outcome
      does not matter. */
  lemma NoCutAfterFailedDownload(t: DownloadTask, video: Option<VideoInfo>, hooks: seq<HookEvent>,
                                 dl: DownloadOutcome, cut1: CutOutcome, cut2: CutOutcome, now: int)
    requires dl.DownloadFailed?
    ensures RunJob(t, video, false, hooks, dl, cut1, now) == RunJob(t, video, false, hooks, dl, cut2, now)
  {
  }

  /** On a cache hit nothing is downloaded: reports and download result do not matter. */
  lemma CacheHitSkipsDownload(t: DownloadTask, video: Option<VideoInfo>, hooks1: seq<HookEvent>, hooks2: seq<HookEvent>,
                              dl1: DownloadOutcome, dl2: DownloadOutcome, cut: CutOutcome, now: int)
    ensures RunJob(t, video, true, hooks1, dl1, cut, now) == RunJob(t, video, true, hooks2, dl2, cut, now)
  {
  }

  /** The download step saves only values of at least 0, and at most 65
      when no report counts more bytes than its total. */
  lemma StageProgressBounds(p: DownloadTask, cached: bool, hooks: seq<HookEvent>, dl: DownloadOutcome)
    requires p.progress >= 0
    ensures var st := DownloadStage(p, cached, hooks, dl);
            && (forall i :: 0 <= i < |st.saves| ==> st.saves[i].progress >= 0)
            && st.current.progress >= 0
            && ((forall j :: 0 <= j < |hooks| ==> WithinTotal(hooks[j])) ==>
                  && (forall i :: 0 <= i < |st.saves| ==> st.saves[i].progress <= 65)
                  && st.current.progress <= 65)
  {
    CallbackBounds(hooks, true);
    if !cached {
      var st := DownloadStage(p, cached, hooks, dl);
      var values := CallbackValues(hooks, true);
      assert forall i :: 1 <= i < |st.saves| ==> st.saves[i].progress == values[i - 1];
    }
  }

  /** The steps after the download step save the progress they start
      from, or a checkpoint between 70 and 100. */
  lemma ConcludeProgress(c: DownloadTask, error: Option<string>, video: VideoInfo, cut: CutOutcome, now: int)
    ensures var rest := Conclude(c, error, video, cut, now);
            forall i :: 0 <= i < |rest.saves| ==> rest.saves[i].progress == c.progress || 70 <= rest.saves[i].progress <= 100
  {
  }

  /** Every saved progress is at least 0; it is at most 100 when no
      progress report counts more bytes than its total. */
  lemma RunProgressBounds(t: DownloadTask, video: Option<VideoInfo>, cached: bool, hooks: seq<HookEvent>,
                          dl: DownloadOutcome, cut: CutOutcome, now: int)
    ensures var r := RunJob(t, video, cached, hooks, dl, cut, now);
            && (forall i :: 0 <= i < |r.saves| ==> r.saves[i].progress >= 0)
            && ((forall j :: 0 <= j < |hooks| ==> WithinTotal(hooks[j])) ==>
                  forall i :: 0 <= i < |r.saves| ==> r.saves[i].progress <= 100)
  {
    if video.Some? {
      var p := t.(status := Processing, progress := 5);
      StageProgressBounds(p, cached, hooks, dl);
      RunSaves(t, video.value, cached, hooks, dl, cut, now);
      var st := DownloadStage(p, cached, hooks, dl);
      var tail := Conclude(st.current, st.error, video.value, cut, now).saves;
      ConcludeProgress(st.current, st.error, video.value, cut, now);
      var saves := [p] + st.saves + tail;
      forall i | 0 <= i < |saves|
        ensures saves[i].progress >= 0
        ensures (forall j :: 0 <= j < |hooks| ==> WithinTotal(hooks[j])) ==> saves[i].progress <= 100
      {
        if 1 <= i <= |st.saves| {
          assert saves[i] == st.saves[i - 1];
        } else if i > |st.saves| {
          assert saves[i] == tail[i - 1 - |st.saves|];
        }
      }
    }
  }

  /** Progress is not monotone: a report of 5 bytes out of 100 after
      checkpoint 10 saves 3. */
  lemma ProgressCanGoBack(t: DownloadTask, v: VideoInfo, now: int)
    ensures var r := RunJob(t, Some(v), false, [Downloading(Some(100), None, Some(5))], Downloaded(100), Cut(10), now);
            Progresses(r.saves) == [5, 10, 3, 70, 90, 100]
  {
    var hooks := [Downloading(Some(100), None, Some(5))];
    assert hooks[..0] == [];
    assert CallbackValues(hooks, true) == [3];
    CompletedRunCheckpoints(t, Some(v), false, hooks, Downloaded(100), Cut(10), now);
  }

  /** Progress can pass 100: with only a 100-byte estimate and 200 bytes
      received, the callback saves 120. */
  lemma ProgressCanPassHundred(t: DownloadTask, v: VideoInfo, now: int)
    ensures var r := RunJob(t, Some(v), false, [Downloading(None, Some(100), Some(200))], Downloaded(200), Cut(10), now);
            r.saves[2].progress == 120
  {
    var hooks := [Downloading(None, Some(100), Some(200))];
    assert hooks[..0] == [];
    assert CallbackValues(hooks, true) == [120];
  }
}
