/** The three HTTP endpoints (api/views.py): metadata extraction, clip
    submission and task status. Each view is a method over the store; the
    decision a submission gets is also given as a pure function,
    `SubmitVerdict`, so that the order of its checks can be stated. The
    extractor's answer for the submitted URL is an input. */
module Views {
  import opened Common
  import opened VideoModels
  import opened TaskModels
  import opened Store
  import opened FileManager
  import opened Serializers
  import Validators
  import Progress
  import Services
  import VideoServices

  datatype Body =
    | ErrorBody(error: string)
    | FieldErrorsBody(errors: map<string, string>)
    | VideoBody(video: VideoInfo)
    | AcceptedBody(taskId: TaskId, status: string, estimatedSize: int, estimatedDuration: int)
    | TaskBody(view: TaskView)

  datatype Response = Response(status: int, body: Body)

  const BadRequest := 400
  const NotFound := 404
  const ServerError := 500

  const InvalidUrl := "Invalid YouTube URL"
  const NoVideoInfo := "Could not retrieve video info"
  const InvalidQuality := "Invalid quality selected"
  const SizeTooLarge := "Estimated file size too large"
  const TaskNotFound := "Task not found"

  /** `MAX_SEGMENT_SIZE` from the settings, 1 GiB when unset. */
  function MaxSegmentSize(setting: Option<int>): (m: int)
    ensures setting.None? ==> m == 1073741824
    ensures setting.Some? ==> m == setting.value
  {
    if setting.Some? then setting.value else 1073741824
  }

  // ---------------------------------------------------------------------
  // POST extract-info/
  // ---------------------------------------------------------------------

  /** The response `VideoInfoView.post` gives. */
  function ExtractResponse(youtubeUrl: Field<string>, extracted: Result<VideoServices.RawInfo>): (resp: Response)
    ensures resp.status == BadRequest <==>
              youtubeUrl.Missing? || youtubeUrl.Malformed? || !Validators.ValidateYoutubeUrl(youtubeUrl.value)
    ensures resp.status == 200 <==> resp.body.VideoBody?
    ensures resp.status == 200 ==> extracted.Ok? && resp.body == VideoBody(VideoServices.StoredInfo(extracted.value))
    ensures resp.status == ServerError ==> extracted.Err? && resp.body == ErrorBody(VideoServices.ExtractFailedPrefix + extracted.error)
    ensures resp.status in {BadRequest, ServerError, 200}
  {
    match ValidateExtractRequest(youtubeUrl)
    case Err(_) => Response(BadRequest, FieldErrorsBody(map["youtube_url" := FieldError]))
    case Ok(url) =>
      if !Validators.ValidateYoutubeUrl(url) then Response(BadRequest, ErrorBody(InvalidUrl))
      else if extracted.Err? then Response(ServerError, ErrorBody(VideoServices.ExtractFailedPrefix + extracted.error))
      else Response(200, VideoBody(VideoServices.StoredInfo(extracted.value)))
  }

  /** `VideoInfoView.post`: the URL check comes before extraction; on
      success the stored row for the id is returned. */
  method VideoInfoPost(db: Database, youtubeUrl: Field<string>, extracted: Result<VideoServices.RawInfo>)
    returns (resp: Response)
    requires db.Valid()
    modifies db
    ensures db.Valid()
    ensures resp == ExtractResponse(youtubeUrl, extracted)
    ensures db.videos == if resp.status == 200 then old(db.videos)[extracted.value.youtubeId := resp.body.video]
                         else old(db.videos)
    ensures db.tasks == old(db.tasks) && db.queue == old(db.queue) && db.saves == old(db.saves)
  {
    var v := ValidateExtractRequest(youtubeUrl);
    if v.Err? {
      return Response(BadRequest, FieldErrorsBody(map["youtube_url" := FieldError]));
    }
    var url := v.value;
    if !Validators.ValidateYoutubeUrl(url) {
      return Response(BadRequest, ErrorBody(InvalidUrl));
    }
    var info := VideoServices.GetVideoInfo(db, extracted);
    if info.Err? {
      return Response(ServerError, ErrorBody(info.error));
    }
    var row := db.videos[info.value.youtubeId];
    resp := Response(200, VideoBody(row));
  }

  /** A URL the pattern refuses is answered with 400 whatever the
      extractor would have said: the extractor is not consulted. */
  lemma RefusedUrlNotExtracted(url: string, e1: Result<VideoServices.RawInfo>, e2: Result<VideoServices.RawInfo>)
    requires !Validators.ValidateYoutubeUrl(url)
    ensures ExtractResponse(Given(url), e1) == ExtractResponse(Given(url), e2) == Response(BadRequest, ErrorBody(InvalidUrl))
  {
  }

  // ---------------------------------------------------------------------
  // POST download-segment/
  // ---------------------------------------------------------------------

  /** What a submission comes to: a response without a task, or a task to
      create with the validated interval, quality and estimate. */
  datatype Verdict =
    | Refuse(response: Response)
    | Admit(youtubeId: string, start: int, end: int, quality: string, estimate: int)

  /** The checks of `DownloadSegmentView.post`, first failure wins:
      serializer, metadata, timestamps, quality, size estimate, then the
      creation guard of `create_download_task`. */
  function SubmitVerdict(r: DownloadRequest, extracted: Result<VideoServices.RawInfo>, maxSize: int): (d: Verdict)
    ensures ValidateDownloadRequest(r).Invalid? ==>
              d == Refuse(Response(BadRequest, FieldErrorsBody(ValidateDownloadRequest(r).errors)))
    ensures ValidateDownloadRequest(r).Valid? && extracted.Err? ==> d == Refuse(Response(BadRequest, ErrorBody(NoVideoInfo)))
    ensures d.Refuse? ==> d.response.status in {BadRequest, ServerError}
  {
    match ValidateDownloadRequest(r)
    case Invalid(errors) => Refuse(Response(BadRequest, FieldErrorsBody(errors)))
    case Valid(req) =>
      if extracted.Err? then Refuse(Response(BadRequest, ErrorBody(NoVideoInfo)))
      else
        var video := VideoServices.StoredInfo(extracted.value);
        match Validators.ValidateTimestamps(req.startTime, req.endTime, video.duration)
        case Rejected(message) => Refuse(Response(BadRequest, ErrorBody(message)))
        case Accepted(start, end) =>
          if !Validators.ValidateQuality(req.quality, video.availableQualities) then
            Refuse(Response(BadRequest, ErrorBody(InvalidQuality)))
          else
            var estimate := Progress.Estimate(video, start, end, req.quality);
            if estimate > maxSize then Refuse(Response(BadRequest, ErrorBody(SizeTooLarge)))
            else match Services.CreateGuard(Some(video), start, end)
              case Fail(error) => Refuse(Response(ServerError, ErrorBody(error)))
              case Pass => Admit(video.youtubeId, start, end, req.quality, estimate)
  }

  /** `DownloadSegmentView.post`. */
  method DownloadSegmentPost(db: Database, r: DownloadRequest, extracted: Result<VideoServices.RawInfo>,
                             maxSetting: Option<int>, now: int)
    returns (resp: Response)
    requires db.Valid()
    modifies db
    ensures db.Valid()
    ensures var d := SubmitVerdict(r, extracted, MaxSegmentSize(maxSetting));
            && (d.Refuse? ==> && resp == d.response
                              && db.tasks == old(db.tasks) && db.queue == old(db.queue) && db.saves == old(db.saves))
            && (d.Admit? ==> && resp.status == 202 && resp.body.AcceptedBody?
                             && var id := resp.body.taskId;
                             && resp.body == AcceptedBody(id, "pending", d.estimate, d.end - d.start)
                             && id !in old(db.tasks)
                             && db.tasks == old(db.tasks)[id := NewTask(id, d.youtubeId, d.start, d.end, d.quality, now)]
                             && db.queue == old(db.queue) + [id])
    ensures db.videos == if ValidateDownloadRequest(r).Valid? && extracted.Ok?
                         then old(db.videos)[extracted.value.youtubeId := VideoServices.StoredInfo(extracted.value)]
                         else old(db.videos)
  {
    var v := ValidateDownloadRequest(r);
    if v.Invalid? {
      return Response(BadRequest, FieldErrorsBody(v.errors));
    }
    var req := v.data;
    var info := VideoServices.GetVideoInfo(db, extracted);
    if info.Err? {
      return Response(BadRequest, ErrorBody(NoVideoInfo));
    }
    var youtubeId := info.value.youtubeId;
    var duration := info.value.duration;
    var availableFormats := info.value.availableQualities;

    var checked := Validators.ValidateTimestamps(req.startTime, req.endTime, duration);
    if checked.Rejected? {
      return Response(BadRequest, ErrorBody(checked.message));
    }
    var start, end := checked.start, checked.end;

    if !Validators.ValidateQuality(req.quality, availableFormats) {
      return Response(BadRequest, ErrorBody(InvalidQuality));
    }

    var estimatedSize := Progress.EstimateSize(db.videos[youtubeId], start, end, req.quality);
    if estimatedSize > MaxSegmentSize(maxSetting) {
      return Response(BadRequest, ErrorBody(SizeTooLarge));
    }

    var created := Services.CreateDownloadTask(db, youtubeId, start, end, req.quality, now);
    if created.Err? {
      return Response(ServerError, ErrorBody(created.error));
    }
    db.Enqueue(created.value);
    resp := Response(202, AcceptedBody(created.value, "pending", estimatedSize, end - start));
  }

  /** A submission is admitted exactly when every check passes, and the
      admitted job is one the runner can cut: a non-empty interval inside
      the video, at the requested start, with a quality that is listed
      and an estimate within the limit. */
  lemma AdmittedIffAllChecksPass(r: DownloadRequest, extracted: Result<VideoServices.RawInfo>, maxSize: int)
    ensures SubmitVerdict(r, extracted, maxSize).Admit? <==>
              && ValidateDownloadRequest(r).Valid? && extracted.Ok?
              && var req := ValidateDownloadRequest(r).data;
              && var video := VideoServices.StoredInfo(extracted.value);
              && var ts := Validators.ValidateTimestamps(req.startTime, req.endTime, video.duration);
              && ts.Accepted? && ts.start < ts.end
              && Validators.ValidateQuality(req.quality, video.availableQualities)
              && Progress.Estimate(video, ts.start, ts.end, req.quality) <= maxSize
    ensures var d := SubmitVerdict(r, extracted, maxSize);
            d.Admit? ==> && var req := ValidateDownloadRequest(r).data;
                         && d.youtubeId == extracted.value.youtubeId
                         && 0 <= d.start < d.end <= extracted.value.duration
                         && d.start == req.startTime
                         && (d.end == req.endTime || d.end == extracted.value.duration)
                         && Validators.ValidateQuality(d.quality, VideoServices.KeptFormats(extracted.value.formats))
                         && d.estimate <= maxSize
  {
  }

  /** The request (1000 s, 1003 s) on a 1000-second video with a listed
      quality passes every 400 check (the clamped interval is empty, so
      its estimate is 0) and is refused with 500 by the creation guard. */
  lemma ClampedRequestGets500(url: string, quality: string, raw: VideoServices.RawInfo, maxSize: int)
    requires raw.duration == 1000 && TextOk(Given(quality)) && maxSize >= 0
    requires Validators.ValidateQuality(Strip(quality), VideoServices.KeptFormats(raw.formats))
    ensures SubmitVerdict(DownloadRequest(Given(url), Given(1000), Given(1003), Given(quality)), Ok(raw), maxSize)
            == Refuse(Response(ServerError, ErrorBody(Services.InvalidTimestamps)))
  {
    var video := VideoServices.StoredInfo(raw);
    var q := Strip(quality);
    var k := Progress.FirstAnswering(video.availableQualities, q);
    assert k.Some?;
    assert Progress.Estimate(video, 1000, 1000, q) == 0;
  }

  /** The size check refuses only a positive estimate above the limit:
      with a non-negative limit, an estimate of 0 (no size known) never
      blocks a submission. */
  lemma SizeRefusalNeedsPositiveEstimate(r: DownloadRequest, extracted: Result<VideoServices.RawInfo>, maxSize: int)
    requires maxSize >= 0
    requires SubmitVerdict(r, extracted, maxSize) == Refuse(Response(BadRequest, ErrorBody(SizeTooLarge)))
    ensures ValidateDownloadRequest(r).Valid? && extracted.Ok?
    ensures var req := ValidateDownloadRequest(r).data;
            var video := VideoServices.StoredInfo(extracted.value);
            var ts := Validators.ValidateTimestamps(req.startTime, req.endTime, video.duration);
            && ts.Accepted?
            && Progress.Estimate(video, ts.start, ts.end, req.quality) > maxSize >= 0
  {
  }

  /** Quality is looked at only once the timestamps have passed: a
      request refused for its quality had acceptable timestamps, and a
      request with unacceptable timestamps gets the timestamp message
      whatever its quality. */
  lemma TimestampsCheckedBeforeQuality(r: DownloadRequest, extracted: Result<VideoServices.RawInfo>, maxSize: int)
    requires ValidateDownloadRequest(r).Valid? && extracted.Ok?
    ensures var req := ValidateDownloadRequest(r).data;
            var ts := Validators.ValidateTimestamps(req.startTime, req.endTime, extracted.value.duration);
            && (ts.Rejected? ==> SubmitVerdict(r, extracted, maxSize) == Refuse(Response(BadRequest, ErrorBody(ts.message))))
            && (SubmitVerdict(r, extracted, maxSize) == Refuse(Response(BadRequest, ErrorBody(InvalidQuality))) ==> ts.Accepted?)
  {
    var req := ValidateDownloadRequest(r).data;
    var ts := Validators.ValidateTimestamps(req.startTime, req.endTime, extracted.value.duration);
    if ts.Rejected? {
      assert ts.message != InvalidQuality;
    }
  }

  /** The submission path never applies the URL pattern: the verdict is
      the same whatever URL is submitted, as long as it is a URL. */
  lemma SubmissionIgnoresUrl(u1: string, u2: string, start: Field<int>, end: Field<int>, quality: Field<string>,
                             extracted: Result<VideoServices.RawInfo>, maxSize: int)
    ensures SubmitVerdict(DownloadRequest(Given(u1), start, end, quality), extracted, maxSize)
         == SubmitVerdict(DownloadRequest(Given(u2), start, end, quality), extracted, maxSize)
  {
    var v1 := ValidateDownloadRequest(DownloadRequest(Given(u1), start, end, quality));
    var v2 := ValidateDownloadRequest(DownloadRequest(Given(u2), start, end, quality));
    assert v1.Valid? <==> v2.Valid?;
    if v1.Invalid? {
      assert v1.errors == v2.errors;
    }
  }

  /** A submission of 10 seconds of a 100-second video in format "22",
      whose size is unknown, is admitted with estimate 0. */
  lemma AdmitExample(url: string)
    ensures var raw := VideoServices.RawInfo("dQw4w9WgXcQ", "t", 100, None, None,
                         [VideoServices.RawFormat(Some("mp4"), Some("22"), Some(720), None, None, None)]);
            SubmitVerdict(DownloadRequest(Given(url), Given(0), Given(10), Given("22")), Ok(raw), 1073741824)
            == Admit("dQw4w9WgXcQ", 0, 10, "22", 0)
  {
    assert "22"[0] == '2' && !PySpace('2');
    BareQualityKept(url, 0, 10, "22");
    var f := VideoServices.RawFormat(Some("mp4"), Some("22"), Some(720), None, None, None);
    var raw := VideoServices.RawInfo("dQw4w9WgXcQ", "t", 100, None, None, [f]);
    assert [f][..0] == [];
    var kept := VideoServices.KeptFormats([f]);
    assert kept == [VideoServices.Convert(f)];
    var video := VideoServices.StoredInfo(raw);
    assert Answers(kept[0], "22");
    assert Progress.FirstAnswering(video.availableQualities, "22") == Some(0);
  }

  /** So a URL that the extraction endpoint refuses can still get a job:
      the pattern is not applied on this path. */
  lemma RefusedUrlAdmitted()
    ensures var url := Validators.OtherHostUrl;
            var raw := VideoServices.RawInfo("dQw4w9WgXcQ", "t", 100, None, None,
                         [VideoServices.RawFormat(Some("mp4"), Some("22"), Some(720), None, None, None)]);
            && ExtractResponse(Given(url), Ok(raw)) == Response(BadRequest, ErrorBody(InvalidUrl))
            && SubmitVerdict(DownloadRequest(Given(url), Given(0), Given(10), Given("22")), Ok(raw), 1073741824).Admit?
  {
    Validators.RejectsOtherHost();
    AdmitExample(Validators.OtherHostUrl);
  }

  // ---------------------------------------------------------------------
  // GET task-status/<id>/
  // ---------------------------------------------------------------------

  /** `TaskStatusView.get`: the serialized record, or 404. */
  function TaskStatusGet(db: Database, files: MediaFiles, id: TaskId, mediaUrl: string): (resp: Response)
    reads db, files
    ensures resp.status == NotFound <==> id !in db.tasks
    ensures id !in db.tasks ==> resp.body == ErrorBody(TaskNotFound)
    ensures id in db.tasks ==> resp.status == 200 && resp.body == TaskBody(SerializeTask(db.tasks[id], mediaUrl, files))
  {
    if id in db.tasks then Response(200, TaskBody(SerializeTask(db.tasks[id], mediaUrl, files)))
    else Response(NotFound, ErrorBody(TaskNotFound))
  }

  /** A task admitted by a submission is immediately visible as pending
      at 0 %, with no link and no size. */
  lemma AdmittedTaskIsPending(db: Database, files: MediaFiles, id: TaskId, mediaUrl: string,
                              youtubeId: string, start: int, end: int, quality: string, now: int)
    requires id in db.tasks && db.tasks[id] == NewTask(id, youtubeId, start, end, quality, now)
    ensures TaskStatusGet(db, files, id, mediaUrl)
            == Response(200, TaskBody(TaskView(id, "pending", 0, None, None, None)))
  {
  }
}
