/** The stored video metadata row (videos/models.py) and the format
    descriptors kept in its `available_qualities` column. */
module VideoModels {
  import opened Common

  /** One selectable encoding, as the format filter stores it: the
      extractor's format id (which may be absent), the quality label
      ("720p"), the container, the byte size (null when unknown) and
      whether it carries video and audio. */
  datatype Format = Format(
    formatId: Option<string>,
    quality: string,
    ext: string,
    filesize: Option<int>,
    hasVideo: bool,
    hasAudio: bool)

  /** A VideoInfo row, unique by `youtubeId`. A row created without
      formats holds the column default `{}`, which iterates as no
      formats at all; the model writes it as the empty sequence. */
  datatype VideoInfo = VideoInfo(
    youtubeId: string,
    title: string,
    duration: int,
    thumbnailUrl: Option<string>,
    uploader: Option<string>,
    availableQualities: seq<Format>)

  /** A format answers to a quality selector when the selector equals its
      quality label or its format id. */
  predicate Answers(f: Format, selector: string) {
    f.quality == selector || f.formatId == Some(selector)
  }
}

/** The DownloadTask record (downloads/models.py). */
module TaskModels {
  import opened Common

  /** Generated at creation and never edited: a UUID in the source, an
      allocated number here (see Store). */
  type TaskId = nat

  datatype Status = Pending | Processing | Completed | Failed

  /** The stored spelling of a status (the STATUS_CHOICES keys). */
  function StatusName(s: Status): string {
    match s
    case Pending => "pending"
    case Processing => "processing"
    case Completed => "completed"
    case Failed => "failed"
  }

  /** Reads a stored spelling back; a value outside the four choices has no status. */
  function StatusOf(name: string): (r: Option<Status>)
    ensures r.Some? ==> StatusName(r.value) == name
    ensures name !in {"pending", "processing", "completed", "failed"} ==> r.None?
  {
    if name == "pending" then Some(Pending)
    else if name == "processing" then Some(Processing)
    else if name == "completed" then Some(Completed)
    else if name == "failed" then Some(Failed)
    else None
  }

  /** Every status is stored as one of the four choices and read back as itself. */
  lemma StatusNameRoundTrip(s: Status)
    ensures StatusName(s) in {"pending", "processing", "completed", "failed"}
    ensures StatusOf(StatusName(s)) == Some(s)
  {
  }

  datatype DownloadTask = DownloadTask(
    taskId: TaskId,
    youtubeId: string,       // the referenced VideoInfo row
    startTime: int,
    endTime: int,
    quality: string,
    status: Status,
    progress: int,
    outputFile: Option<string>,
    errorMessage: Option<string>,
    createdAt: int,
    completedAt: Option<int>)

  /** A FileField is truthy only when it holds a non-empty name. */
  predicate HasOutput(t: DownloadTask) {
    t.outputFile.Some? && t.outputFile.value != ""
  }

  /** A record as `objects.create` makes it: the given parameters, the
      field defaults, and the creation time. */
  function NewTask(id: TaskId, youtubeId: string, start: int, end: int, quality: string, now: int): (t: DownloadTask)
    ensures t.taskId == id && t.youtubeId == youtubeId
    ensures t.startTime == start && t.endTime == end && t.quality == quality
    ensures t.status == Pending && t.progress == 0
    ensures t.outputFile == None && t.errorMessage == None && t.completedAt == None
    ensures t.createdAt == now
  {
    DownloadTask(id, youtubeId, start, end, quality, Pending, 0, None, None, now, None)
  }

  /** What the record promises a reader about its terminal states: a
      completed job is at 100 with an artifact and a completion time, a
      failed one carries an error text, a pending one has not started. */
  predicate Consistent(t: DownloadTask) {
    && (t.status == Completed ==> t.progress == 100 && HasOutput(t) && t.completedAt.Some?)
    && (t.status == Failed ==> t.errorMessage.Some?)
    && (t.status == Pending ==> t.progress == 0 && t.completedAt.None?)
  }

  lemma NewTaskConsistent(id: TaskId, youtubeId: string, start: int, end: int, quality: string, now: int)
    ensures Consistent(NewTask(id, youtubeId, start, end, quality, now))
  {
  }
}
