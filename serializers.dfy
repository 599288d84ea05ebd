/** Request parsing and response shaping (api/serializers.py). Field
    checks of the serializer library are reduced to which fields fail;
    the URL field's own well-formedness rules are outside the model and
    arrive already decided (see `Field`). */
module Serializers {
  import opened Common
  import opened TaskModels
  import opened FileManager
  import Validators

  /** One submitted field: absent or null, present but not of the field's
      type (not an integer, not a URL), or a value of that type. For a
      text field the value is the submitted text (`str()` of it); for the
      URL field it is the field's cleaned value. */
  datatype Field<T> = Missing | Malformed | Given(value: T)

  /** The body of a download request, as submitted. */
  datatype DownloadRequest = DownloadRequest(
    youtubeUrl: Field<string>,
    startTime: Field<int>,
    endTime: Field<int>,
    quality: Field<string>)

  /** A request that passed the serializer. */
  datatype ValidRequest = ValidRequest(youtubeUrl: string, startTime: nat, endTime: nat, quality: string)

  /** `is_valid()`: the validated data, or the names of the failing
      fields; a failure of `validate` itself is reported under
      "non_field_errors" with its message. */
  datatype Validation = Valid(data: ValidRequest) | Invalid(errors: map<string, string>)

  const FieldError := "invalid"
  const NonFieldErrors := "non_field_errors"
  const OrderMessage := "End time must be greater than start time."

  predicate UrlOk(f: Field<string>) { f.Given? }

  /** `IntegerField(min_value=0)`. */
  predicate TimeOk(f: Field<int>) { f.Given? && f.value >= 0 }

  /** The characters Python's `str.strip()` removes by default: those for
      which `str.isspace()` holds. */
  predicate PySpace(c: char) {
    SpaceAfter(c, 3)
  }

  /** The class of `PySpace`, reached after `steps` unfoldings, so that
      the verifier expands it for a known character and keeps it folded
      for an unknown one; `SpaceAfterEveryStep` proves the count does not
      matter. */
  predicate SpaceAfter(c: char, steps: nat)
    decreases steps
  {
    if steps > 0 then SpaceAfter(c, steps - 1)
    else
      var n := c as int;
      || 0x09 <= n <= 0x0D || 0x1C <= n <= 0x20 || 0x2000 <= n <= 0x200A
      || n == 0x85 || n == 0xA0 || n == 0x1680 || n == 0x2028 || n == 0x2029
      || n == 0x202F || n == 0x205F || n == 0x3000
  }

  /** The number of unfoldings changes nothing: `SpaceAfter(c, k)` is the
      white-space class for every `k`, so `PySpace` is that class. */
  lemma {:induction false} SpaceAfterEveryStep(c: char, k: nat)
    ensures SpaceAfter(c, k) <==> SpaceAfter(c, 0)
    decreases k
  {
    if k > 0 {
      SpaceAfterEveryStep(c, k - 1);
    }
  }

  /** Leading white space removed. */
  function StripStart(s: string): (t: string)
    ensures t == [] || !PySpace(t[0])
    ensures |t| <= |s| && t == s[|s| - |t|..]
  {
    if s != [] && PySpace(s[0]) then StripStart(s[1..]) else s
  }

  /** What `StripStart` removes is white space. */
  lemma {:induction false} StripStartDropsSpace(s: string)
    ensures forall k :: 0 <= k < |s| - |StripStart(s)| ==> PySpace(s[k])
  {
    if s != [] && PySpace(s[0]) {
      StripStartDropsSpace(s[1..]);
      forall k | 1 <= k < |s| - |StripStart(s)|
        ensures PySpace(s[k])
      {
        assert s[k] == s[1..][k - 1];
      }
    }
  }

  /** Trailing white space removed. */
  function StripEnd(s: string): (t: string)
    ensures t == [] || !PySpace(t[|t| - 1])
    ensures |t| <= |s| && t == s[..|t|]
  {
    if s != [] && PySpace(s[|s| - 1]) then StripEnd(s[..|s| - 1]) else s
  }

  /** What `StripEnd` removes is white space. */
  lemma {:induction false} StripEndDropsSpace(s: string)
    ensures forall k :: |StripEnd(s)| <= k < |s| ==> PySpace(s[k])
  {
    if s != [] && PySpace(s[|s| - 1]) {
      var s' := s[..|s| - 1];
      StripEndDropsSpace(s');
      forall k | |StripEnd(s)| <= k < |s| - 1
        ensures PySpace(s[k])
      {
        assert s[k] == s'[k];
      }
    }
  }

  /** `str.strip()`: leading and trailing white space removed. */
  function Strip(s: string): (t: string)
    ensures t != [] ==> !PySpace(t[0]) && !PySpace(t[|t| - 1])
  {
    StripEnd(StripStart(s))
  }

  /** The stripped text is empty exactly when the text is all white
      space, and otherwise it is the text between the first and the last
      character that is not white space. */
  lemma StripBlank(s: string)
    ensures Strip(s) == [] <==> Blank(s)
  {
    var a := StripStart(s);
    StripStartBlank(s);
    if a != [] {
      StripEndDropsSpace(a);
      assert !PySpace(a[0]);
    }
  }

  /** Stripping the start leaves nothing exactly when the text is blank. */
  lemma {:induction false} StripStartBlank(s: string)
    ensures StripStart(s) == [] <==> Blank(s)
  {
    if s != [] && PySpace(s[0]) {
      StripStartBlank(s[1..]);
    }
  }

  /** A NUL character lies inside a window of the text exactly when it
      lies in the text, if everything outside the window is white space. */
  lemma NulInWindow(s: string, off: nat, n: nat)
    requires off + n <= |s|
    requires forall k :: 0 <= k < off ==> PySpace(s[k])
    requires forall k :: off + n <= k < |s| ==> PySpace(s[k])
    ensures '\0' in s <==> '\0' in s[off..off + n]
  {
    if '\0' in s {
      var k :| 0 <= k < |s| && s[k] == '\0';
      assert !PySpace(s[k]);
      assert s[off..off + n][k - off] == '\0';
    }
  }

  /** Stripping removes only white space, so the NUL check reads the
      same on the submitted and on the stripped text. */
  lemma StripKeepsNul(s: string)
    ensures '\0' in Strip(s) <==> '\0' in s
  {
    var a := StripStart(s);
    var t := StripEnd(a);
    var off := |s| - |a|;
    StripStartDropsSpace(s);
    StripEndDropsSpace(a);
    assert t == s[off..off + |t|];
    forall k | off + |t| <= k < |s|
      ensures PySpace(s[k])
    {
      assert s[k] == a[k - off];
    }
    NulInWindow(s, off, |t|);
  }

  /** Stripping twice is stripping once. */
  lemma StripIdempotent(s: string)
    ensures Strip(Strip(s)) == Strip(s)
  {
    var t := Strip(s);
    if t != [] {
      StripKeepsBareText(t);
    }
  }

  /** Text that neither starts nor ends with white space is left as it is. */
  lemma StripKeepsBareText(s: string)
    requires s != [] && !PySpace(s[0]) && !PySpace(s[|s| - 1])
    ensures Strip(s) == s
  {
  }

  /** Text made of white space only (`str.strip() == ''`). */
  predicate Blank(s: string) {
    s == [] || (PySpace(s[0]) && Blank(s[1..]))
  }

  /** `CharField()` with its defaults (`trim_whitespace`, no blank, no NUL
      character): present, not white space only, and free of '\0'. The
      value the field hands on is the stripped text (`StripBlank` and
      `StripKeepsNul` tie these checks to it). */
  predicate TextOk(f: Field<string>) { f.Given? && !Blank(f.value) && '\0' !in f.value }

  /** The fields that fail their own checks. */
  function FieldErrors(r: DownloadRequest): (names: set<string>)
    ensures names == {} <==> UrlOk(r.youtubeUrl) && TimeOk(r.startTime) && TimeOk(r.endTime) && TextOk(r.quality)
    ensures "youtube_url" in names <==> !UrlOk(r.youtubeUrl)
    ensures "start_time" in names <==> !TimeOk(r.startTime)
    ensures "end_time" in names <==> !TimeOk(r.endTime)
    ensures "quality" in names <==> !TextOk(r.quality)
    ensures NonFieldErrors !in names
  {
    (if UrlOk(r.youtubeUrl) then {} else {"youtube_url"})
    + (if TimeOk(r.startTime) then {} else {"start_time"})
    + (if TimeOk(r.endTime) then {} else {"end_time"})
    + (if TextOk(r.quality) then {} else {"quality"})
  }

  /** `DownloadRequestSerializer.is_valid()`: the field checks first; only
      when all of them pass does `validate` compare the two times. */
  function ValidateDownloadRequest(r: DownloadRequest): (v: Validation)
    ensures v.Valid? <==> FieldErrors(r) == {} && r.startTime.value < r.endTime.value
    ensures v.Valid? ==> && v.data.youtubeUrl == r.youtubeUrl.value && v.data.quality == Strip(r.quality.value)
                         && v.data.startTime == r.startTime.value && v.data.endTime == r.endTime.value
                         && 0 <= v.data.startTime < v.data.endTime
    ensures v.Invalid? && FieldErrors(r) != {} ==> v.errors.Keys == FieldErrors(r)
    ensures v.Invalid? && FieldErrors(r) == {} ==> v.errors == map[NonFieldErrors := OrderMessage]
  {
    var names := FieldErrors(r);
    if names != {} then
      Invalid(map n | n in names :: FieldError)
    else if r.startTime.value >= r.endTime.value then
      Invalid(map[NonFieldErrors := OrderMessage])
    else
      Valid(ValidRequest(r.youtubeUrl.value, r.startTime.value, r.endTime.value, Strip(r.quality.value)))
  }

  /** A request whose quality has no white space at either end and no
      NUL character is validated with that quality as it is. */
  lemma BareQualityKept(url: string, start: nat, end: nat, quality: string)
    requires start < end
    requires quality != [] && !PySpace(quality[0]) && !PySpace(quality[|quality| - 1]) && '\0' !in quality
    ensures ValidateDownloadRequest(DownloadRequest(Given(url), Given(start), Given(end), Given(quality)))
            == Valid(ValidRequest(url, start, end, quality))
  {
    StripKeepsBareText(quality);
    assert !Blank(quality);
  }

  /** A quality whose stripped text is not blank and has no NUL
      character passes, and the request is validated with that text. */
  lemma StrippedQualityKept(url: string, start: nat, end: nat, quality: string)
    requires start < end && Strip(quality) != [] && '\0' !in Strip(quality)
    ensures ValidateDownloadRequest(DownloadRequest(Given(url), Given(start), Given(end), Given(quality)))
            == Valid(ValidRequest(url, start, end, Strip(quality)))
  {
    StripBlank(quality);
    StripKeepsNul(quality);
  }

  /** A quality of white space only fails the quality field alone. */
  lemma BlankQualityRefused(url: string, start: nat, end: nat, quality: string)
    requires Blank(quality)
    ensures var v := ValidateDownloadRequest(DownloadRequest(Given(url), Given(start), Given(end), Given(quality)));
            v.Invalid? && v.errors.Keys == {"quality"}
  {
    assert FieldErrors(DownloadRequest(Given(url), Given(start), Given(end), Given(quality))) == {"quality"};
  }

  /** Stripping " 22\n" gives "22". */
  lemma StripPaddedExample()
    ensures Strip(" 22\n") == "22"
  {
    var q := " 22\n";
    assert PySpace(' ') && !PySpace('2') && PySpace('\n');
    assert q[0] == ' ' && q[1..] == "22\n";
    assert StripStart(q) == "22\n";
    var a := "22\n";
    assert a[2] == '\n' && a[..2] == "22";
    assert StripEnd(a) == StripEnd("22");
  }

  /** " 22\n" is validated as "22". */
  lemma PaddedQualityExample(url: string)
    ensures ValidateDownloadRequest(DownloadRequest(Given(url), Given(0), Given(10), Given(" 22\n")))
            == Valid(ValidRequest(url, 0, 10, "22"))
  {
    StripPaddedExample();
    assert '\0' !in "22";
    StrippedQualityKept(url, 0, 10, " 22\n");
  }

  /** " \t" fails the quality field alone. */
  lemma BlankQualityExample(url: string)
    ensures var v := ValidateDownloadRequest(DownloadRequest(Given(url), Given(0), Given(10), Given(" \t")));
            v.Invalid? && v.errors.Keys == {"quality"}
  {
    var b := " \t";
    assert PySpace(' ') && PySpace('\t');
    assert b[0] == ' ' && b[1..] == "\t";
    BlankQualityRefused(url, 0, 10, b);
  }

  /** The quality a request is validated with is never blank, holds no
      NUL character and has no white space at either end. */
  lemma ValidQualityIsBare(r: DownloadRequest)
    requires ValidateDownloadRequest(r).Valid?
    ensures var q := ValidateDownloadRequest(r).data.quality;
            && q != "" && '\0' !in q && !PySpace(q[0]) && !PySpace(q[|q| - 1])
  {
    StripBlank(r.quality.value);
    StripKeepsNul(r.quality.value);
  }

  /** `ExtractInfoRequestSerializer.is_valid()`. */
  function ValidateExtractRequest(youtubeUrl: Field<string>): (v: Result<string>)
    ensures v.Ok? <==> youtubeUrl.Given?
    ensures v.Ok? ==> v.value == youtubeUrl.value
  {
    if youtubeUrl.Given? then Ok(youtubeUrl.value) else Err(FieldError)
  }

  /** Whether a task has reached the state in which it has a downloadable
      artifact. */
  predicate Downloadable(t: DownloadTask) {
    t.status == Completed && HasOutput(t)
  }

  /** `get_download_url`: the media URL of the artifact of a completed
      task, null otherwise. */
  function GetDownloadUrl(t: DownloadTask, mediaUrl: string): (url: Option<string>)
    ensures url.Some? <==> Downloadable(t)
    ensures url.Some? ==> url.value == mediaUrl + t.outputFile.value
  {
    if Downloadable(t) then Some(mediaUrl + t.outputFile.value) else None
  }

  /** The stored file name of a media path, read back as a path in one of
      the two directories; any other name is in neither. */
  function ResolvePath(name: string): (p: Option<Path>)
    ensures p.Some? ==> PathString(p.value) == name
  {
    var d := DirName(DownloadDir) + "/";
    var t := DirName(TempDir) + "/";
    if |d| <= |name| && name[..|d|] == d then
      assert name == name[..|d|] + name[|d|..];
      Some(Path(DownloadDir, name[|d|..]))
    else if |t| <= |name| && name[..|t|] == t then
      assert name == name[..|t|] + name[|t|..];
      Some(Path(TempDir, name[|t|..]))
    else None
  }

  /** A path's stored name resolves back to it. */
  lemma ResolvePathString(p: Path)
    ensures ResolvePath(PathString(p)) == Some(p)
  {
    var s := PathString(p);
    match p.dir
    case DownloadDir =>
      assert s[..10] == "downloads/";
    case TempDir =>
      assert s[..5] == "temp/";
      assert s[0] == 't';
  }

  /** `get_file_size`: the size of the artifact of a completed task; null
      otherwise, and null when asking the storage for the size fails
      (the file is gone). */
  function GetFileSize(t: DownloadTask, files: MediaFiles): (size: Option<nat>)
    reads files
    ensures size.Some? ==> Downloadable(t)
    ensures size.Some? <==> Downloadable(t) && ResolvePath(t.outputFile.value).Some?
                            && files.Exists(ResolvePath(t.outputFile.value).value)
    ensures size.Some? ==> size.value == files.GetFileSize(ResolvePath(t.outputFile.value).value)
  {
    if !Downloadable(t) then None
    else
      var p := ResolvePath(t.outputFile.value);
      if p.None? || !files.Exists(p.value) then None
      else Some(files.GetFileSize(p.value))
  }

  /** The JSON object `DownloadTaskSerializer` produces for a record. */
  datatype TaskView = TaskView(
    taskId: TaskId,
    status: string,
    progress: int,
    downloadUrl: Option<string>,
    errorMessage: Option<string>,
    fileSize: Option<nat>)

  function SerializeTask(t: DownloadTask, mediaUrl: string, files: MediaFiles): (v: TaskView)
    reads files
    ensures v.taskId == t.taskId && v.progress == t.progress && v.errorMessage == t.errorMessage
    ensures StatusOf(v.status) == Some(t.status)
    ensures v.downloadUrl == GetDownloadUrl(t, mediaUrl) && v.fileSize == GetFileSize(t, files)
  {
    StatusNameRoundTrip(t.status);
    TaskView(t.taskId, StatusName(t.status), t.progress, GetDownloadUrl(t, mediaUrl),
             t.errorMessage, GetFileSize(t, files))
  }

  /** The artifact the runner records, "downloads/<name>", is found in
      the download directory: a completed task reports the size of that
      file when it exists and null when it does not. */
  lemma FileSizeOfRunnerOutput(t: DownloadTask, files: MediaFiles, name: string)
    requires t.status == Completed && t.outputFile == Some(PathString(Path(DownloadDir, name)))
    ensures GetFileSize(t, files).Some? <==> name in files.downloads
    ensures name in files.downloads ==> GetFileSize(t, files) == Some(files.downloads[name].size)
  {
    ResolvePathString(Path(DownloadDir, name));
  }

  /** A request that passes the serializer can be refused by the timestamp
      check only for running past the end of the video: the other two
      messages are unreachable behind the serializer. */
  lemma ValidRequestOnlyFailsOnDuration(r: DownloadRequest, duration: int)
    requires ValidateDownloadRequest(r).Valid?
    ensures var d := ValidateDownloadRequest(r).data;
            var ts := Validators.ValidateTimestamps(d.startTime, d.endTime, duration);
            ts.Rejected? ==> ts.message == "End time exceeds video duration"
  {
  }
}
