/** Progress bookkeeping and the size estimate (downloads/progress.py). */
module Progress {
  import opened Common
  import opened VideoModels
  import opened TaskModels
  import opened Store
  import Validators

  /** `min(max(percent, 0), 100)`. */
  function Clamp(percent: int): (r: int)
    ensures 0 <= r <= 100
    ensures 0 <= percent <= 100 ==> r == percent
    ensures percent < 0 ==> r == 0
    ensures percent > 100 ==> r == 100
  {
    if percent < 0 then 0 else if percent > 100 then 100 else percent
  }

  /** `ProgressTracker.get_progress`: the stored progress, 0 for an unknown task. */
  function GetProgress(db: Database, id: TaskId): (p: int)
    reads db
    ensures id !in db.tasks ==> p == 0
    ensures id in db.tasks ==> p == db.tasks[id].progress
  {
    if id in db.tasks then db.tasks[id].progress else 0
  }

  /** `ProgressTracker.update_progress`: stores the clamped value; an
      unknown task is ignored. */
  method UpdateProgress(db: Database, id: TaskId, percent: int)
    requires db.Valid()
    modifies db
    ensures db.Valid()
    ensures id in old(db.tasks) ==> db.tasks == old(db.tasks)[id := old(db.tasks)[id].(progress := Clamp(percent))]
    ensures id !in old(db.tasks) ==> db.tasks == old(db.tasks) && db.saves == old(db.saves)
    ensures GetProgress(db, id) == if id in db.tasks then Clamp(percent) else 0
    ensures id in old(db.tasks) ==> db.saves == old(db.saves) + [db.tasks[id]]
    ensures db.videos == old(db.videos) && db.queue == old(db.queue) && db.nextId == old(db.nextId)
  {
    if id in db.tasks {
      var t := db.tasks[id];
      db.Save(t.(progress := Clamp(percent)));
    }
  }

  // ---------------------------------------------------------------------
  // Size estimate
  // ---------------------------------------------------------------------

  /** The index of the first format answering to `selector`, if any. */
  function FirstAnswering(formats: seq<Format>, selector: string): (r: Option<nat>)
    ensures r.Some? ==> r.value < |formats| && Answers(formats[r.value], selector)
    ensures r.Some? ==> forall j :: 0 <= j < r.value ==> !Answers(formats[j], selector)
    ensures r.None? <==> forall j :: 0 <= j < |formats| ==> !Answers(formats[j], selector)
  {
    if formats == [] then None
    else if Answers(formats[0], selector) then Some(0)
    else match FirstAnswering(formats[1..], selector)
      case None => None
      case Some(k) => Some(k + 1)
  }

  /** Python's `int()` of a quotient: division truncating toward zero. */
  function TruncDiv(a: int, b: int): (q: int)
    requires b != 0
    ensures a >= 0 && b > 0 ==> q == a / b
  {
    var m := (if a < 0 then -a else a) / (if b < 0 then -b else b);
    if (a < 0) == (b < 0) then m else -m
  }

  /** `int(full_size / full_duration * (end - start))` in exact
      arithmetic, and 0 when the size or the duration is missing or zero. */
  function LinearEstimate(fullSize: Option<int>, fullDuration: int, start: int, end: int): int
  {
    if fullSize.None? || fullSize.value == 0 || fullDuration == 0 then 0
    else TruncDiv(fullSize.value * (end - start), fullDuration)
  }

  /** The estimate for a segment of a stored video: the first format
      answering to the selector, scaled linearly; 0 when none answers. */
  function Estimate(video: VideoInfo, start: int, end: int, selector: string): (size: int)
    ensures !Validators.ValidateQuality(selector, video.availableQualities) ==> size == 0
    ensures forall i :: 0 <= i < |video.availableQualities| && Answers(video.availableQualities[i], selector)
                        && (forall j :: 0 <= j < i ==> !Answers(video.availableQualities[j], selector))
                        ==> size == LinearEstimate(video.availableQualities[i].filesize, video.duration, start, end)
  {
    var k := FirstAnswering(video.availableQualities, selector);
    if k.None? then 0 else LinearEstimate(video.availableQualities[k.value].filesize, video.duration, start, end)
  }

  /** `ProgressTracker.estimate_size`: scan the stored formats for the
      first that answers to the selector, then scale its size linearly. */
  method EstimateSize(video: VideoInfo, start: int, end: int, selector: string) returns (size: int)
    ensures size == Estimate(video, start, end, selector)
  {
    var formats := video.availableQualities;
    var target: Option<Format> := None;
    var i := 0;
    while i < |formats|
      invariant 0 <= i <= |formats|
      invariant forall j :: 0 <= j < i ==> !Answers(formats[j], selector)
      invariant target.None?
    {
      if formats[i].quality == selector || formats[i].formatId == Some(selector) {
        target := Some(formats[i]);
        i := i + 1;
        break;
      }
      i := i + 1;
    }
    if target.None? {
      return 0;
    }
    var fullSize := target.value.filesize;
    var fullDuration := video.duration;
    if fullSize.None? || fullSize.value == 0 || fullDuration == 0 {
      return 0;
    }
    var duration := end - start;
    size := TruncDiv(fullSize.value * duration, fullDuration);
  }

  /** The estimate finds a format exactly when the quality check accepts the selector. */
  lemma FoundIffQualityValid(formats: seq<Format>, selector: string)
    ensures FirstAnswering(formats, selector).Some? <==> Validators.ValidateQuality(selector, formats)
  {
  }

  /** Estimating the whole video gives back the format's full size. */
  lemma WholeVideoEstimate(fullSize: int, duration: int)
    requires fullSize > 0 && duration > 0
    ensures LinearEstimate(Some(fullSize), duration, 0, duration) == fullSize
  {
    LemmaMulDivCancel(fullSize, duration);
  }

  /** For a known positive size and duration, a longer segment never gets
      a smaller estimate. */
  lemma EstimateMonotone(fullSize: int, duration: int, start1: int, end1: int, start2: int, end2: int)
    requires fullSize > 0 && duration > 0
    requires 0 <= end1 - start1 <= end2 - start2
    ensures 0 <= LinearEstimate(Some(fullSize), duration, start1, end1)
              <= LinearEstimate(Some(fullSize), duration, start2, end2)
  {
    LemmaMulNonneg(fullSize, end1 - start1);
    LemmaMulMonotone(fullSize, end1 - start1, end2 - start2);
    LemmaDivMonotone(0, fullSize * (end1 - start1), duration);
    LemmaDivMonotone(fullSize * (end1 - start1), fullSize * (end2 - start2), duration);
  }

  /** 100,000,000 bytes over 300 s: a 30-second segment is estimated at
      10,000,000 bytes. */
  lemma EstimateExample()
    ensures LinearEstimate(Some(100_000_000), 300, 10, 40) == 10_000_000
  {
  }

  /** The fraction is truncated, not rounded: 10 bytes over 3 s, a 2-second
      segment, is 6 (6.67 truncated). */
  lemma EstimateTruncates()
    ensures LinearEstimate(Some(10), 3, 0, 2) == 6
  {
  }
}
