/** Metadata extraction (videos/services.py): the extractor's format list
    is filtered to MP4 formats with a height and converted to stored
    format records, and the video row is upserted. The extractor itself
    is outside the model; its result is an input. */
module VideoServices {
  import opened Common
  import opened VideoModels
  import opened Store
  import Validators

  /** One format as the extractor reports it; absent keys are None. */
  datatype RawFormat = RawFormat(
    ext: Option<string>,
    formatId: Option<string>,
    height: Option<int>,
    filesize: Option<int>,
    vcodec: Option<string>,
    acodec: Option<string>)

  /** The extractor's answer for one URL. */
  datatype RawInfo = RawInfo(
    youtubeId: string,
    title: string,
    duration: int,
    thumbnail: Option<string>,
    uploader: Option<string>,
    formats: seq<RawFormat>)

  /** A format is kept when its container is mp4 and its height is present and non-zero. */
  predicate Keep(f: RawFormat) {
    f.ext == Some("mp4") && f.height.Some? && f.height.value != 0
  }

  /** The stored record of a kept format: quality "{height}p"; a codec
      counts as present unless it is literally "none". */
  function Convert(f: RawFormat): (r: Format)
    requires Keep(f)
    ensures r.formatId == f.formatId && r.ext == "mp4" && r.filesize == f.filesize
    ensures r.quality == IntToString(f.height.value) + "p"
    ensures r.hasVideo <==> f.vcodec != Some("none")
    ensures r.hasAudio <==> f.acodec != Some("none")
  {
    Format(f.formatId, IntToString(f.height.value) + "p", f.ext.value, f.filesize,
           f.vcodec != Some("none"), f.acodec != Some("none"))
  }

  /** The filtered list: the kept formats, converted, in input order. */
  function KeptFormats(raws: seq<RawFormat>): (r: seq<Format>)
    ensures |r| <= |raws|
  {
    if raws == [] then []
    else KeptFormats(raws[..|raws| - 1])
         + (if Keep(raws[|raws| - 1]) then [Convert(raws[|raws| - 1])] else [])
  }

  /** The format loop of `get_video_info`. */
  method FilterFormats(raws: seq<RawFormat>) returns (filtered: seq<Format>)
    ensures filtered == KeptFormats(raws)
  {
    filtered := [];
    var i := 0;
    while i < |raws|
      invariant 0 <= i <= |raws|
      invariant filtered == KeptFormats(raws[..i])
    {
      assert raws[..i + 1][..i] == raws[..i];
      var fmt := raws[i];
      if fmt.ext != Some("mp4") {
        i := i + 1;
        continue;
      }
      var height := fmt.height;
      if height.None? || height.value == 0 {
        i := i + 1;
        continue;
      }
      var quality := IntToString(height.value) + "p";
      filtered := filtered + [Format(fmt.formatId, quality, fmt.ext.value, fmt.filesize,
                                     fmt.vcodec != Some("none"), fmt.acodec != Some("none"))];
      i := i + 1;
    }
    assert raws[..|raws|] == raws;
  }

  /** Filtering distributes over concatenation: order is kept, and a
      format listed twice is kept twice. */
  lemma {:induction false} KeptFormatsAppend(a: seq<RawFormat>, b: seq<RawFormat>)
    ensures KeptFormats(a + b) == KeptFormats(a) + KeptFormats(b)
    decreases |b|
  {
    if b == [] {
      assert a + b == a;
    } else {
      var b' := b[..|b| - 1];
      assert (a + b)[..|a + b| - 1] == a + b';
      assert (a + b)[|a + b| - 1] == b[|b| - 1];
      KeptFormatsAppend(a, b');
    }
  }

  /** The input position a stored format was converted from. */
  function SourceOf(raws: seq<RawFormat>, k: nat): (i: nat)
    requires k < |KeptFormats(raws)|
    ensures i < |raws| && Keep(raws[i]) && KeptFormats(raws)[k] == Convert(raws[i])
  {
    var init := raws[..|raws| - 1];
    if k < |KeptFormats(init)| then
      var i := SourceOf(init, k);
      assert raws[i] == init[i];
      i
    else
      |raws| - 1
  }

  /** Every kept input format is stored. */
  lemma {:induction false} KeptIsStored(raws: seq<RawFormat>, i: nat)
    requires i < |raws| && Keep(raws[i])
    ensures Convert(raws[i]) in KeptFormats(raws)
  {
    var init := raws[..|raws| - 1];
    if i < |init| {
      assert init[i] == raws[i];
      KeptIsStored(init, i);
    }
  }

  /** A stored label "{h}p" passes the quality check when some input
      format is kept with height h; when no format id is spelled like the
      label, that is the only way it passes. */
  lemma LabelOfKeptHeight(raws: seq<RawFormat>, h: int)
    ensures (exists i :: 0 <= i < |raws| && Keep(raws[i]) && raws[i].height == Some(h)) ==>
              Validators.ValidateQuality(IntToString(h) + "p", KeptFormats(raws))
    ensures Validators.ValidateQuality(IntToString(h) + "p", KeptFormats(raws))
            && (forall i :: 0 <= i < |raws| ==> raws[i].formatId != Some(IntToString(h) + "p")) ==>
              exists i :: 0 <= i < |raws| && Keep(raws[i]) && raws[i].height == Some(h)
  {
    var wanted := IntToString(h) + "p";
    var kept := KeptFormats(raws);
    if Validators.ValidateQuality(wanted, kept) && (forall i :: 0 <= i < |raws| ==> raws[i].formatId != Some(wanted)) {
      var k :| 0 <= k < |kept| && Answers(kept[k], wanted);
      var i := SourceOf(raws, k);
      assert kept[k].quality == wanted;
      DropCommonSuffix(IntToString(raws[i].height.value), IntToString(h), "p");
      IntToStringInjective(raws[i].height.value, h);
    }
    if exists i :: 0 <= i < |raws| && Keep(raws[i]) && raws[i].height == Some(h) {
      var i :| 0 <= i < |raws| && Keep(raws[i]) && raws[i].height == Some(h);
      KeptIsStored(raws, i);
      var k :| 0 <= k < |kept| && kept[k] == Convert(raws[i]);
      assert Answers(kept[k], wanted);
    }
  }

  const ExtractFailedPrefix := "Failed to extract video info: "

  /** The row `get_video_info` stores for an extraction, which is also the
      data it returns: the extracted fields with the filtered formats. */
  function StoredInfo(raw: RawInfo): (v: VideoInfo)
    ensures v.youtubeId == raw.youtubeId && v.duration == raw.duration
    ensures v.title == raw.title && v.thumbnailUrl == raw.thumbnail && v.uploader == raw.uploader
    ensures v.availableQualities == KeptFormats(raw.formats)
  {
    VideoInfo(raw.youtubeId, raw.title, raw.duration, raw.thumbnail, raw.uploader, KeptFormats(raw.formats))
  }

  /** `get_video_info`: on success the row for the id is replaced by the
      extracted metadata with the filtered formats, and the same data is
      returned; any extractor error is re-raised with a prefix and the
      store is left alone. */
  method GetVideoInfo(db: Database, extracted: Result<RawInfo>) returns (r: Result<VideoInfo>)
    requires db.Valid()
    modifies db
    ensures db.Valid()
    ensures extracted.Err? ==> r == Err(ExtractFailedPrefix + extracted.error) && db.videos == old(db.videos)
    ensures extracted.Ok? ==>
              && r == Ok(StoredInfo(extracted.value))
              && db.videos == old(db.videos)[extracted.value.youtubeId := r.value]
    ensures db.tasks == old(db.tasks) && db.nextId == old(db.nextId) && db.queue == old(db.queue) && db.saves == old(db.saves)
  {
    if extracted.Err? {
      return Err(ExtractFailedPrefix + extracted.error);
    }
    var info := extracted.value;
    var filtered := FilterFormats(info.formats);
    var video := VideoInfo(info.youtubeId, info.title, info.duration, info.thumbnail, info.uploader, filtered);
    db.Upsert(video);
    r := Ok(video);
  }

  lemma KeptSingle(raw: RawFormat, f: Format)
    requires Keep(raw) && Convert(raw) == f
    ensures KeptFormats([raw]) == [f]
  {
    assert [raw][..0] == [];
  }

  lemma DroppedSingle(raw: RawFormat)
    requires !Keep(raw)
    ensures KeptFormats([raw]) == []
  {
    assert [raw][..0] == [];
  }

  /** Two 720-pixel MP4 formats are both kept, the WebM one is dropped,
      and a format with height 0 is dropped. */
  lemma FilterExample()
    ensures var raws := [RawFormat(Some("mp4"), Some("22"), Some(720), None, Some("avc1"), None),
                         RawFormat(Some("webm"), Some("247"), Some(720), None, None, Some("none")),
                         RawFormat(Some("mp4"), Some("18"), Some(0), None, None, None),
                         RawFormat(Some("mp4"), Some("136"), Some(720), Some(5000), None, Some("none"))];
            KeptFormats(raws) == [Format(Some("22"), "720p", "mp4", None, true, true),
                                  Format(Some("136"), "720p", "mp4", Some(5000), true, false)]
  {
    var a := RawFormat(Some("mp4"), Some("22"), Some(720), None, Some("avc1"), None);
    var b := RawFormat(Some("webm"), Some("247"), Some(720), None, None, Some("none"));
    var c := RawFormat(Some("mp4"), Some("18"), Some(0), None, None, None);
    var d := RawFormat(Some("mp4"), Some("136"), Some(720), Some(5000), None, Some("none"));
    assert IntToString(720) + "p" == "720p" by { assert IntToString(720) == "720"; }
    KeptSingle(a, Format(Some("22"), "720p", "mp4", None, true, true));
    KeptSingle(d, Format(Some("136"), "720p", "mp4", Some(5000), true, false));
    DroppedSingle(b);
    DroppedSingle(c);
    KeptFormatsAppend([a], [b]);
    KeptFormatsAppend([a, b], [c]);
    KeptFormatsAppend([a, b, c], [d]);
    assert [a] + [b] == [a, b] && [a, b] + [c] == [a, b, c] && [a, b, c] + [d] == [a, b, c, d];
  }
}
