/** Request checks (downloads/validators.py): the video URL pattern, the
    timestamp bounds with their 5-second drift allowance, the quality
    lookup and the 10 GiB size limit. The URL pattern is also used, in its
    client-side spelling, by module Client. */
module Validators {
  import opened Common
  import opened VideoModels

  // ---------------------------------------------------------------------
  // The video URL pattern
  //
  //   (SCHEME)?(www\.)?(youtube|youtu|youtube-nocookie)\.(com|be)/
  //   (watch\?v=|embed/|v/|.+\?v=)?([^&=%\?]{11})
  //
  // matched at the start of the text only (no end anchor), so any text may
  // follow. The server spells SCHEME `https?://`; the browser script spells
  // it `https?//`. `.` matches any character except line terminators, and
  // which characters those are differs between the two regex engines.
  // ---------------------------------------------------------------------

  /** The two places the pattern differs between its two spellings. */
  datatype UrlDialect = UrlDialect(schemes: seq<string>, lineTerminators: set<char>)

  /** Python's `re`: the scheme ends in "://", `.` stops only at '\n'. */
  const ServerDialect := UrlDialect(["http://", "https://"], {'\n'})

  /** `lit` occurs in `s` at position `i`. */
  predicate HasAt(s: string, i: nat, lit: string) {
    i + |lit| <= |s| && forall k :: 0 <= k < |lit| ==> s[i + k] == lit[k]
  }

  /** Eleven characters at `i`, none of them '&', '=', '%' or '?'. */
  predicate VideoIdAt(url: string, i: nat) {
    i + 11 <= |url| && forall j :: i <= j < i + 11 ==> url[j] !in {'&', '=', '%', '?'}
  }

  /** `lit` at `i`, then the id. */
  predicate LiteralThenId(url: string, i: nat, lit: string) {
    HasAt(url, i, lit) && VideoIdAt(url, i + |lit|)
  }

  /** `.+\?v=` then the id: at least one character that is not a line
      terminator, then "?v=". */
  predicate AnyThenId(d: UrlDialect, url: string, i: nat) {
    exists k :: i < k <= |url| && (forall j :: i <= j < k ==> url[j] !in d.lineTerminators)
                && LiteralThenId(url, k, "?v=")
  }

  /** The optional path group followed by the id, from position `i`. */
  predicate PathAndIdFrom(d: UrlDialect, url: string, i: nat) {
    || VideoIdAt(url, i)
    || LiteralThenId(url, i, "watch?v=")
    || LiteralThenId(url, i, "embed/")
    || LiteralThenId(url, i, "v/")
    || AnyThenId(d, url, i)
  }

  /** A top-level domain, a slash, and the rest, from position `i`. */
  predicate TopLevelFrom(d: UrlDialect, url: string, i: nat, tld: string) {
    HasAt(url, i, tld) && HasAt(url, i + |tld|, "/") && PathAndIdFrom(d, url, i + |tld| + 1)
  }

  /** A host name, ".com/" or ".be/", and the rest, from position `i`. */
  predicate HostNameFrom(d: UrlDialect, url: string, i: nat, host: string) {
    var j := i + |host|;
    HasAt(url, i, host) && HasAt(url, j, ".") && (TopLevelFrom(d, url, j + 1, "com") || TopLevelFrom(d, url, j + 1, "be"))
  }

  predicate HostFrom(d: UrlDialect, url: string, i: nat) {
    HostNameFrom(d, url, i, "youtube") || HostNameFrom(d, url, i, "youtu") || HostNameFrom(d, url, i, "youtube-nocookie")
  }

  predicate WwwFrom(d: UrlDialect, url: string, i: nat) {
    HostFrom(d, url, i) || (HasAt(url, i, "www.") && HostFrom(d, url, i + 4))
  }

  /** Some prefix of `url` is in the language of the pattern. */
  predicate PatternMatches(d: UrlDialect, url: string) {
    WwwFrom(d, url, 0) || exists s :: s in d.schemes && HasAt(url, 0, s) && WwwFrom(d, url, |s|)
  }

  /** `validate_youtube_url`: `re.match` of the pattern. What acceptance
      means is proved about `PatternMatches`: `PatternIsPrefixMatch`,
      `DialectsAgree`, `AcceptsWatchUrl` and `RejectsOtherHost`. */
  function ValidateYoutubeUrl(url: string): (ok: bool)
    ensures ok <==> PatternMatches(ServerDialect, url)
  {
    PatternMatches(ServerDialect, url)
  }

  lemma HasAtExtends(url: string, rest: string, i: nat, lit: string)
    requires HasAt(url, i, lit)
    ensures HasAt(url + rest, i, lit)
  {
  }

  /** A literal does not occur where one of its characters is missing. */
  lemma NotHasAt(s: string, i: nat, lit: string, k: nat)
    requires i + k < |s| && k < |lit| && s[i + k] != lit[k]
    ensures !HasAt(s, i, lit)
  {
  }

  lemma PathAndIdExtends(d: UrlDialect, url: string, rest: string, i: nat)
    requires PathAndIdFrom(d, url, i)
    ensures PathAndIdFrom(d, url + rest, i)
  {
    var u := url + rest;
    assert forall j :: 0 <= j < |url| ==> u[j] == url[j];
    if AnyThenId(d, url, i) {
      var k :| i < k <= |url| && (forall j :: i <= j < k ==> url[j] !in d.lineTerminators)
               && LiteralThenId(url, k, "?v=");
      assert LiteralThenId(u, k, "?v=");
    }
  }

  lemma TopLevelExtends(d: UrlDialect, url: string, rest: string, i: nat, tld: string)
    requires TopLevelFrom(d, url, i, tld)
    ensures TopLevelFrom(d, url + rest, i, tld)
  {
    PathAndIdExtends(d, url, rest, i + |tld| + 1);
  }

  lemma TldExtends(d: UrlDialect, url: string, rest: string, k: nat)
    requires TopLevelFrom(d, url, k, "com") || TopLevelFrom(d, url, k, "be")
    ensures TopLevelFrom(d, url + rest, k, "com") || TopLevelFrom(d, url + rest, k, "be")
  {
    if TopLevelFrom(d, url, k, "com") {
      TopLevelExtends(d, url, rest, k, "com");
    } else {
      TopLevelExtends(d, url, rest, k, "be");
    }
  }

  lemma HostNameExtends(d: UrlDialect, url: string, rest: string, i: nat, host: string)
    requires HostNameFrom(d, url, i, host)
    ensures HostNameFrom(d, url + rest, i, host)
  {
    var j := i + |host|;
    HasAtExtends(url, rest, i, host);
    HasAtExtends(url, rest, j, ".");
    TldExtends(d, url, rest, j + 1);
  }

  lemma HostExtends(d: UrlDialect, url: string, rest: string, i: nat)
    requires HostFrom(d, url, i)
    ensures HostFrom(d, url + rest, i)
  {
    if HostNameFrom(d, url, i, "youtube") {
      HostNameExtends(d, url, rest, i, "youtube");
    } else if HostNameFrom(d, url, i, "youtu") {
      HostNameExtends(d, url, rest, i, "youtu");
    } else {
      HostNameExtends(d, url, rest, i, "youtube-nocookie");
    }
  }

  lemma WwwExtends(d: UrlDialect, url: string, rest: string, i: nat)
    requires WwwFrom(d, url, i)
    ensures WwwFrom(d, url + rest, i)
  {
    if HostFrom(d, url, i) {
      HostExtends(d, url, rest, i);
    } else {
      HostExtends(d, url, rest, i + 4);
    }
  }

  /** The pattern has no end anchor: whatever follows a match is accepted. */
  lemma PatternIsPrefixMatch(d: UrlDialect, url: string, rest: string)
    requires PatternMatches(d, url)
    ensures PatternMatches(d, url + rest)
  {
    if WwwFrom(d, url, 0) {
      WwwExtends(d, url, rest, 0);
    } else {
      var s :| s in d.schemes && HasAt(url, 0, s) && WwwFrom(d, url, |s|);
      HasAtExtends(url, rest, 0, s);
      WwwExtends(d, url, rest, |s|);
    }
  }

  /** "www.youtube.com/watch?v=", written as the pieces of the pattern it
      is made of. */
  const WwwWatchPrefix := "www." + "youtube" + "." + "com" + "/" + "watch?v="

  /** The usual form of a video link: "https://www.youtube.com/watch?v=dQw4w9WgXcQ". */
  const WatchUrl := "https://" + WwwWatchPrefix + "dQw4w9WgXcQ"

  /** Whatever precedes it, "www.youtube.com/watch?v=" followed by an id
      is a match of the host part onward. */
  lemma WatchFormFrom(d: UrlDialect, x: string, id: string)
    requires VideoIdAt(id, 0)
    ensures WwwFrom(d, x + WwwWatchPrefix + id, |x|)
  {
    var u := x + WwwWatchPrefix + id;
    assert forall j :: |x| + 24 <= j < |u| ==> u[j] == id[j - |x| - 24];
    assert LiteralThenId(u, |x| + 16, "watch?v=");
    assert TopLevelFrom(d, u, |x| + 12, "com");
    assert HostNameFrom(d, u, |x| + 4, "youtube");
    assert HasAt(u, |x|, "www.");
  }

  lemma ExampleIdIsId()
    ensures VideoIdAt("dQw4w9WgXcQ", 0)
  {
  }

  /** Two spellings of the pattern that differ at most in line
      terminators that do not occur in `url`. */
  predicate SameOn(d1: UrlDialect, d2: UrlDialect, url: string) {
    d1.schemes == d2.schemes && forall j :: 0 <= j < |url| ==> (url[j] in d1.lineTerminators <==> url[j] in d2.lineTerminators)
  }

  lemma AnyThenIdAgrees(d1: UrlDialect, d2: UrlDialect, url: string, i: nat)
    requires SameOn(d1, d2, url)
    ensures AnyThenId(d1, url, i) <==> AnyThenId(d2, url, i)
  {
    if AnyThenId(d1, url, i) {
      var k :| i < k <= |url| && (forall j :: i <= j < k ==> url[j] !in d1.lineTerminators) && LiteralThenId(url, k, "?v=");
      assert forall j :: i <= j < k ==> url[j] !in d2.lineTerminators;
    }
    if AnyThenId(d2, url, i) {
      var k :| i < k <= |url| && (forall j :: i <= j < k ==> url[j] !in d2.lineTerminators) && LiteralThenId(url, k, "?v=");
      assert forall j :: i <= j < k ==> url[j] !in d1.lineTerminators;
    }
  }

  lemma HostNameAgrees(d1: UrlDialect, d2: UrlDialect, url: string, i: nat, host: string)
    requires SameOn(d1, d2, url)
    ensures HostNameFrom(d1, url, i, host) <==> HostNameFrom(d2, url, i, host)
  {
    var j := i + |host|;
    AnyThenIdAgrees(d1, d2, url, j + 1 + 3 + 1);
    AnyThenIdAgrees(d1, d2, url, j + 1 + 2 + 1);
  }

  lemma HostAgreesAt(d1: UrlDialect, d2: UrlDialect, url: string, i: nat)
    requires SameOn(d1, d2, url)
    ensures HostFrom(d1, url, i) <==> HostFrom(d2, url, i)
  {
    HostNameAgrees(d1, d2, url, i, "youtube");
    HostNameAgrees(d1, d2, url, i, "youtu");
    HostNameAgrees(d1, d2, url, i, "youtube-nocookie");
  }

  lemma HostAgrees(d1: UrlDialect, d2: UrlDialect, url: string, i: nat)
    requires SameOn(d1, d2, url)
    ensures WwwFrom(d1, url, i) <==> WwwFrom(d2, url, i)
  {
    HostAgreesAt(d1, d2, url, i);
    HostAgreesAt(d1, d2, url, i + 4);
  }

  /** Line terminators matter only where they occur: two spellings that
      agree on the characters of `url` accept it alike. */
  lemma DialectsAgree(d1: UrlDialect, d2: UrlDialect, url: string)
    requires SameOn(d1, d2, url)
    ensures PatternMatches(d1, url) <==> PatternMatches(d2, url)
  {
    HostAgrees(d1, d2, url, 0);
    forall s | s in d1.schemes ensures WwwFrom(d1, url, |s|) <==> WwwFrom(d2, url, |s|) {
      HostAgrees(d1, d2, url, |s|);
    }
  }

  /** A dialect whose schemes include "https://" matches the example
      watch URL, whatever its line terminators. */
  lemma WatchUrlMatches(d: UrlDialect)
    requires "https://" in d.schemes
    ensures PatternMatches(d, WatchUrl)
  {
    ExampleIdIsId();
    WatchFormFrom(d, "https://", "dQw4w9WgXcQ");
    assert HasAt(WatchUrl, 0, "https://");
  }

  lemma AcceptsWatchUrl()
    ensures ValidateYoutubeUrl(WatchUrl)
  {
    WatchUrlMatches(ServerDialect);
  }

  /** A text that starts with no scheme of the dialect and has no host
      (with or without "www.") at its start is refused. */
  lemma NoMatchWithout(d: UrlDialect, url: string)
    requires !WwwFrom(d, url, 0)
    requires forall s :: s in d.schemes ==> !HasAt(url, 0, s)
    ensures !PatternMatches(d, url)
  {
  }

  /** No host alternative starts at a character other than 'y'. */
  lemma NoHostAt(d: UrlDialect, url: string, i: nat)
    requires i < |url| && url[i] != 'y'
    ensures !HostFrom(d, url, i)
  {
    NotHasAt(url, i, "youtube", 0);
    NotHasAt(url, i, "youtu", 0);
    NotHasAt(url, i, "youtube-nocookie", 0);
  }

  /** A link to another site: "https://example.com/video". */
  const OtherHostUrl := "https://" + "example.com/video"

  lemma RejectsOtherHost()
    ensures !ValidateYoutubeUrl(OtherHostUrl)
  {
    var url := OtherHostUrl;
    assert url[4] == 's' && url[8] == 'e';
    NotHasAt(url, 0, "http://", 4);
    NotHasAt(url, 0, "www.", 0);
    NotHasAt(url, 8, "www.", 0);
    NoHostAt(ServerDialect, url, 0);
    NoHostAt(ServerDialect, url, 8);
  }

  // ---------------------------------------------------------------------
  // Timestamps
  // ---------------------------------------------------------------------

  /** `(True, start, end)` or `(False, message, None)`. */
  datatype Timestamps = Accepted(start: int, end: int) | Rejected(message: string)

  /** The slack allowed past the stated duration, in seconds. */
  const DriftSeconds := 5

  /** `validate_timestamps`: the first failing check decides the message;
      an end at most 5 seconds past the duration is pulled back to it. */
  function ValidateTimestamps(start: int, end: int, duration: int): (r: Timestamps)
    ensures r.Rejected? <==> start < 0 || end <= start || end > duration + DriftSeconds
    ensures start < 0 ==> r == Rejected("Start time cannot be negative")
    ensures 0 <= start && end <= start ==> r == Rejected("End time must be greater than start time")
    ensures 0 <= start < end && end > duration + DriftSeconds ==> r == Rejected("End time exceeds video duration")
    ensures r.Accepted? ==> r.start == start && 0 <= r.start && r.end <= duration
    ensures r.Accepted? && end <= duration ==> r.end == end
    ensures r.Accepted? && end > duration ==> r.end == duration
  {
    if start < 0 then Rejected("Start time cannot be negative")
    else if end <= start then Rejected("End time must be greater than start time")
    else if end > duration then
      if end > duration + DriftSeconds then Rejected("End time exceeds video duration")
      else Accepted(start, duration)
    else Accepted(start, end)
  }

  /** An accepted interval is non-empty unless the drift clamp fired on a
      start at or past the duration; then it is empty or inverted. */
  lemma AcceptedIntervalOrder(start: int, end: int, duration: int)
    requires ValidateTimestamps(start, end, duration).Accepted?
    ensures var r := ValidateTimestamps(start, end, duration);
            r.start < r.end <==> (end <= duration || start < duration)
  {
  }

  /** The drift clamp can turn a valid request into an empty interval. */
  lemma ClampMakesEmptyInterval()
    ensures ValidateTimestamps(1000, 1003, 1000) == Accepted(1000, 1000)
  {
  }

  /** The timestamp check with the order test applied to the clamped
      bounds as well, so that the drift clamp can no longer accept an
      empty interval. */
  function ValidateTimestampsOrdered(start: int, end: int, duration: int): (r: Timestamps)
    ensures r.Accepted? ==> 0 <= r.start < r.end <= duration
    ensures r.Accepted? <==> ValidateTimestamps(start, end, duration).Accepted?
                             && ValidateTimestamps(start, end, duration).start < ValidateTimestamps(start, end, duration).end
    ensures r.Accepted? ==> r == ValidateTimestamps(start, end, duration)
  {
    match ValidateTimestamps(start, end, duration)
    case Rejected(message) => Rejected(message)
    case Accepted(s, e) =>
      if e <= s then Rejected("End time must be greater than start time") else Accepted(s, e)
  }

  /** The corrected check refuses the clamped-to-empty request with the
      order message, and accepts every request the original accepts with
      a non-empty interval, unchanged. */
  lemma OrderedRefusesClampedEmpty()
    ensures ValidateTimestampsOrdered(1000, 1003, 1000) == Rejected("End time must be greater than start time")
    ensures ValidateTimestampsOrdered(10, 1003, 1000) == Accepted(10, 1000)
  {
  }

  /** No cap on the segment length: a one-hour-and-one-second segment of a
      longer video is accepted as it is. */
  lemma NoSegmentLengthCap()
    ensures ValidateTimestamps(0, 3601, 5000) == Accepted(0, 3601)
  {
  }

  // ---------------------------------------------------------------------
  // Quality and size
  // ---------------------------------------------------------------------

  function QualityLabels(formats: seq<Format>): (r: seq<string>)
    ensures |r| == |formats| && forall i :: 0 <= i < |r| ==> r[i] == formats[i].quality
  {
    seq(|formats|, i requires 0 <= i < |formats| => formats[i].quality)
  }

  function FormatIds(formats: seq<Format>): (r: seq<Option<string>>)
    ensures |r| == |formats| && forall i :: 0 <= i < |r| ==> r[i] == formats[i].formatId
  {
    seq(|formats|, i requires 0 <= i < |formats| => formats[i].formatId)
  }

  /** `validate_quality`: the selector names a listed format, by quality
      label or by format id. */
  function ValidateQuality(selector: string, formats: seq<Format>): (ok: bool)
    ensures ok <==> exists i :: 0 <= i < |formats| && Answers(formats[i], selector)
  {
    if selector !in QualityLabels(formats) then
      Some(selector) in FormatIds(formats)
    else
      true
  }

  /** 10 GiB. */
  const MaxFileSize := 1024 * 1024 * 1024 * 10

  /** `validate_file_size`: only sizes strictly above 10 GiB are refused. */
  function ValidateFileSize(estimatedSize: int): (r: Outcome)
    ensures r.Pass? <==> estimatedSize <= 10_737_418_240
    ensures r.Fail? ==> r.error == "File size exceeds 10GB limit"
  {
    if estimatedSize > MaxFileSize then Fail("File size exceeds 10GB limit") else Pass
  }
}
