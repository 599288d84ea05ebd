/** The browser script (static/js/main.js): the clock rendering, the
    hour/minute/second pickers and the clip preview that keeps the chosen
    interval inside the video, the URL pattern that decides whether a
    paste submits itself, and the check the download button makes before
    posting. The DOM, timers, polling and requests are outside the model;
    the picker's state is a class whose fields are the input values. */
module Client {
  import opened Common
  import Validators
  import Serializers

  // ---------------------------------------------------------------------
  // Clock text
  // ---------------------------------------------------------------------

  /** JavaScript's `%`: the remainder takes the sign of the dividend. */
  function JsRem(a: int, b: int): (r: int)
    requires b > 0
    ensures a >= 0 ==> r == a % b
    ensures a < 0 ==> -b < r <= 0
  {
    if a >= 0 then a % b else -((-a) % b)
  }

  /** `padStart(2, '0')`. */
  function Pad2(s: string): (r: string)
    ensures |s| >= 2 ==> r == s
    ensures |s| < 2 ==> |r| == 2 && r[2 - |s|..] == s && forall k :: 0 <= k < 2 - |s| ==> r[k] == '0'
  {
    if |s| >= 2 then s else if |s| == 1 then "0" + s else "00"
  }

  /** `formatTime`: "h:mm:ss" when there is at least one whole hour,
      otherwise "m:ss". Division is `Math.floor`, remainders are
      JavaScript's. */
  function FormatTime(seconds: int): string {
    var h := seconds / 3600;
    var m := JsRem(seconds, 3600) / 60;
    var s := JsRem(seconds, 60);
    if h > 0 then IntToString(h) + ":" + Pad2(IntToString(m)) + ":" + Pad2(IntToString(s))
    else IntToString(m) + ":" + Pad2(IntToString(s))
  }

  /** The position of the first `c` in `s`. */
  function IndexOf(s: string, c: char): (r: Option<nat>)
    ensures r.None? <==> c !in s
    ensures r.Some? ==> r.value < |s| && s[r.value] == c && c !in s[..r.value]
  {
    if s == [] then None
    else if s[0] == c then Some(0)
    else match IndexOf(s[1..], c)
      case None => None
      case Some(i) =>
        assert s[..i + 1] == [s[0]] + s[1..][..i];
        Some(i + 1)
  }

  /** A clock field of exactly two digits. */
  predicate TwoDigits(s: string) {
    |s| == 2 && AllDigits(s)
  }

  /** The number of seconds an "h:mm:ss" reading stands for. */
  function ClockSeconds(h: nat, m: nat, s: nat): nat {
    h * 3600 + m * 60 + s
  }

  /** Reads "h:mm:ss" or "m:ss" back as a number of seconds. */
  function ParseClock(text: string): (r: Option<nat>)
  {
    match IndexOf(text, ':')
    case None => None
    case Some(i) => ParseFields(text[..i], text[i + 1..])
  }

  /** The fields after the first colon: "ss", or "mm:ss" when the leading
      field counts hours. */
  function ParseFields(first: string, rest: string): (r: Option<nat>)
  {
    if first == [] || !AllDigits(first) then None
    else match IndexOf(rest, ':')
      case None =>
        if TwoDigits(rest) then Some(ClockSeconds(0, ParseNat(first), ParseNat(rest))) else None
      case Some(j) =>
        var mid := rest[..j];
        var last := rest[j + 1..];
        if TwoDigits(mid) && TwoDigits(last) then Some(ClockSeconds(ParseNat(first), ParseNat(mid), ParseNat(last)))
        else None
  }

  lemma IndexOfAfter(a: string, b: string, c: char)
    requires c !in a
    ensures IndexOf(a + [c] + b, c) == Some(|a|)
    ensures (a + [c] + b)[..|a|] == a && (a + [c] + b)[|a| + 1..] == b
  {
    var s := a + [c] + b;
    var r := IndexOf(s, c);
    assert s[|a|] == c;
    assert r.value <= |a|;
    assert s[..r.value] == a[..r.value];
  }

  /** A minute or second value renders as two digits that read back as it. */
  lemma {:induction false} Pad2Parses(k: nat)
    requires k < 100
    ensures TwoDigits(Pad2(NatToString(k))) && ParseNat(Pad2(NatToString(k))) == k
  {
    var s := NatToString(k);
    ParseNatToString(k);
    if k < 10 {
      var p := Pad2(s);
      assert p == "0" + s;
      assert p[..1] == "0" && p[..1][..0] == [];
      assert ParseNat(p[..1]) == 0;
      assert p[1] == s[0] && s[..0] == [];
    } else {
      assert |NatToString(k / 10)| == 1;
    }
  }

  /** For a non-negative time, the JavaScript arithmetic is the plain one. */
  lemma FormatTimeNonNegative(n: nat)
    ensures var h, m, sec := n / 3600, (n % 3600) / 60, n % 60;
            FormatTime(n) == if h > 0 then NatToString(h) + ":" + Pad2(NatToString(m)) + ":" + Pad2(NatToString(sec))
                             else NatToString(m) + ":" + Pad2(NatToString(sec))
  {
  }

  /** Text with a first colon reads as its fields around that colon. */
  lemma ParseClockSplit(a: string, rest: string)
    requires ':' !in a
    ensures ParseClock(a + [':'] + rest) == ParseFields(a, rest)
  {
    IndexOfAfter(a, rest, ':');
  }

  lemma ParseClockTwo(a: string, b: string, m: nat, sec: nat)
    requires a != [] && AllDigits(a) && TwoDigits(b)
    requires ParseNat(a) == m && ParseNat(b) == sec
    ensures ParseClock(a + ":" + b) == Some(ClockSeconds(0, m, sec))
  {
    assert ':' !in a && ':' !in b;
    assert a + ":" + b == a + [':'] + b;
    ParseClockSplit(a, b);
    assert IndexOf(b, ':') == None;
  }

  lemma ParseClockThree(a: string, b: string, c: string, h: nat, m: nat, sec: nat)
    requires a != [] && AllDigits(a) && TwoDigits(b) && TwoDigits(c)
    requires ParseNat(a) == h && ParseNat(b) == m && ParseNat(c) == sec
    ensures ParseClock(a + ":" + b + ":" + c) == Some(ClockSeconds(h, m, sec))
  {
    assert ':' !in a;
    var rest := b + [':'] + c;
    assert a + ":" + b + ":" + c == a + [':'] + rest;
    ParseClockSplit(a, rest);
    IndexOfAfter(b, c, ':');
  }

  /** Hours, minutes and seconds add back up to the time. */
  lemma ClockParts(n: nat)
    ensures n == (n / 3600) * 3600 + ((n % 3600) / 60) * 60 + n % 60
  {
    var q, r := n / 3600, n % 3600;
    var m, sec := r / 60, r % 60;
    assert n == q * 3600 + r && r == m * 60 + sec;
    assert n == (q * 60 + m) * 60 + sec;
    LemmaDivUnique(n, 60, q * 60 + m);
  }

  /** A minute or second value renders as two digits that read back as it. */
  lemma Pad2Value(k: nat, b: string)
    requires k < 100 && b == Pad2(NatToString(k))
    ensures TwoDigits(b) && ParseNat(b) == k
  {
    Pad2Parses(k);
  }

  /** "h:mm:ss" text reads back as its number of seconds. */
  lemma HourTextParses(h: nat, m: nat, sec: nat) returns (t: string)
    requires m < 60 && sec < 60
    ensures t == NatToString(h) + ":" + Pad2(NatToString(m)) + ":" + Pad2(NatToString(sec))
    ensures ParseClock(t) == Some(ClockSeconds(h, m, sec))
  {
    var a, b, c := NatToString(h), Pad2(NatToString(m)), Pad2(NatToString(sec));
    Pad2Value(m, b);
    Pad2Value(sec, c);
    ParseNatToString(h);
    ParseClockThree(a, b, c, h, m, sec);
    t := a + ":" + b + ":" + c;
  }

  /** "m:ss" text reads back as its number of seconds. */
  lemma MinuteTextParses(m: nat, sec: nat) returns (t: string)
    requires sec < 60
    ensures t == NatToString(m) + ":" + Pad2(NatToString(sec))
    ensures ParseClock(t) == Some(ClockSeconds(0, m, sec))
  {
    var a, c := NatToString(m), Pad2(NatToString(sec));
    Pad2Value(sec, c);
    ParseNatToString(m);
    ParseClockTwo(a, c, m, sec);
    t := a + ":" + c;
  }

  /** A non-negative time split into its clock fields, with its text. */
  lemma ClockSplit(n: nat) returns (h: nat, m: nat, sec: nat)
    ensures m < 60 && sec < 60 && n == ClockSeconds(h, m, sec)
    ensures h > 0 ==> FormatTime(n) == NatToString(h) + ":" + Pad2(NatToString(m)) + ":" + Pad2(NatToString(sec))
    ensures h == 0 ==> FormatTime(n) == NatToString(m) + ":" + Pad2(NatToString(sec))
  {
    h, m, sec := n / 3600, (n % 3600) / 60, n % 60;
    FormatTimeNonNegative(n);
    ClockParts(n);
  }

  /** The clock text of a non-negative number of seconds reads back as
      that number, so distinct times never show the same text. */
  lemma FormatTimeRoundTrip(n: nat)
    ensures ParseClock(FormatTime(n)) == Some(n)
  {
    var h, m, sec := ClockSplit(n);
    var t;
    if h == 0 {
      t := MinuteTextParses(m, sec);
    } else {
      t := HourTextParses(h, m, sec);
    }
    assert FormatTime(n) == t;
  }

  lemma FormatTimeInjective(a: nat, b: nat)
    requires FormatTime(a) == FormatTime(b)
    ensures a == b
  {
    FormatTimeRoundTrip(a);
    FormatTimeRoundTrip(b);
  }

  lemma FormatTimeExamples()
    ensures FormatTime(75) == "1:15" && FormatTime(3605) == "1:00:05" && FormatTime(9) == "0:09"
  {
    MinuteExample();
    HourExample();
    SecondsExample();
  }

  lemma MinuteExample()
    ensures FormatTime(75) == "1:15"
  {
    assert NatToString(1) == "1" && NatToString(15) == "15";
  }

  lemma HourExample()
    ensures FormatTime(3605) == "1:00:05"
  {
    assert NatToString(1) == "1" && NatToString(0) == "0" && NatToString(5) == "5";
  }

  lemma SecondsExample()
    ensures FormatTime(9) == "0:09"
  {
    assert NatToString(0) == "0" && NatToString(9) == "9";
  }

  // ---------------------------------------------------------------------
  // The hour/minute/second pickers and the preview
  // ---------------------------------------------------------------------

  /** Three picker values after `parseInt`; None is NaN. */
  datatype Clock = Clock(hour: Option<int>, minute: Option<int>, second: Option<int>)

  /** `parseInt(...) || 0`. */
  function OrZero(v: Option<int>): int {
    if v.Some? then v.value else 0
  }

  /** `hmsToSeconds` / `hmsToSecondsEnd`. */
  function Seconds(c: Clock): (n: int)
    ensures c.hour.None? && c.minute.None? && c.second.None? ==> n == 0
  {
    OrZero(c.hour) * 3600 + OrZero(c.minute) * 60 + OrZero(c.second)
  }

  /** The picker values written back for a number of seconds. */
  function ClockOf(n: int): (c: Clock)
    ensures c.hour.Some? && c.minute.Some? && c.second.Some?
    ensures n >= 0 ==> c.hour.value >= 0 && 0 <= c.minute.value < 60 && 0 <= c.second.value < 60
  {
    Clock(Some(n / 3600), Some(JsRem(n, 3600) / 60), Some(JsRem(n, 60)))
  }

  /** The values written back into the end pickers read as the same time. */
  lemma ClockRoundTrip(n: nat)
    ensures Seconds(ClockOf(n)) == n
  {
  }

  /** The interval the preview settles on, and whether it had to move the end. */
  datatype Preview = Preview(start: int, end: int, corrected: bool)

  /** `Math.min(Math.max(0, v), duration)`. */
  function MinMax(v: int, duration: int): (r: int)
    ensures duration >= 0 ==> 0 <= r <= duration
    ensures 0 <= v <= duration ==> r == v
    ensures duration < 0 ==> r == duration
  {
    if v < 0 then (if duration < 0 then duration else 0) else if v > duration then duration else v
  }

  /** The clamp of `updateTimePreview`: both ends into [0, duration]; an
      end not after the start becomes the start plus a minute, cut at the
      duration. */
  function PreviewOf(start: int, end: int, duration: int): (p: Preview)
    ensures duration >= 0 ==> 0 <= p.start <= p.end <= duration
    ensures duration >= 0 ==> (p.start < p.end <==> p.start < duration)
    ensures p.start == MinMax(start, duration)
    ensures p.corrected <==> MinMax(end, duration) <= MinMax(start, duration)
    ensures !p.corrected ==> p.end == MinMax(end, duration)
    ensures p.corrected ==> p.end == if p.start + 60 > duration then duration else p.start + 60
  {
    var s := MinMax(start, duration);
    var e := MinMax(end, duration);
    if e <= s then Preview(s, if s + 60 > duration then duration else s + 60, true)
    else Preview(s, e, false)
  }

  /** Settling twice is settling once: the end written back by a
      correction reads as the corrected end, which the clamp keeps. */
  lemma PreviewIdempotent(start: int, end: int, duration: int)
    requires duration >= 0
    ensures var p := PreviewOf(start, end, duration);
            var endAfter := if p.corrected then Seconds(ClockOf(p.end)) else end;
            PreviewOf(start, endAfter, duration).start == p.start
            && PreviewOf(start, endAfter, duration).end == p.end
  {
    var p := PreviewOf(start, end, duration);
    if p.corrected {
      ClockRoundTrip(p.end);
    }
  }

  /** The badge text: the clip length, never negative. */
  function BadgeText(start: int, end: int): (t: string)
    ensures end >= start ==> t == "Duration: " + FormatTime(end - start)
    ensures end < start ==> t == "Duration: " + FormatTime(0)
  {
    "Duration: " + FormatTime(if end - start > 0 then end - start else 0)
  }

  /** The preview line: both ends as clock text. */
  function PreviewText(start: int, end: int): string {
    "clip: " + FormatTime(start) + " - " + FormatTime(end)
  }

  class TimePicker {
    var startClock: Clock
    var endClock: Clock
    /** `currentVideoDuration`. */
    var duration: int
    /** The hidden inputs the download button reads, after `parseInt`. */
    var startTime: Option<int>
    var endTime: Option<int>
    var previewText: string
    var badgeText: string

    /** The page as loaded: no video, empty pickers and inputs. */
    constructor ()
      ensures duration == 0
      ensures startClock == Clock(None, None, None) && endClock == Clock(None, None, None)
      ensures startTime == None && endTime == None
    {
      startClock := Clock(None, None, None);
      endClock := Clock(None, None, None);
      duration := 0;
      startTime := None;
      endTime := None;
      previewText := "";
      badgeText := "";
    }

    /** `updateTimePreview`. */
    method UpdateTimePreview()
      modifies this
      ensures var p := PreviewOf(Seconds(old(startClock)), Seconds(old(endClock)), duration);
              && startTime == Some(p.start) && endTime == Some(p.end)
              && endClock == (if p.corrected then ClockOf(p.end) else old(endClock))
      ensures previewText == PreviewText(startTime.value, endTime.value)
      ensures badgeText == BadgeText(startTime.value, endTime.value)
      ensures startClock == old(startClock) && duration == old(duration)
    {
      ghost var p := PreviewOf(Seconds(startClock), Seconds(endClock), duration);
      var startSeconds := Seconds(startClock);
      var endSeconds := Seconds(endClock);

      startSeconds := MinMax(startSeconds, duration);
      endSeconds := MinMax(endSeconds, duration);

      if endSeconds <= startSeconds {
        endSeconds := startSeconds + 60;
        if endSeconds > duration {
          endSeconds := duration;
        }
        endClock := ClockOf(endSeconds);
      }

      assert startSeconds == p.start && endSeconds == p.end;
      ShowInterval(startSeconds, endSeconds);
    }

    /** Writes the settled interval into the hidden inputs, the preview
        line and the badge. */
    method ShowInterval(startSeconds: int, endSeconds: int)
      modifies this
      ensures startTime == Some(startSeconds) && endTime == Some(endSeconds)
      ensures previewText == PreviewText(startTime.value, endTime.value)
      ensures badgeText == BadgeText(startTime.value, endTime.value)
      ensures startClock == old(startClock) && endClock == old(endClock) && duration == old(duration)
    {
      startTime := Some(startSeconds);
      endTime := Some(endSeconds);
      previewText := PreviewText(startSeconds, endSeconds);
      badgeText := BadgeText(startSeconds, endSeconds);
    }

    /** A video's metadata arrives: the duration is recorded, the start
        pickers go to zero and the end pickers to the duration, and the
        preview is settled (`populateTimeDropdowns`). */
    method LoadVideo(videoDuration: int)
      modifies this
      ensures duration == videoDuration
      ensures startClock == Clock(Some(0), Some(0), Some(0)) && endClock == ClockOf(videoDuration)
      ensures startTime == Some(if videoDuration >= 0 then 0 else videoDuration) && endTime == Some(videoDuration)
      ensures previewText == PreviewText(startTime.value, videoDuration)
      ensures badgeText == BadgeText(startTime.value, videoDuration)
    {
      duration := videoDuration;
      startClock := Clock(Some(0), Some(0), Some(0));
      endClock := ClockOf(videoDuration);
      if videoDuration >= 0 {
        ClockRoundTrip(videoDuration);
      }
      UpdateTimePreview();
    }
  }

  // ---------------------------------------------------------------------
  // The download button
  // ---------------------------------------------------------------------

  /** `JSON.stringify` of a `parseInt` result: NaN is sent as null. */
  function TimeField(v: Option<int>): (f: Serializers.Field<int>)
    ensures v.None? <==> f.Missing?
    ensures v.Some? ==> f == Serializers.Given(v.value)
  {
    if v.Some? then Serializers.Given(v.value) else Serializers.Missing
  }

  /** The click handler: `start >= end` (false when either is NaN) stops
      it with an alert; otherwise it posts the interval, the quality and
      the URL as typed. */
  function ClickRequest(startTime: Option<int>, endTime: Option<int>, url: Serializers.Field<string>, quality: string)
    : (r: Option<Serializers.DownloadRequest>)
    ensures r.None? <==> startTime.Some? && endTime.Some? && startTime.value >= endTime.value
    ensures r.Some? ==> r.value == Serializers.DownloadRequest(url, TimeField(startTime), TimeField(endTime), Serializers.Given(quality))
  {
    if startTime.Some? && endTime.Some? && startTime.value >= endTime.value then None
    else Some(Serializers.DownloadRequest(url, TimeField(startTime), TimeField(endTime), Serializers.Given(quality)))
  }

  /** After a settled preview of a video of non-negative length, the button
      posts exactly when the start is before the end of the video, and the
      server's serializer then accepts the interval. */
  lemma SettledClickAccepted(startClock: Clock, endClock: Clock, duration: int, url: string, quality: string)
    requires duration >= 0 && Serializers.TextOk(Serializers.Given(quality))
    ensures var p := PreviewOf(Seconds(startClock), Seconds(endClock), duration);
            var r := ClickRequest(Some(p.start), Some(p.end), Serializers.Given(url), quality);
            && (r.Some? <==> p.start < duration)
            && (r.Some? ==> Serializers.ValidateDownloadRequest(r.value).Valid?)
  {
  }

  /** Before any preview the hidden inputs are NaN, the comparison is
      false, and the request goes out with null times, which the
      serializer refuses. */
  lemma UnsettledClickPostsNulls(url: string, quality: string)
    ensures ClickRequest(None, None, Serializers.Given(url), quality).Some?
    ensures Serializers.ValidateDownloadRequest(ClickRequest(None, None, Serializers.Given(url), quality).value).Invalid?
  {
  }

  // ---------------------------------------------------------------------
  // The URL pattern, browser spelling
  // ---------------------------------------------------------------------

  /** The browser's pattern spells the scheme `https?//`, without the
      colon, and its `.` stops at the four JavaScript line terminators. */
  const ClientDialect := Validators.UrlDialect(["http//", "https//"], {'\n', '\r', '\U{2028}', '\U{2029}'})

  /** `validateYouTubeUrl`: `RegExp.test` of the pattern, anchored at the start only.
      Its behaviour is proved in `ClientRefusesWatchUrl` and `ClientAcceptsBareHost`. */
  function ValidateYouTubeUrl(url: string): (ok: bool)
    ensures ok <==> Validators.PatternMatches(ClientDialect, url)
  {
    Validators.PatternMatches(ClientDialect, url)
  }

  /** The same pattern with the colon the scheme evidently needs. */
  const FixedClientDialect := Validators.UrlDialect(["http://", "https://"], {'\n', '\r', '\U{2028}', '\U{2029}'})

  /** The corrected browser check; `FixedAgreesWithServer` and
      `FixedAcceptsWatchUrl` state what it accepts. */
  function ValidateYouTubeUrlFixed(url: string): (ok: bool)
    ensures ok <==> Validators.PatternMatches(FixedClientDialect, url)
  {
    Validators.PatternMatches(FixedClientDialect, url)
  }

  /** The page's own example of a video link is refused by the browser's
      pattern although the server accepts it. */
  lemma ClientRefusesWatchUrl()
    ensures !ValidateYouTubeUrl(Validators.WatchUrl)
  {
    var url := Validators.WatchUrl;
    assert url[4] == 's' && url[5] == ':';
    forall s | s in ClientDialect.schemes
      ensures !Validators.HasAt(url, 0, s)
    {
      if s == "http//" {
        Validators.NotHasAt(url, 0, s, 4);
      } else {
        Validators.NotHasAt(url, 0, s, 5);
      }
    }
    Validators.NotHasAt(url, 0, "www.", 0);
    Validators.NoHostAt(ClientDialect, url, 0);
    Validators.NoMatchWithout(ClientDialect, url);
  }

  /** Without a scheme the browser's pattern does match:
      "www.youtube.com/watch?v=dQw4w9WgXcQ" is accepted. */
  lemma ClientAcceptsBareHost()
    ensures ValidateYouTubeUrl(Validators.WwwWatchPrefix + "dQw4w9WgXcQ")
  {
    Validators.ExampleIdIsId();
    Validators.WatchFormFrom(ClientDialect, "", "dQw4w9WgXcQ");
    assert "" + Validators.WwwWatchPrefix == Validators.WwwWatchPrefix;
  }

  /** With the colon, the browser accepts the server's example. */
  lemma FixedAcceptsWatchUrl()
    ensures ValidateYouTubeUrlFixed(Validators.WatchUrl)
  {
    Validators.WatchUrlMatches(FixedClientDialect);
  }

  /** The corrected browser pattern accepts exactly what the server's
      accepts, on every text free of the three line terminators only
      JavaScript has. */
  lemma FixedAgreesWithServer(url: string)
    requires '\r' !in url && '\U{2028}' !in url && '\U{2029}' !in url
    ensures ValidateYouTubeUrlFixed(url) <==> Validators.ValidateYoutubeUrl(url)
  {
    Validators.DialectsAgree(FixedClientDialect, Validators.ServerDialect, url);
  }

  // ---------------------------------------------------------------------
  // Paste
  // ---------------------------------------------------------------------

  /** The characters `String.prototype.trim` removes: the white space and
      line terminator characters of ECMAScript. */
  predicate JsSpace(c: char) {
    || c in {'\t', '\U{000B}', '\U{000C}', ' ', '\U{00A0}', '\U{FEFF}', '\n', '\r', '\U{2028}', '\U{2029}'}
    || c in {'\U{1680}', '\U{202F}', '\U{205F}', '\U{3000}'}
    || '\U{2000}' <= c <= '\U{200A}'
  }

  /** Leading white space removed. */
  function TrimStart(s: string): (t: string)
    ensures t == [] || !JsSpace(t[0])
    ensures |t| <= |s| && t == s[|s| - |t|..]
    ensures forall k :: 0 <= k < |s| - |t| ==> JsSpace(s[k])
  {
    if s != [] && JsSpace(s[0]) then TrimStart(s[1..]) else s
  }

  /** Trailing white space removed. */
  function TrimEnd(s: string): (t: string)
    ensures t == [] || !JsSpace(t[|t| - 1])
    ensures |t| <= |s| && t == s[..|t|]
    ensures forall k :: |t| <= k < |s| ==> JsSpace(s[k])
  {
    if s != [] && JsSpace(s[|s| - 1]) then TrimEnd(s[..|s| - 1]) else s
  }

  /** `trim()`: leading and trailing white space removed. */
  function Trim(s: string): (t: string)
    ensures t != [] ==> !JsSpace(t[0]) && !JsSpace(t[|t| - 1])
  {
    TrimEnd(TrimStart(s))
  }

  /** Text that neither starts nor ends with white space is left as it is. */
  lemma TrimKeepsBareText(s: string)
    requires s != [] && !JsSpace(s[0]) && !JsSpace(s[|s| - 1])
    ensures Trim(s) == s
  {
  }

  /** The paste handler: the trimmed field submits the form by itself
      when it is non-empty and the browser's pattern accepts it;
      `PastedWatchUrlDoesNotSubmit` shows what that means for a full link. */
  function PasteAutoSubmits(fieldValue: string): (submit: bool)
    ensures submit ==> Trim(fieldValue) != [] && ValidateYouTubeUrl(Trim(fieldValue))
    ensures Trim(fieldValue) != [] && ValidateYouTubeUrl(Trim(fieldValue)) ==> submit
  {
    var url := Trim(fieldValue);
    url != [] && ValidateYouTubeUrl(url)
  }

  /** Pasting the full link of a video does not submit the form. */
  lemma PastedWatchUrlDoesNotSubmit()
    ensures !PasteAutoSubmits(Validators.WatchUrl)
  {
    var url := Validators.WatchUrl;
    assert !JsSpace(url[0]) && !JsSpace(url[|url| - 1]);
    TrimKeepsBareText(url);
    ClientRefusesWatchUrl();
  }
}
