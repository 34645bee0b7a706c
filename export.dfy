/**
 * The export decision of the editor: which delivery actions one press of the
 * Export button produces, given what the browser offers and how its
 * asynchronous calls turn out. The browser is reduced to its answers: whether
 * `navigator.share` exists, the user-agent string, and whether blob conversion
 * and the share call are fulfilled or rejected.
 */
module Export {
  import opened Timestamp

  /** The platforms `/iPhone|iPad|iPod|Android/i` recognises. */
  const MobilePlatforms: seq<string> := ["iPhone", "iPad", "iPod", "Android"]

  const ShareTitle := "Tesla Meme"
  const ShareText := "Check out my Tesla meme!"
  const PngType := "image/png"

  function LowerAscii(c: char): char
  {
    if 'A' <= c <= 'Z' then (c as int + 32) as char else c
  }

  function LowerAsciiString(s: string): (r: string)
    ensures |r| == |s| && forall i :: 0 <= i < |s| ==> r[i] == LowerAscii(s[i])
  {
    if s == [] then [] else [LowerAscii(s[0])] + LowerAsciiString(s[1..])
  }

  /** Equality of two characters under the `i` flag (ASCII letters only differ in case). */
  predicate SameIgnoringCase(a: char, b: char)
  {
    LowerAscii(a) == LowerAscii(b)
  }

  /** `s` begins with `p`, ignoring ASCII case. */
  predicate StartsWithIgnoringCase(s: string, p: string)
  {
    |p| <= |s| && forall i :: 0 <= i < |p| ==> SameIgnoringCase(s[i], p[i])
  }

  /** The search a regular expression consisting of one literal does: try every start position. */
  predicate ContainsIgnoringCase(s: string, p: string)
    decreases |s|
  {
    StartsWithIgnoringCase(s, p) || (s != [] && ContainsIgnoringCase(s[1..], p))
  }

  /** The search succeeds exactly when some start position holds the literal. */
  lemma {:induction false} ContainsIgnoringCaseIff(s: string, p: string)
    ensures ContainsIgnoringCase(s, p) <==>
            exists k {:trigger s[k..]} :: 0 <= k <= |s| && StartsWithIgnoringCase(s[k..], p)
  {
    assert s[0..] == s;
    if s != [] {
      ContainsIgnoringCaseIff(s[1..], p);
      if ContainsIgnoringCase(s[1..], p) {
        var k :| 0 <= k <= |s[1..]| && StartsWithIgnoringCase(s[1..][k..], p);
        assert s[1..][k..] == s[k + 1..];
      }
      if k :| 0 <= k <= |s| && StartsWithIgnoringCase(s[k..], p) {
        if k > 0 {
          assert s[1..][k - 1..] == s[k..];
          assert StartsWithIgnoringCase(s[1..][k - 1..], p);
        }
      }
    }
  }

  /** `/iPhone|iPad|iPod|Android/i.test(userAgent)`. */
  predicate IsMobileUserAgent(userAgent: string)
  {
    exists j :: 0 <= j < |MobilePlatforms| && ContainsIgnoringCase(userAgent, MobilePlatforms[j])
  }

  /** Upper- and lower-case letters in the user agent are the same to the test. */
  lemma {:induction false} ContainsIgnoresCaseOfSubject(s: string, p: string)
    ensures ContainsIgnoringCase(LowerAsciiString(s), p) == ContainsIgnoringCase(s, p)
  {
    var l := LowerAsciiString(s);
    assert StartsWithIgnoringCase(l, p) == StartsWithIgnoringCase(s, p);
    if s != [] {
      assert l[1..] == LowerAsciiString(s[1..]);
      ContainsIgnoresCaseOfSubject(s[1..], p);
    }
  }

  lemma MobileTestIgnoresCase(userAgent: string)
    ensures IsMobileUserAgent(LowerAsciiString(userAgent)) == IsMobileUserAgent(userAgent)
  {
    forall j | 0 <= j < |MobilePlatforms|
      ensures ContainsIgnoringCase(LowerAsciiString(userAgent), MobilePlatforms[j])
           == ContainsIgnoringCase(userAgent, MobilePlatforms[j])
    {
      ContainsIgnoresCaseOfSubject(userAgent, MobilePlatforms[j]);
    }
  }

  /** `a` and `b` are the same word up to the case of ASCII letters. */
  predicate EqualIgnoringCase(a: string, b: string)
  {
    |a| == |b| && StartsWithIgnoringCase(a, b)
  }

  /** A user agent that names one of the platforms, in any case, is mobile. */
  lemma NamingAPlatformIsMobile(before: string, platform: string, after: string)
    requires exists j :: 0 <= j < |MobilePlatforms| && EqualIgnoringCase(platform, MobilePlatforms[j])
    ensures IsMobileUserAgent(before + platform + after)
  {
    var s := before + platform + after;
    var j :| 0 <= j < |MobilePlatforms| && EqualIgnoringCase(platform, MobilePlatforms[j]);
    var literal := MobilePlatforms[j];
    assert s[|before|..][..|platform|] == platform;
    assert StartsWithIgnoringCase(s[|before|..], literal);
    ContainsIgnoringCaseIff(s, literal);
  }

  /** The file handed to `navigator.share`; its bytes are the PNG blob, left opaque. */
  datatype SharedFile = SharedFile(name: string, mimeType: string)

  /** What an export does that the user can see. */
  datatype Action =
    | Share(title: string, text: string, files: seq<SharedFile>)  // navigator.share is called
    | Download(href: string, fileName: string)                    // downloadFile is called

  /** How a promise settles. */
  datatype Outcome = Fulfilled | Rejected

  function CountDownloads(trace: seq<Action>): nat
  {
    if trace == [] then 0
    else (if trace[0].Download? then 1 else 0) + CountDownloads(trace[1..])
  }

  /**
   * The actions of one `exportMeme` call. `hasCanvas` is whether the editor
   * holds a canvas, `dataUrl` the canvas's PNG data URL, `now` the
   * `toISOString()` of the moment of export, `shareApi` whether
   * `navigator.share` exists, `blob` how the chain `fetch`, `blob()` and
   * `new File` settled and `share` how `navigator.share` settled.
   */
  function ExportMeme(hasCanvas: bool, dataUrl: string, now: string, shareApi: bool,
                      userAgent: string, blob: Outcome, share: Outcome): (trace: seq<Action>)
    ensures !hasCanvas <==> trace == []
    ensures CountDownloads(trace) <= 1
    ensures forall i :: 0 <= i < |trace| && trace[i].Download? ==>
              trace[i] == Download(dataUrl, ExportFileName(now))
    ensures forall i :: 0 <= i < |trace| && trace[i].Share? ==>
              i == 0 && trace[i] == Share(ShareTitle, ShareText, [SharedFile(ExportFileName(now), PngType)])
  {
    if !hasCanvas then []
    else
      var fileName := ExportFileName(now);
      var download := Download(dataUrl, fileName);
      if shareApi && IsMobileUserAgent(userAgent) then
        match blob
        case Rejected => [download]
        case Fulfilled =>
          var request := Share(ShareTitle, ShareText, [SharedFile(fileName, PngType)]);
          match share
          case Fulfilled => [request]
          case Rejected =>
            assert CountDownloads([download]) == 1;
            [request, download]
      else
        [download]
  }

  /** Without a share API, or on a platform the test does not recognise, the meme is downloaded. */
  lemma DesktopDownloads(dataUrl: string, now: string, shareApi: bool, userAgent: string,
                         blob: Outcome, share: Outcome)
    requires !shareApi || !IsMobileUserAgent(userAgent)
    ensures ExportMeme(true, dataUrl, now, shareApi, userAgent, blob, share)
            == [Download(dataUrl, ExportFileName(now))]
  {
  }

  /** On a mobile platform with a share API, the outcome of the share path. */
  lemma MobileShares(dataUrl: string, now: string, userAgent: string, blob: Outcome, share: Outcome)
    requires IsMobileUserAgent(userAgent)
    ensures var request := Share(ShareTitle, ShareText, [SharedFile(ExportFileName(now), PngType)]);
            var download := Download(dataUrl, ExportFileName(now));
            ExportMeme(true, dataUrl, now, true, userAgent, blob, share)
            == if blob == Rejected then [download]
               else if share == Rejected then [request, download]
               else [request]
  {
  }

  /**
   * Exactly one delivery succeeds or is fallen back on: the meme is not
   * downloaded only when it was shared and the share was fulfilled.
   */
  lemma NoDownloadOnlyAfterSuccessfulShare(hasCanvas: bool, dataUrl: string, now: string,
                                          shareApi: bool, userAgent: string,
                                          blob: Outcome, share: Outcome)
    requires hasCanvas
    ensures var trace := ExportMeme(hasCanvas, dataUrl, now, shareApi, userAgent, blob, share);
            CountDownloads(trace) == 0 <==>
            (shareApi && IsMobileUserAgent(userAgent) && blob == Fulfilled && share == Fulfilled)
  {
  }
}
