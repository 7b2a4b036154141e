/** The selection logic of the socket scraper `python-scraper/scraper_server.py`:
    which scraped tweet elements are kept (`search_and_scrape_tweets`), how the
    scroll loop is bounded, how media URLs are deduplicated
    (`extract_media_from_tweet`) and how the output file name is cleaned
    (`get_unique_filename`).  Browser reads are inputs: a pass of the scroll
    loop is what the page showed on that pass. */
module ScraperServer {
  import opened Wrappers
  import opened JsText
  import TM = TweetMarkdown

  // ---------------------------------------------------------------------
  // Media extraction
  // ---------------------------------------------------------------------

  /** The `src` and `alt` attributes of one `img` element (`None` when absent). */
  datatype ImgAttrs = ImgAttrs(src: Option<string>, alt: Option<string>)

  /** The `src` and `poster` attributes of one `video` element. */
  datatype VideoAttrs = VideoAttrs(src: Option<string>, poster: Option<string>)

  /** The attributes of every media element of one tweet element, each list in
      selector order then document order: images, videos and embedded iframes
      (the `src` of each). */
  datatype MediaReads = MediaReads(images: seq<ImgAttrs>, videos: seq<VideoAttrs>, embeds: seq<Option<string>>)

  const TwimgHost := "pbs.twimg.com"

  /** Python truthiness of an optional attribute: present and non-empty. */
  predicate Truthy(o: Option<string>) {
    o.Some? && o.value != ""
  }

  /** `[img['url'] for img in media_data['images']]` */
  function ImageUrls(images: seq<TM.Image>): (r: seq<string>)
    ensures |r| == |images|
    ensures forall i :: 0 <= i < |images| ==> r[i] == images[i].url
  {
    seq(|images|, i requires 0 <= i < |images| => images[i].url)
  }

  /** `[vid['url'] for vid in media_data['videos']]` */
  function VideoUrls(videos: seq<TM.Video>): (r: seq<string>)
    ensures |r| == |videos|
    ensures forall i :: 0 <= i < |videos| ==> r[i] == videos[i].url
  {
    seq(|videos|, i requires 0 <= i < |videos| => videos[i].url)
  }

  /** `[vid['poster'] for vid in media_data['videos']]` */
  function Posters(videos: seq<TM.Video>): (r: seq<Option<string>>)
    ensures |r| == |videos|
    ensures forall i :: 0 <= i < |videos| ==> r[i] == videos[i].poster
  {
    seq(|videos|, i requires 0 <= i < |videos| => videos[i].poster)
  }

  predicate DistinctImageUrls(images: seq<TM.Image>) {
    forall i, j :: 0 <= i < j < |images| ==> images[i].url != images[j].url
  }

  predicate DistinctVideoUrls(videos: seq<TM.Video>) {
    forall i, j :: 0 <= i < j < |videos| ==> videos[i].url != videos[j].url
  }

  predicate AllTwimg(images: seq<TM.Image>) {
    forall i :: 0 <= i < |images| ==> Contains(images[i].url, TwimgHost)
  }

  /** Whether an image element is stored, given the images stored so far. */
  predicate TakesImage(images: seq<TM.Image>, a: ImgAttrs) {
    Truthy(a.src) && Contains(a.src.value, TwimgHost) && a.src.value !in ImageUrls(images)
  }

  /** The image list after the image elements `imgs`, starting from `acc`. */
  function AddImages(acc: seq<TM.Image>, imgs: seq<ImgAttrs>): (r: seq<TM.Image>)
    ensures |acc| <= |r| && r[..|acc|] == acc
    decreases |imgs|
  {
    if imgs == [] then acc
    else
      var a := imgs[0];
      var next := if TakesImage(acc, a) then acc + [TM.Image(a.src.value, a.alt.GetOr(""))] else acc;
      AddImages(next, imgs[1..])
  }

  /** The video list after the video elements `vids`, AS WRITTEN: a video
      without a new `src` is stored under its poster URL when that poster is
      not yet among the stored posters, whatever the stored URLs are. */
  function AddVideosAsWritten(acc: seq<TM.Video>, vids: seq<VideoAttrs>): (r: seq<TM.Video>)
    ensures |acc| <= |r| && r[..|acc|] == acc
    decreases |vids|
  {
    if vids == [] then acc
    else
      var v := vids[0];
      var next :=
        if Truthy(v.src) && v.src.value !in VideoUrls(acc) then acc + [TM.Video(v.src.value, v.poster, "video")]
        else if Truthy(v.poster) && v.poster !in Posters(acc) then acc + [TM.Video(v.poster.value, v.poster, "video")]
        else acc;
      AddVideosAsWritten(next, vids[1..])
  }

  /** Whether a video element is stored under its poster URL, in the corrected
      reading where the poster URL must also be new among the stored URLs. */
  predicate TakesPoster(videos: seq<TM.Video>, v: VideoAttrs) {
    Truthy(v.poster) && v.poster !in Posters(videos) && v.poster.value !in VideoUrls(videos)
  }

  /** The video list after the video elements `vids`, with the poster branch
      also checking the stored URLs. */
  function AddVideos(acc: seq<TM.Video>, vids: seq<VideoAttrs>): (r: seq<TM.Video>)
    ensures |acc| <= |r| && r[..|acc|] == acc
    decreases |vids|
  {
    if vids == [] then acc
    else
      var v := vids[0];
      var next :=
        if Truthy(v.src) && v.src.value !in VideoUrls(acc) then acc + [TM.Video(v.src.value, v.poster, "video")]
        else if TakesPoster(acc, v) then acc + [TM.Video(v.poster.value, v.poster, "video")]
        else acc;
      AddVideos(next, vids[1..])
  }

  /** The video list after the embedded iframes `srcs`. */
  function AddEmbeds(acc: seq<TM.Video>, srcs: seq<Option<string>>): (r: seq<TM.Video>)
    ensures |acc| <= |r| && r[..|acc|] == acc
    decreases |srcs|
  {
    if srcs == [] then acc
    else
      var s := srcs[0];
      var next := if Truthy(s) && s.value !in VideoUrls(acc) then acc + [TM.Video(s.value, None, "embed")] else acc;
      AddEmbeds(next, srcs[1..])
  }

  /** The media dict of one tweet element. */
  function MediaOf(m: MediaReads): TM.Media {
    TM.Media(AddImages([], m.images), AddEmbeds(AddVideos([], m.videos), m.embeds))
  }

  /** The image selector loop of `extract_media_from_tweet`. */
  method CollectImages(imgs: seq<ImgAttrs>) returns (images: seq<TM.Image>)
    ensures images == AddImages([], imgs)
  {
    images := [];
    var i := 0;
    while i < |imgs|
      invariant 0 <= i <= |imgs|
      invariant AddImages(images, imgs[i..]) == AddImages([], imgs)
    {
      var a := imgs[i];
      if Truthy(a.src) && Contains(a.src.value, TwimgHost) && a.src.value !in ImageUrls(images) {
        images := images + [TM.Image(a.src.value, a.alt.GetOr(""))];
      }
      assert imgs[i..][1..] == imgs[i + 1..];
      i := i + 1;
    }
    assert imgs[|imgs|..] == [];
  }

  /** The video selector loop of `extract_media_from_tweet`, with the
      corrected poster check. */
  method CollectVideos(vids: seq<VideoAttrs>) returns (videos: seq<TM.Video>)
    ensures videos == AddVideos([], vids)
  {
    videos := [];
    var j := 0;
    while j < |vids|
      invariant 0 <= j <= |vids|
      invariant AddVideos(videos, vids[j..]) == AddVideos([], vids)
    {
      var v := vids[j];
      if Truthy(v.src) && v.src.value !in VideoUrls(videos) {
        videos := videos + [TM.Video(v.src.value, v.poster, "video")];
      } else if Truthy(v.poster) && v.poster !in Posters(videos) && v.poster.value !in VideoUrls(videos) {
        videos := videos + [TM.Video(v.poster.value, v.poster, "video")];
      }
      assert vids[j..][1..] == vids[j + 1..];
      j := j + 1;
    }
    assert vids[|vids|..] == [];
  }

  /** The embed selector loop of `extract_media_from_tweet`, appending to
      the video list `videos`. */
  method CollectEmbeds(videos: seq<TM.Video>, srcs: seq<Option<string>>) returns (r: seq<TM.Video>)
    ensures r == AddEmbeds(videos, srcs)
  {
    r := videos;
    var k := 0;
    while k < |srcs|
      invariant 0 <= k <= |srcs|
      invariant AddEmbeds(r, srcs[k..]) == AddEmbeds(videos, srcs)
    {
      var s := srcs[k];
      if Truthy(s) && s.value !in VideoUrls(r) {
        r := r + [TM.Video(s.value, None, "embed")];
      }
      assert srcs[k..][1..] == srcs[k + 1..];
      k := k + 1;
    }
    assert srcs[|srcs|..] == [];
  }

  /** `extract_media_from_tweet`: images, then videos, then embeds, each
      appended after a membership check on the list built so far. */
  method ExtractMedia(m: MediaReads) returns (media: TM.Media)
    ensures media == MediaOf(m)
    ensures AllTwimg(media.images) && DistinctImageUrls(media.images)
    ensures DistinctVideoUrls(media.videos)
  {
    var images := CollectImages(m.images);
    var videos := CollectVideos(m.videos);
    AddVideosDistinct([], m.videos);
    videos := CollectEmbeds(videos, m.embeds);
    media := TM.Media(images, videos);
    AddImagesDistinct([], m.images);
    AddEmbedsDistinct(AddVideos([], m.videos), m.embeds);
  }

  /** Appending a URL absent from the list keeps image URLs distinct. */
  lemma ImageSnocDistinct(acc: seq<TM.Image>, x: TM.Image)
    requires DistinctImageUrls(acc) && x.url !in ImageUrls(acc)
    ensures DistinctImageUrls(acc + [x])
  {
    forall i | 0 <= i < |acc|
      ensures acc[i].url != x.url
    {
      assert ImageUrls(acc)[i] == acc[i].url;
    }
  }

  lemma VideoSnocDistinct(acc: seq<TM.Video>, x: TM.Video)
    requires DistinctVideoUrls(acc) && x.url !in VideoUrls(acc)
    ensures DistinctVideoUrls(acc + [x])
  {
    forall i | 0 <= i < |acc|
      ensures acc[i].url != x.url
    {
      assert VideoUrls(acc)[i] == acc[i].url;
    }
  }

  /** Stored images are on `pbs.twimg.com` and no image URL is stored twice. */
  lemma {:induction false} AddImagesDistinct(acc: seq<TM.Image>, imgs: seq<ImgAttrs>)
    requires AllTwimg(acc) && DistinctImageUrls(acc)
    ensures AllTwimg(AddImages(acc, imgs)) && DistinctImageUrls(AddImages(acc, imgs))
    decreases |imgs|
  {
    if imgs != [] {
      var a := imgs[0];
      if TakesImage(acc, a) {
        var x := TM.Image(a.src.value, a.alt.GetOr(""));
        ImageSnocDistinct(acc, x);
        AddImagesDistinct(acc + [x], imgs[1..]);
      } else {
        AddImagesDistinct(acc, imgs[1..]);
      }
    }
  }

  /** With the corrected poster check, no video URL is stored twice. */
  lemma {:induction false} AddVideosDistinct(acc: seq<TM.Video>, vids: seq<VideoAttrs>)
    requires DistinctVideoUrls(acc)
    ensures DistinctVideoUrls(AddVideos(acc, vids))
    decreases |vids|
  {
    if vids != [] {
      var v := vids[0];
      if Truthy(v.src) && v.src.value !in VideoUrls(acc) {
        var x := TM.Video(v.src.value, v.poster, "video");
        VideoSnocDistinct(acc, x);
        AddVideosDistinct(acc + [x], vids[1..]);
      } else if TakesPoster(acc, v) {
        var x := TM.Video(v.poster.value, v.poster, "video");
        VideoSnocDistinct(acc, x);
        AddVideosDistinct(acc + [x], vids[1..]);
      } else {
        AddVideosDistinct(acc, vids[1..]);
      }
    }
  }

  /** Embeds are stored only under URLs not yet in the video list. */
  lemma {:induction false} AddEmbedsDistinct(acc: seq<TM.Video>, srcs: seq<Option<string>>)
    requires DistinctVideoUrls(acc)
    ensures DistinctVideoUrls(AddEmbeds(acc, srcs))
    decreases |srcs|
  {
    if srcs != [] {
      var s := srcs[0];
      if Truthy(s) && s.value !in VideoUrls(acc) {
        var x := TM.Video(s.value, None, "embed");
        VideoSnocDistinct(acc, x);
        AddEmbedsDistinct(acc + [x], srcs[1..]);
      } else {
        AddEmbedsDistinct(acc, srcs[1..]);
      }
    }
  }

  /** The poster branch as written stores a URL twice: a video whose `src` is
      "x", then a video with no `src` whose poster is "x". */
  lemma PosterBranchDuplicates()
    ensures var vids := [VideoAttrs(Some("x"), None), VideoAttrs(None, Some("x"))];
            var r := AddVideosAsWritten([], vids);
            |r| == 2 && r[0].url == r[1].url
  {
    var vids := [VideoAttrs(Some("x"), None), VideoAttrs(None, Some("x"))];
    var one := [TM.Video("x", None, "video")];
    assert VideoUrls([]) == [];
    assert AddVideosAsWritten([], vids) == AddVideosAsWritten(one, vids[1..]);
    assert Posters(one) == [None];
    assert vids[1..][1..] == [];
  }

  // ---------------------------------------------------------------------
  // Keep filter and scroll loop
  // ---------------------------------------------------------------------

  /** One tweet element as the page showed it: for each author selector and
      each text selector in order, the text of its first match (`None` when
      the selector matched nothing), and the element's media attributes. */
  datatype Candidate = Candidate(authorReads: seq<Option<string>>, textReads: seq<Option<string>>, media: MediaReads)

  /** One pass of the scroll loop: the tweet elements found, or a failure
      (the page wait timing out) before any element was read. */
  datatype PassRead = Elements(candidates: seq<Candidate>) | Failed

  /** The first selector read whose stripped text is non-empty, stripped;
      `fallback` when there is none. */
  function FirstNonBlank(texts: seq<Option<string>>, fallback: string): (r: string)
    ensures r == fallback || (r != "" && Stripped(r))
    decreases |texts|
  {
    if texts == [] then fallback
    else if !BlankRead(texts[0]) then PyStrip(texts[0].value)
    else FirstNonBlank(texts[1..], fallback)
  }

  /** A selector read that gives nothing: no match, or only white space. */
  predicate BlankRead(t: Option<string>) {
    t.None? || PyStrip(t.value) == ""
  }

  /** The loop breaks at the first read with non-blank text and keeps it,
      stripped. */
  lemma {:induction false} FirstNonBlankPicksFirst(texts: seq<Option<string>>, fallback: string, i: nat)
    requires i < |texts| && !BlankRead(texts[i])
    requires forall j :: 0 <= j < i ==> BlankRead(texts[j])
    ensures FirstNonBlank(texts, fallback) == PyStrip(texts[i].value)
    decreases i
  {
    if i > 0 {
      var rest := texts[1..];
      assert BlankRead(texts[0]);
      assert rest[i - 1] == texts[i];
      forall j | 0 <= j < i - 1 ensures BlankRead(rest[j]) {
        assert rest[j] == texts[j + 1];
      }
      FirstNonBlankPicksFirst(rest, fallback, i - 1);
    }
  }

  /** When every read is blank, the default set before the loop stays. */
  lemma {:induction false} FirstNonBlankAllBlank(texts: seq<Option<string>>, fallback: string)
    requires forall j :: 0 <= j < |texts| ==> BlankRead(texts[j])
    ensures FirstNonBlank(texts, fallback) == fallback
    decreases |texts|
  {
    if texts != [] {
      FirstNonBlankAllBlank(texts[1..], fallback);
    }
  }

  function AuthorOf(c: Candidate): string {
    FirstNonBlank(c.authorReads, "Unknown")
  }

  function TextOf(c: Candidate): string {
    FirstNonBlank(c.textReads, "")
  }

  /** The content test of line 415: text present, longer than ten
      characters, and an author found. */
  predicate Qualifies(c: Candidate) {
    TextOf(c) != "" && AuthorOf(c) != "Unknown" && |TextOf(c)| > 10
  }

  /** `any(t['text'] == text for t in tweets)` */
  predicate HasText(tweets: seq<TM.ScrapedTweet>, text: string) {
    exists i :: 0 <= i < |tweets| && tweets[i].text == text
  }

  function TweetOf(c: Candidate, now: string): TM.ScrapedTweet {
    TM.ScrapedTweet(AuthorOf(c), TextOf(c), now, Some(MediaOf(c.media)))
  }

  /** The tweet list after one element: appended when it passes the
      content test and its text is not yet listed. */
  function Accept(tweets: seq<TM.ScrapedTweet>, c: Candidate, now: string): (r: seq<TM.ScrapedTweet>)
    ensures |tweets| <= |r| && r[..|tweets|] == tweets
  {
    if Qualifies(c) && !HasText(tweets, TextOf(c)) then tweets + [TweetOf(c, now)] else tweets
  }

  /** The tweet list after the elements `cs` of one pass. */
  function AcceptAll(tweets: seq<TM.ScrapedTweet>, cs: seq<Candidate>, now: string): (r: seq<TM.ScrapedTweet>)
    ensures |tweets| <= |r| && r[..|tweets|] == tweets
    decreases |cs|
  {
    if cs == [] then tweets
    else
      var next := Accept(tweets, cs[0], now);
      var r := AcceptAll(next, cs[1..], now);
      assert r[..|tweets|] == r[..|next|][..|tweets|];
      r
  }

  /** The read of pass `k`; passes beyond the recorded ones find nothing. */
  function PassAt(passes: seq<PassRead>, k: nat): PassRead {
    if k < |passes| then passes[k] else Elements([])
  }

  function PassEffect(tweets: seq<TM.ScrapedTweet>, p: PassRead, now: string): seq<TM.ScrapedTweet> {
    if p.Elements? then AcceptAll(tweets, p.candidates, now) else tweets
  }

  /** The tweet list after passes `k`, `k + 1`, … while `k < max`. */
  function ScrollFrom(tweets: seq<TM.ScrapedTweet>, passes: seq<PassRead>, k: nat, max: int, now: string): (r: seq<TM.ScrapedTweet>)
    ensures |tweets| <= |r| && r[..|tweets|] == tweets
    decreases max - k
  {
    if k >= max then tweets
    else ScrollFrom(PassEffect(tweets, PassAt(passes, k), now), passes, k + 1, max, now)
  }

  /** One pass of the scroll loop. */
  lemma ScrollStep(tweets: seq<TM.ScrapedTweet>, passes: seq<PassRead>, k: nat, max: int, now: string)
    requires k < max
    ensures ScrollFrom(tweets, passes, k, max, now) == ScrollFrom(PassEffect(tweets, PassAt(passes, k), now), passes, k + 1, max, now)
  {
  }

  /** The element loop of one pass: read author and text, test them, and
      append the tweet with its media unless its text is already listed. */
  method ScanPass(tweets: seq<TM.ScrapedTweet>, cs: seq<Candidate>, now: string) returns (r: seq<TM.ScrapedTweet>)
    ensures r == AcceptAll(tweets, cs, now)
  {
    r := tweets;
    var j := 0;
    while j < |cs|
      invariant 0 <= j <= |cs|
      invariant AcceptAll(r, cs[j..], now) == AcceptAll(tweets, cs, now)
    {
      AcceptAllStep(r, cs, j, now);
      r := ScanElement(r, cs[j], now);
      j := j + 1;
    }
    assert cs[|cs|..] == [];
  }

  lemma AcceptAllStep(r: seq<TM.ScrapedTweet>, cs: seq<Candidate>, j: nat, now: string)
    requires j < |cs|
    ensures AcceptAll(r, cs[j..], now) == AcceptAll(Accept(r, cs[j], now), cs[j + 1..], now)
  {
    assert cs[j..][1..] == cs[j + 1..];
  }

  /** The body of the element loop: read author and text, test them, and
      append the tweet with its media unless its text is already listed. */
  method ScanElement(r: seq<TM.ScrapedTweet>, c: Candidate, now: string) returns (out: seq<TM.ScrapedTweet>)
    ensures out == Accept(r, c, now)
  {
    out := r;
    var author := FirstNonBlank(c.authorReads, "Unknown");
    var text := FirstNonBlank(c.textReads, "");
    if text != "" && author != "Unknown" && |text| > 10 {
      var media := ExtractMedia(c.media);
      if !HasText(r, text) {
        out := r + [TM.ScrapedTweet(author, text, now, Some(media))];
      }
    }
  }

  /** `search_and_scrape_tweets` after the page load: the scroll loop.  Every
      branch (no elements, a processed pass, a failed pass) counts one
      attempt, so exactly `max(maxScrollAttempts, 0)` passes run. `now` is the
      clock reading stamped on the kept tweets. */
  method SearchAndScrape(passes: seq<PassRead>, maxScrollAttempts: int, now: string)
      returns (tweets: seq<TM.ScrapedTweet>, scrollAttempts: nat)
    ensures tweets == ScrollFrom([], passes, 0, maxScrollAttempts, now)
    ensures scrollAttempts == if maxScrollAttempts > 0 then maxScrollAttempts else 0
  {
    tweets := [];
    scrollAttempts := 0;
    ghost var target := ScrollFrom([], passes, 0, maxScrollAttempts, now);
    while scrollAttempts < maxScrollAttempts
      invariant scrollAttempts <= if maxScrollAttempts > 0 then maxScrollAttempts else 0
      invariant ScrollFrom(tweets, passes, scrollAttempts, maxScrollAttempts, now) == target
      decreases maxScrollAttempts - scrollAttempts
    {
      ScrollStep(tweets, passes, scrollAttempts, maxScrollAttempts, now);
      tweets := RunPass(tweets, PassAt(passes, scrollAttempts), now);
      scrollAttempts := scrollAttempts + 1;
    }
  }

  /** The body of one scroll pass: a failed pass or one without elements
      keeps the list, any other scans its elements. */
  method RunPass(tweets: seq<TM.ScrapedTweet>, p: PassRead, now: string) returns (r: seq<TM.ScrapedTweet>)
    ensures r == PassEffect(tweets, p, now)
  {
    if p.Failed? || p.candidates == [] {
      return tweets;
    }
    r := ScanPass(tweets, p.candidates, now);
  }

  /** What every kept tweet satisfies: the content test, and no other kept
      tweet has the same text. */
  predicate KeptWell(tweets: seq<TM.ScrapedTweet>) {
    (forall i :: 0 <= i < |tweets| ==>
       tweets[i].text != "" && |tweets[i].text| > 10 && tweets[i].author != "Unknown")
    && (forall i, j :: 0 <= i < j < |tweets| ==> tweets[i].text != tweets[j].text)
  }

  lemma KeptSnoc(tweets: seq<TM.ScrapedTweet>, c: Candidate, now: string)
    requires KeptWell(tweets) && Qualifies(c) && !HasText(tweets, TextOf(c))
    ensures KeptWell(tweets + [TweetOf(c, now)])
  {
    var t := TweetOf(c, now);
    var r := tweets + [t];
    assert t.text == TextOf(c) && t.author == AuthorOf(c);
    forall i | 0 <= i < |r|
      ensures r[i].text != "" && |r[i].text| > 10 && r[i].author != "Unknown"
    {
      if i < |tweets| { assert r[i] == tweets[i]; }
    }
    forall i, j | 0 <= i < j < |r| ensures r[i].text != r[j].text {
      assert r[i] == tweets[i];
      if j == |tweets| {
        assert tweets[i].text != t.text;
      } else {
        assert r[j] == tweets[j];
      }
    }
  }

  /** One pass keeps the list well formed. */
  lemma {:induction false} AcceptAllKeptWell(tweets: seq<TM.ScrapedTweet>, cs: seq<Candidate>, now: string)
    requires KeptWell(tweets)
    ensures KeptWell(AcceptAll(tweets, cs, now))
    decreases |cs|
  {
    if cs != [] {
      if Qualifies(cs[0]) && !HasText(tweets, TextOf(cs[0])) {
        KeptSnoc(tweets, cs[0], now);
        AcceptAllKeptWell(tweets + [TweetOf(cs[0], now)], cs[1..], now);
      } else {
        AcceptAllKeptWell(tweets, cs[1..], now);
      }
    }
  }

  lemma HasTextPrefix(a: seq<TM.ScrapedTweet>, b: seq<TM.ScrapedTweet>, text: string)
    requires |a| <= |b| && b[..|a|] == a && HasText(a, text)
    ensures HasText(b, text)
  {
    var i :| 0 <= i < |a| && a[i].text == text;
    assert b[..|a|][i] == b[i];
  }

  /** After one element that passes the content test, its text is listed. */
  lemma AcceptHasText(tweets: seq<TM.ScrapedTweet>, c: Candidate, now: string)
    requires Qualifies(c)
    ensures HasText(Accept(tweets, c, now), TextOf(c))
  {
    if !HasText(tweets, TextOf(c)) {
      assert Accept(tweets, c, now)[|tweets|].text == TextOf(c);
    } else {
      HasTextPrefix(tweets, Accept(tweets, c, now), TextOf(c));
    }
  }

  /** Every element that passes the content test has its text among the
      tweets after the pass: either it was kept or its text already was. */
  lemma {:induction false} AcceptAllCovers(tweets: seq<TM.ScrapedTweet>, cs: seq<Candidate>, now: string, k: nat)
    requires k < |cs| && Qualifies(cs[k])
    ensures HasText(AcceptAll(tweets, cs, now), TextOf(cs[k]))
    decreases |cs|
  {
    var next := Accept(tweets, cs[0], now);
    if k == 0 {
      AcceptHasText(tweets, cs[0], now);
      HasTextPrefix(next, AcceptAll(next, cs[1..], now), TextOf(cs[0]));
    } else {
      assert cs[1..][k - 1] == cs[k];
      AcceptAllCovers(next, cs[1..], now, k - 1);
    }
  }

  /** A tweet one element adds is that element's tweet. */
  lemma AcceptAdds(tweets: seq<TM.ScrapedTweet>, c: Candidate, now: string, i: nat)
    requires |tweets| <= i < |Accept(tweets, c, now)|
    ensures Qualifies(c) && Accept(tweets, c, now)[i] == TweetOf(c, now)
  {
  }

  /** Every tweet a pass adds comes from one of its elements that passes the
      content test. */
  lemma {:induction false} AcceptAllSound(tweets: seq<TM.ScrapedTweet>, cs: seq<Candidate>, now: string, i: nat)
    requires |tweets| <= i < |AcceptAll(tweets, cs, now)|
    ensures exists k :: 0 <= k < |cs| && Qualifies(cs[k]) && AcceptAll(tweets, cs, now)[i] == TweetOf(cs[k], now)
    decreases |cs|
  {
    var next := Accept(tweets, cs[0], now);
    var r := AcceptAll(next, cs[1..], now);
    if i < |next| {
      AcceptAdds(tweets, cs[0], now, i);
      assert r[..|next|][i] == r[i];
      assert Qualifies(cs[0]) && r[i] == TweetOf(cs[0], now);
    } else {
      AcceptAllSound(next, cs[1..], now, i);
      var k :| 0 <= k < |cs[1..]| && Qualifies(cs[1..][k]) && r[i] == TweetOf(cs[1..][k], now);
      assert cs[k + 1] == cs[1..][k];
    }
  }

  /** The whole search returns a well-formed list: every tweet passed the
      content test and no text appears twice. */
  lemma {:induction false} ScrollKeptWell(tweets: seq<TM.ScrapedTweet>, passes: seq<PassRead>, k: nat, max: int, now: string)
    requires KeptWell(tweets)
    ensures KeptWell(ScrollFrom(tweets, passes, k, max, now))
    decreases max - k
  {
    if k < max {
      var p := PassAt(passes, k);
      if p.Elements? {
        AcceptAllKeptWell(tweets, p.candidates, now);
      }
      ScrollKeptWell(PassEffect(tweets, p, now), passes, k + 1, max, now);
    }
  }

  /** Passes at or beyond `max` are never read: the result depends only on
      the first `max` passes. */
  lemma {:induction false} ScrollReadsOnlyBound(tweets: seq<TM.ScrapedTweet>, passes: seq<PassRead>, more: seq<PassRead>, k: nat, max: int, now: string)
    requires max <= |passes|
    ensures ScrollFrom(tweets, passes + more, k, max, now) == ScrollFrom(tweets, passes, k, max, now)
    decreases max - k
  {
    if k < max {
      assert PassAt(passes + more, k) == PassAt(passes, k);
      ScrollReadsOnlyBound(PassEffect(tweets, PassAt(passes, k), now), passes, more, k + 1, max, now);
    }
  }

  // ---------------------------------------------------------------------
  // Output file name
  // ---------------------------------------------------------------------

  /** `k.replace(" ", "_").replace("/", "_")` */
  function CleanKeyword(k: string): (r: string)
    ensures |r| == |k|
    ensures forall i :: 0 <= i < |k| ==> r[i] == (if k[i] == ' ' || k[i] == '/' then '_' else k[i])
  {
    seq(|k|, i requires 0 <= i < |k| => if k[i] == ' ' || k[i] == '/' then '_' else k[i])
  }

  predicate NoSpaceOrSlash(s: string) {
    forall i :: 0 <= i < |s| ==> s[i] != ' ' && s[i] != '/'
  }

  /** `"_".join(...)` of the cleaned keywords. */
  function CleanKeywords(keywords: seq<string>): (r: string)
    ensures keywords == [] ==> r == ""
    ensures |keywords| == 1 ==> r == CleanKeyword(keywords[0])
  {
    Join(seq(|keywords|, i requires 0 <= i < |keywords| => CleanKeyword(keywords[i])), "_")
  }

  /** `get_unique_filename`, with the formatted clock reading and the first
      eight hex digits of the md5 digest as parameters. */
  function UniqueFilename(keywords: seq<string>, timestamp: string, hashId: string): (r: string)
    ensures |r| >= 17 && r[..14] == "tweets_output_" && r[|r| - 3..] == ".md"
  {
    "tweets_output_" + CleanKeywords(keywords) + "_" + timestamp + "_" + hashId + ".md"
  }

  lemma {:induction false} JoinNoSpaceOrSlash(parts: seq<string>)
    requires forall i :: 0 <= i < |parts| ==> NoSpaceOrSlash(parts[i])
    ensures NoSpaceOrSlash(Join(parts, "_"))
    decreases |parts|
  {
    if |parts| > 1 {
      JoinNoSpaceOrSlash(parts[1..]);
      assert NoSpaceOrSlash(parts[0] + "_" + Join(parts[1..], "_"));
    }
  }

  /** The keyword part of the file name holds no space and no slash, and it
      keeps each keyword's length: one `_` per replaced character plus one
      `_` between neighbouring keywords. */
  lemma CleanKeywordsShape(keywords: seq<string>)
    ensures NoSpaceOrSlash(CleanKeywords(keywords))
    ensures |keywords| == 1 ==> CleanKeywords(keywords) == CleanKeyword(keywords[0])
  {
    var parts := seq(|keywords|, i requires 0 <= i < |keywords| => CleanKeyword(keywords[i]));
    JoinNoSpaceOrSlash(parts);
  }

  /** Cleaning is the identity exactly on keywords without space or slash. */
  lemma CleanKeywordFixed(k: string)
    ensures CleanKeyword(k) == k <==> NoSpaceOrSlash(k)
  {
    if CleanKeyword(k) == k {
      forall i | 0 <= i < |k| ensures k[i] != ' ' && k[i] != '/' {
        assert CleanKeyword(k)[i] == k[i];
      }
    }
  }

  /** The name joins two keywords with a single `_`. */
  lemma UniqueFilenameTwo(a: string, b: string, timestamp: string, hashId: string)
    ensures UniqueFilename([a, b], timestamp, hashId)
         == "tweets_output_" + CleanKeyword(a) + "_" + CleanKeyword(b) + "_" + timestamp + "_" + hashId + ".md"
  {
    var parts := seq(2, i requires 0 <= i < 2 => CleanKeyword([a, b][i]));
    assert parts == [CleanKeyword(a), CleanKeyword(b)];
    JoinPair(CleanKeyword(a), CleanKeyword(b), "_");
  }
}
