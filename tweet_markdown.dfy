/** The labelled markdown tweet log: the block writer of
    `python-scraper/scraper_server.py` (`append_tweets_to_file`) and the line
    state machine of `src/app.js` (`readTweetsFromFile`) that reads it back. */
module TweetMarkdown {
  import opened Wrappers
  import opened JsText

  // ---------------------------------------------------------------------
  // Writer side
  // ---------------------------------------------------------------------

  /** An image found in a tweet: `{'url', 'alt', 'type': 'image'}`. */
  datatype Image = Image(url: string, alt: string)

  /** A video or embed found in a tweet: `{'url', 'poster', 'type'}`. */
  datatype Video = Video(url: string, poster: Option<string>, kind: string)

  datatype Media = Media(images: seq<Image>, videos: seq<Video>)

  /** A scraped tweet as the scraper server keeps it; `media` is `None` when
      the key is absent or its value is falsy. */
  datatype ScrapedTweet = ScrapedTweet(author: string, text: string, timestamp: string, media: Option<Media>)

  // The labels shared by the writer and the reader.
  const HeaderTag := "## Tweet"
  const AuthorTag := "**Author:**"
  const TimeTag := "**Time:**"
  const TextTag := "**Text:**"
  const KeywordTag := "**Keyword:**"
  const HandleTag := "**Handle:**"
  const ImagesTag := "**Images:**"
  const VideosTag := "**Videos:**"
  const ImageItem := "- Image "
  const VideoItem := "- Video "
  const TypeOpen := "(type: "

  function ImageLine(j: nat, url: string): string {
    "  " + ImageItem + NatToString(j) + ": " + url
  }

  function VideoLine(j: nat, url: string, kind: string): string {
    "  " + VideoItem + NatToString(j) + ": " + url + " " + TypeOpen + kind + ")"
  }

  function ImageLines(images: seq<Image>, j: nat): (lines: seq<string>)
    ensures |lines| == |images|
  {
    if images == [] then []
    else [ImageLine(j, images[0].url)] + ImageLines(images[1..], j + 1)
  }

  function VideoLines(videos: seq<Video>, j: nat): (lines: seq<string>)
    ensures |lines| == |videos|
  {
    if videos == [] then []
    else [VideoLine(j, videos[0].url, videos[0].kind)] + VideoLines(videos[1..], j + 1)
  }

  function CountLine(tag: string, n: nat): string {
    tag + " " + NatToString(n) + " found"
  }

  function ImageSection(images: seq<Image>): seq<string> {
    if images != [] then [CountLine(ImagesTag, |images|)] + ImageLines(images, 1) else []
  }

  function VideoSection(videos: seq<Video>): seq<string> {
    if videos != [] then [CountLine(VideosTag, |videos|)] + VideoLines(videos, 1) else []
  }

  /** The media section: a counted header and numbered lines per non-empty list. */
  function MediaLines(media: Option<Media>): seq<string> {
    if media.Some? then ImageSection(media.value.images) + VideoSection(media.value.videos) else []
  }

  function HeadLines(i: nat, t: ScrapedTweet, keyword: string): seq<string> {
    [HeaderTag + " " + NatToString(i), AuthorTag + " " + t.author, TimeTag + " " + t.timestamp,
     TextTag + " " + t.text, KeywordTag + " " + keyword]
  }

  /** The Handle line, written only for a truthy handle (the empty string stands for `None`). */
  function HandleLines(handle: string): seq<string> {
    if handle != "" then [HandleTag + " " + handle] else []
  }

  /** The lines of the `i`-th block, ending with the empty line. */
  function BlockLines(i: nat, t: ScrapedTweet, keyword: string, handle: string): seq<string> {
    HeadLines(i, t, keyword) + HandleLines(handle) + MediaLines(t.media) + [""]
  }

  /** The blocks of a batch, numbered from `i`. */
  function BatchLines(tweets: seq<ScrapedTweet>, i: nat, keyword: string, handle: string): seq<string> {
    if tweets == [] then []
    else BlockLines(i, tweets[0], keyword, handle) + BatchLines(tweets[1..], i + 1, keyword, handle)
  }

  /** The text one call of `append_tweets_to_file` adds to the file; numbering restarts at 1. */
  function RenderBatch(tweets: seq<ScrapedTweet>, keyword: string, handle: string): string {
    Terminated(BatchLines(tweets, 1, keyword, handle))
  }

  lemma {:induction false} BatchLinesSnoc(tweets: seq<ScrapedTweet>, t: ScrapedTweet, i: nat, keyword: string, handle: string)
    ensures BatchLines(tweets + [t], i, keyword, handle)
         == BatchLines(tweets, i, keyword, handle) + BlockLines(i + |tweets|, t, keyword, handle)
  {
    if tweets == [] {
      assert tweets + [t] == [t];
    } else {
      assert (tweets + [t])[1..] == tweets[1..] + [t];
      BatchLinesSnoc(tweets[1..], t, i + 1, keyword, handle);
    }
  }

  /** The text of the `i`-th block. */
  function BlockText(i: nat, t: ScrapedTweet, keyword: string, handle: string): string {
    Terminated(BlockLines(i, t, keyword, handle))
  }

  lemma RenderBatchSnoc(tweets: seq<ScrapedTweet>, k: nat, keyword: string, handle: string)
    requires k < |tweets|
    ensures RenderBatch(tweets[..k + 1], keyword, handle)
         == RenderBatch(tweets[..k], keyword, handle) + BlockText(k + 1, tweets[k], keyword, handle)
  {
    assert tweets[..k + 1] == tweets[..k] + [tweets[k]];
    BatchLinesSnoc(tweets[..k], tweets[k], 1, keyword, handle);
    TerminatedAppend(BatchLines(tweets[..k], 1, keyword, handle), BlockLines(k + 1, tweets[k], keyword, handle));
  }

  /** `append_tweets_to_file`: the file grows by one block per tweet, in list
      order, numbered 1, 2, … . */
  method AppendTweetsToFile(file: string, tweets: seq<ScrapedTweet>, keyword: string, handle: string)
    returns (out: string)
    ensures out == file + RenderBatch(tweets, keyword, handle)
  {
    out := file;
    var k := 0;
    while k < |tweets|
      invariant 0 <= k <= |tweets|
      invariant out == file + RenderBatch(tweets[..k], keyword, handle)
    {
      RenderBatchSnoc(tweets, k, keyword, handle);
      out := out + BlockText(k + 1, tweets[k], keyword, handle);
      k := k + 1;
    }
    assert tweets[..k] == tweets;
  }

  // ---------------------------------------------------------------------
  // Reader side
  // ---------------------------------------------------------------------

  datatype MediaRef = MediaRef(url: string, kind: string)

  /** `{ content, keyword, media: { images, videos } }` as the reader builds it. */
  datatype TweetRecord = TweetRecord(content: string, keyword: string, images: seq<MediaRef>, videos: seq<MediaRef>)

  /** The reader's loop variables: the records pushed so far, `currentTweet`,
      `inTweet` and `inTextSection`. */
  datatype ReaderState = ReaderState(tweets: seq<TweetRecord>, current: TweetRecord, inTweet: bool, inText: bool)

  const EmptyRecord := TweetRecord("", "", [], [])
  const Start := ReaderState([], EmptyRecord, false, false)

  /** The records after pushing the current one if it is open and has content. */
  function Flushed(st: ReaderState): seq<TweetRecord> {
    if st.inTweet && Trim(st.current.content) != "" then st.tweets + [st.current] else st.tweets
  }

  /** Length of the run of `\s` characters at the start of `s`. */
  function SpaceRun(s: string): (n: nat)
    ensures n <= |s| && (n < |s| ==> !IsJsSpace(s[n]))
    ensures forall i :: 0 <= i < n ==> IsJsSpace(s[i])
  {
    if s == [] || !IsJsSpace(s[0]) then 0 else 1 + SpaceRun(s[1..])
  }

  /** Length of the run of `\d` characters at the start of `s`. */
  function DigitRun(s: string): (n: nat)
    ensures n <= |s| && (n < |s| ==> !IsDigit(s[n]))
    ensures forall i :: 0 <= i < n ==> IsDigit(s[i])
  {
    if s == [] || !IsDigit(s[0]) then 0 else 1 + DigitRun(s[1..])
  }

  /** The optional group `\s+\(type: (.+)\)` followed by `$`, matched against
      the whole of `s`; the captured type on success. */
  function TypeSuffix(s: string): (r: Option<string>)
    ensures r.Some? ==> r.value != [] && NoLineTerminator(r.value)
  {
    var w := SpaceRun(s);
    var u := s[w..];
    if w > 0 && |u| >= 9 && StartsWith(u, TypeOpen) && u[|u| - 1] == ')' && NoLineTerminator(u[7..|u| - 1])
    then Some(u[7..|u| - 1]) else None
  }

  /** The lazy `(.+?)` of the media pattern: the shortest url of length at
      least `n` after which the optional type group, or the end, follows. */
  function LazyUrl(r: string, n: nat): (m: Option<(string, Option<string>)>)
    requires 1 <= n <= |r|
    decreases |r| - n
  {
    if IsLineTerminator(r[n - 1]) then None
    else
      var ty := TypeSuffix(r[n..]);
      if ty.Some? then Some((r[..n], ty))
      else if n == |r| then Some((r, None))
      else LazyUrl(r, n + 1)
  }

  /** `/^- (Image|Video) \d+: (.+?)(?:\s+\(type: (.+)\))?$/` on a line that
      starts with "- Image " or "- Video ": the media reference it yields. */
  function MediaOfLine(t: string): (m: Option<MediaRef>)
    requires StartsWith(t, ImageItem) || StartsWith(t, VideoItem)
  {
    var rest := t[8..];
    var d := DigitRun(rest);
    if d == 0 || !StartsWith(rest[d..], ": ") || |rest[d..]| == 2 then None
    else
      var m := LazyUrl(rest[d + 2..], 1);
      if m.None? then None
      else if StartsWith(t, ImageItem) then Some(MediaRef(m.value.0, "image"))
      else Some(MediaRef(m.value.0, if m.value.1.Some? then m.value.1.value else "video"))
  }

  /** One iteration of the reader's loop on a raw line. */
  function Step(st: ReaderState, line: string): ReaderState {
    var t := Trim(line);
    if t == "" then st
    else if StartsWith(t, HeaderTag) then ReaderState(Flushed(st), EmptyRecord, true, false)
    else if !st.inTweet then st
    else if StartsWith(t, AuthorTag) || StartsWith(t, TimeTag) then st
    else if StartsWith(t, TextTag) then
      // `replace` drops the first occurrence of the tag, which is the leading one
      st.(current := st.current.(content := Trim(t[|TextTag|..])), inText := true)
    else if StartsWith(t, KeywordTag) then
      st.(current := st.current.(keyword := Trim(t[|KeywordTag|..])), inText := false)
    else if StartsWith(t, ImagesTag) || StartsWith(t, VideosTag) then st.(inText := false)
    else if StartsWith(t, ImageItem) || StartsWith(t, VideoItem) then MediaStep(st, t)
    else if st.inText && !StartsWith(t, "**") then
      st.(current := st.current.(content := st.current.content + " " + t))
    else st
  }

  /** A media line closes the text section and appends what the pattern captures. */
  function MediaStep(st: ReaderState, t: string): ReaderState
    requires StartsWith(t, ImageItem) || StartsWith(t, VideoItem)
  {
    var m := MediaOfLine(t);
    if m.None? then st.(inText := false)
    else if StartsWith(t, ImageItem) then st.(current := st.current.(images := st.current.images + [m.value]), inText := false)
    else st.(current := st.current.(videos := st.current.videos + [m.value]), inText := false)
  }

  /** The loop run over a sequence of lines. */
  function RunFrom(st: ReaderState, lines: seq<string>): ReaderState
    decreases |lines|
  {
    if lines == [] then st else RunFrom(Step(st, lines[0]), lines[1..])
  }

  /** What `readTweetsFromFile` returns for a file (`None`: the file does not exist). */
  function ParseTweetsFile(file: Option<string>): seq<TweetRecord> {
    if file.None? then [] else Flushed(RunFrom(Start, Split(file.value)))
  }

  lemma {:induction false} RunFromAppend(st: ReaderState, a: seq<string>, b: seq<string>)
    ensures RunFrom(st, a + b) == RunFrom(RunFrom(st, a), b)
    decreases |a|
  {
    if a == [] {
      assert a + b == b;
    } else {
      assert (a + b)[1..] == a[1..] + b;
      RunFromAppend(Step(st, a[0]), a[1..], b);
    }
  }

  lemma RunFromSnoc(st: ReaderState, lines: seq<string>, line: string)
    ensures RunFrom(st, lines + [line]) == Step(RunFrom(st, lines), line)
  {
    RunFromAppend(st, lines, [line]);
  }

  /** The body of the reader's loop: the loop variables (`tweets`,
      `currentTweet`, `inTweet`, `inTextSection`) after one raw line. */
  method ReadLine(st: ReaderState, line: string) returns (st': ReaderState)
    ensures st' == Step(st, line)
  {
    st' := st;
    var trimmed := Trim(line);
    if trimmed == "" {
      return;
    }
    if StartsWith(trimmed, HeaderTag) {
      var tweets := st.tweets;
      if st.inTweet && Trim(st.current.content) != "" {
        tweets := tweets + [st.current];
      }
      st' := ReaderState(tweets, EmptyRecord, true, false);
      return;
    }
    if !st.inTweet {
      return;
    }
    if StartsWith(trimmed, AuthorTag) {
      return;
    } else if StartsWith(trimmed, TimeTag) {
      return;
    } else if StartsWith(trimmed, TextTag) {
      st' := st.(current := st.current.(content := Trim(trimmed[|TextTag|..])), inText := true);
    } else if StartsWith(trimmed, KeywordTag) {
      st' := st.(current := st.current.(keyword := Trim(trimmed[|KeywordTag|..])), inText := false);
    } else if StartsWith(trimmed, ImagesTag) {
      st' := st.(inText := false);
    } else if StartsWith(trimmed, VideosTag) {
      st' := st.(inText := false);
    } else if StartsWith(trimmed, ImageItem) || StartsWith(trimmed, VideoItem) {
      st' := st.(inText := false);
      var m := MediaOfLine(trimmed);
      if m.Some? {
        if StartsWith(trimmed, ImageItem) {
          st' := st'.(current := st.current.(images := st.current.images + [m.value]));
        } else {
          st' := st'.(current := st.current.(videos := st.current.videos + [m.value]));
        }
      }
    } else if st.inText && !StartsWith(trimmed, "**") {
      st' := st.(current := st.current.(content := st.current.content + " " + trimmed));
    }
  }

  /** The reader's loop over all lines of the file. */
  method ReadLines(lines: seq<string>) returns (st: ReaderState)
    ensures st == RunFrom(Start, lines)
  {
    st := Start;
    var i := 0;
    while i < |lines|
      invariant 0 <= i <= |lines|
      invariant st == RunFrom(Start, lines[..i])
    {
      RunFromSnoc(Start, lines[..i], lines[i]);
      assert lines[..i + 1] == lines[..i] + [lines[i]];
      st := ReadLine(st, lines[i]);
      i := i + 1;
    }
    assert lines[..i] == lines;
  }

  /** `readTweetsFromFile`: one pass over the lines, pushing a record
      whenever a new header or the end of the file closes one with content;
      a missing file reads as no records. */
  method ReadTweetsFromFile(file: Option<string>) returns (tweets: seq<TweetRecord>)
    ensures tweets == ParseTweetsFile(file)
  {
    if file.None? {
      return [];
    }
    var st := ReadLines(Split(file.value));
    tweets := st.tweets;
    if st.inTweet && Trim(st.current.content) != "" {
      tweets := tweets + [st.current];
    }
  }

  /** Every record the reader returns has content that is not blank. */
  lemma {:induction false} RecordsHaveContent(st: ReaderState, lines: seq<string>)
    requires forall k :: 0 <= k < |st.tweets| ==> Trim(st.tweets[k].content) != ""
    ensures forall k :: 0 <= k < |Flushed(RunFrom(st, lines))| ==> Trim(Flushed(RunFrom(st, lines))[k].content) != ""
    decreases |lines|
  {
    if lines != [] {
      RecordsHaveContent(Step(st, lines[0]), lines[1..]);
    }
  }

  // ---------------------------------------------------------------------
  // Round trip
  // ---------------------------------------------------------------------


  predicate WritableImages(images: seq<Image>) {
    forall k :: 0 <= k < |images| ==> images[k].url != [] && NoJsSpace(images[k].url)
  }

  predicate WritableVideos(videos: seq<Video>) {
    forall k :: 0 <= k < |videos| ==>
      videos[k].url != [] && NoJsSpace(videos[k].url) &&
      videos[k].kind != [] && NoLineTerminator(videos[k].kind)
  }

  /** What the writer needs for its blocks to read back field by field: no
      field breaks its line, media urls carry no whitespace and video types
      are non-empty single-line strings. */
  predicate Writable(t: ScrapedTweet) {
    NoNewline(t.author) && NoNewline(t.timestamp) && NoNewline(t.text) &&
    (t.media.Some? ==> WritableImages(t.media.value.images) && WritableVideos(t.media.value.videos))
  }

  function ImageRefs(images: seq<Image>): (refs: seq<MediaRef>)
    ensures |refs| == |images|
    ensures forall k :: 0 <= k < |images| ==> refs[k] == MediaRef(images[k].url, "image")
  {
    if images == [] then [] else [MediaRef(images[0].url, "image")] + ImageRefs(images[1..])
  }

  function VideoRefs(videos: seq<Video>): (refs: seq<MediaRef>)
    ensures |refs| == |videos|
    ensures forall k :: 0 <= k < |videos| ==> refs[k] == MediaRef(videos[k].url, videos[k].kind)
  {
    if videos == [] then [] else [MediaRef(videos[0].url, videos[0].kind)] + VideoRefs(videos[1..])
  }

  /** The record a written block should read back as. */
  function Recovered(t: ScrapedTweet, keyword: string): TweetRecord {
    TweetRecord(Trim(t.text), Trim(keyword),
      if t.media.Some? then ImageRefs(t.media.value.images) else [],
      if t.media.Some? then VideoRefs(t.media.value.videos) else [])
  }

  /** The records a written batch should read back as: one per tweet whose
      text is not blank, in order. */
  function Expected(tweets: seq<ScrapedTweet>, keyword: string): seq<TweetRecord> {
    if tweets == [] then []
    else
      var first := if Trim(tweets[0].text) != "" then [Recovered(tweets[0], keyword)] else [];
      first + Expected(tweets[1..], keyword)
  }

  lemma RunFromCons(st: ReaderState, line: string, rest: seq<string>)
    ensures RunFrom(st, [line] + rest) == RunFrom(Step(st, line), rest)
  {
    assert ([line] + rest)[1..] == rest;
  }

  /** A label that begins and ends with a non-space character survives
      `trim` at the head of a line, and the value after it trims as it would
      on its own. */
  lemma TaggedLine(tag: string, v: string)
    requires tag != [] && !IsJsSpace(tag[0]) && !IsJsSpace(tag[|tag| - 1])
    ensures Trim(tag + v) == tag + TrimEnd(v)
    ensures StartsWith(Trim(tag + v), tag)
    ensures Trim(Trim(tag + v)[|tag|..]) == Trim(v)
  {
    assert (tag + v)[0] == tag[0];
    TrimEndAfterTag(tag, v);
    StartsWithAppend(tag, TrimEnd(v));
    assert (tag + TrimEnd(v))[|tag|..] == TrimEnd(v);
    TrimOfTrimEnd(v);
  }

  /** A single leading space is invisible to `trim`. */
  lemma TrimSpaceValue(v: string)
    ensures Trim(" " + v) == Trim(v)
  {
    assert (" " + v)[1..] == v;
  }

  // Each written line is handled in three steps: the facts that `trim` and
  // the prefix tests establish about the line, what one reader step does
  // with any line showing those facts, and the two put together.

  /** The facts the reader's tests see on a line made of a tag, a space and a value. */
  lemma TaggedFacts(tag: string, v: string)
    requires tag != [] && !IsJsSpace(tag[0]) && !IsJsSpace(tag[|tag| - 1])
    ensures StartsWith(Trim(tag + " " + v), tag)
    ensures Trim(Trim(tag + " " + v)[|tag|..]) == Trim(v)
  {
    var w := " " + v;
    assert tag + " " + v == tag + w;
    TaggedLine(tag, w);
    TrimSpaceValue(v);
  }

  lemma StepHeader(st: ReaderState, line: string)
    requires StartsWith(Trim(line), HeaderTag)
    ensures Step(st, line) == ReaderState(Flushed(st), EmptyRecord, true, false)
  {
  }

  lemma HeaderLineEffect(st: ReaderState, i: nat)
    ensures Step(st, HeaderTag + " " + NatToString(i)) == ReaderState(Flushed(st), EmptyRecord, true, false)
  {
    TaggedFacts(HeaderTag, NatToString(i));
    StepHeader(st, HeaderTag + " " + NatToString(i));
  }

  lemma SkippedFacts(tag: string, v: string)
    requires tag == AuthorTag || tag == TimeTag
    ensures StartsWith(Trim(tag + " " + v), tag)
    ensures !StartsWith(Trim(tag + " " + v), HeaderTag)
  {
    TaggedFacts(tag, v);
    PrefixesClash(Trim(tag + " " + v), tag, HeaderTag, 0);
  }

  lemma StepSkipped(st: ReaderState, line: string)
    requires st.inTweet
    requires StartsWith(Trim(line), AuthorTag) || StartsWith(Trim(line), TimeTag)
    requires !StartsWith(Trim(line), HeaderTag)
    ensures Step(st, line) == st
  {
  }

  /** Author and Time lines leave the reader as it was. */
  lemma SkippedLineEffect(st: ReaderState, tag: string, v: string)
    requires st.inTweet
    requires tag == AuthorTag || tag == TimeTag
    ensures Step(st, tag + " " + v) == st
  {
    SkippedFacts(tag, v);
    StepSkipped(st, tag + " " + v);
  }

  lemma TextFacts(text: string)
    ensures StartsWith(Trim(TextTag + " " + text), TextTag)
    ensures !StartsWith(Trim(TextTag + " " + text), HeaderTag)
    ensures !StartsWith(Trim(TextTag + " " + text), AuthorTag)
    ensures !StartsWith(Trim(TextTag + " " + text), TimeTag)
    ensures Trim(Trim(TextTag + " " + text)[|TextTag|..]) == Trim(text)
  {
    TaggedFacts(TextTag, text);
    var t := Trim(TextTag + " " + text);
    PrefixesClash(t, TextTag, HeaderTag, 0);
    PrefixesClash(t, TextTag, AuthorTag, 2);
    PrefixesClash(t, TextTag, TimeTag, 3);
  }

  lemma StepText(st: ReaderState, line: string)
    requires st.inTweet
    requires StartsWith(Trim(line), TextTag)
    requires !StartsWith(Trim(line), HeaderTag) && !StartsWith(Trim(line), AuthorTag)
    requires !StartsWith(Trim(line), TimeTag)
    ensures Step(st, line) == st.(current := st.current.(content := Trim(Trim(line)[|TextTag|..])), inText := true)
  {
  }

  lemma TextLineEffect(st: ReaderState, text: string)
    requires st.inTweet
    ensures Step(st, TextTag + " " + text)
         == st.(current := st.current.(content := Trim(text)), inText := true)
  {
    TextFacts(text);
    StepText(st, TextTag + " " + text);
  }

  lemma KeywordFacts(keyword: string)
    ensures StartsWith(Trim(KeywordTag + " " + keyword), KeywordTag)
    ensures !StartsWith(Trim(KeywordTag + " " + keyword), HeaderTag)
    ensures !StartsWith(Trim(KeywordTag + " " + keyword), AuthorTag)
    ensures !StartsWith(Trim(KeywordTag + " " + keyword), TimeTag)
    ensures !StartsWith(Trim(KeywordTag + " " + keyword), TextTag)
    ensures Trim(Trim(KeywordTag + " " + keyword)[|KeywordTag|..]) == Trim(keyword)
  {
    TaggedFacts(KeywordTag, keyword);
    var t := Trim(KeywordTag + " " + keyword);
    PrefixesClash(t, KeywordTag, HeaderTag, 0);
    PrefixesClash(t, KeywordTag, AuthorTag, 2);
    PrefixesClash(t, KeywordTag, TimeTag, 2);
    PrefixesClash(t, KeywordTag, TextTag, 2);
  }

  lemma StepKeyword(st: ReaderState, line: string)
    requires st.inTweet
    requires StartsWith(Trim(line), KeywordTag)
    requires !StartsWith(Trim(line), HeaderTag) && !StartsWith(Trim(line), AuthorTag)
    requires !StartsWith(Trim(line), TimeTag) && !StartsWith(Trim(line), TextTag)
    ensures Step(st, line) == st.(current := st.current.(keyword := Trim(Trim(line)[|KeywordTag|..])), inText := false)
  {
  }

  lemma KeywordLineEffect(st: ReaderState, keyword: string)
    requires st.inTweet
    ensures Step(st, KeywordTag + " " + keyword)
         == st.(current := st.current.(keyword := Trim(keyword)), inText := false)
  {
    KeywordFacts(keyword);
    StepKeyword(st, KeywordTag + " " + keyword);
  }

  /** No test before the final one accepts the Handle line. */
  lemma HandleFacts(handle: string)
    ensures Trim(HandleTag + " " + handle) != ""
    ensures !StartsWith(Trim(HandleTag + " " + handle), HeaderTag)
    ensures !StartsWith(Trim(HandleTag + " " + handle), AuthorTag)
    ensures !StartsWith(Trim(HandleTag + " " + handle), TimeTag)
    ensures !StartsWith(Trim(HandleTag + " " + handle), TextTag)
    ensures !StartsWith(Trim(HandleTag + " " + handle), KeywordTag)
    ensures !StartsWith(Trim(HandleTag + " " + handle), ImagesTag)
    ensures !StartsWith(Trim(HandleTag + " " + handle), VideosTag)
    ensures !StartsWith(Trim(HandleTag + " " + handle), ImageItem)
    ensures !StartsWith(Trim(HandleTag + " " + handle), VideoItem)
  {
    TaggedFacts(HandleTag, handle);
    var t := Trim(HandleTag + " " + handle);
    PrefixesClash(t, HandleTag, HeaderTag, 0);
    PrefixesClash(t, HandleTag, AuthorTag, 2);
    PrefixesClash(t, HandleTag, TimeTag, 2);
    PrefixesClash(t, HandleTag, TextTag, 2);
    PrefixesClash(t, HandleTag, KeywordTag, 2);
    PrefixesClash(t, HandleTag, ImagesTag, 2);
    PrefixesClash(t, HandleTag, VideosTag, 2);
    PrefixesClash(t, HandleTag, ImageItem, 0);
    PrefixesClash(t, HandleTag, VideoItem, 0);
  }

  /** Outside the text section a line that no test accepts is ignored. */
  lemma StepUnlabelled(st: ReaderState, line: string)
    requires st.inTweet && !st.inText && Trim(line) != ""
    requires !StartsWith(Trim(line), HeaderTag) && !StartsWith(Trim(line), AuthorTag)
    requires !StartsWith(Trim(line), TimeTag) && !StartsWith(Trim(line), TextTag)
    requires !StartsWith(Trim(line), KeywordTag) && !StartsWith(Trim(line), ImagesTag)
    requires !StartsWith(Trim(line), VideosTag) && !StartsWith(Trim(line), ImageItem)
    requires !StartsWith(Trim(line), VideoItem)
    ensures Step(st, line) == st
  {
  }

  /** Outside the text section the Handle line is ignored. */
  lemma HandleLineEffect(st: ReaderState, handle: string)
    requires st.inTweet && !st.inText
    ensures Step(st, HandleTag + " " + handle) == st
  {
    HandleFacts(handle);
    StepUnlabelled(st, HandleTag + " " + handle);
  }

  lemma CountFacts(tag: string, n: nat)
    requires tag == ImagesTag || tag == VideosTag
    ensures StartsWith(Trim(CountLine(tag, n)), ImagesTag) || StartsWith(Trim(CountLine(tag, n)), VideosTag)
    ensures !StartsWith(Trim(CountLine(tag, n)), HeaderTag)
    ensures !StartsWith(Trim(CountLine(tag, n)), AuthorTag)
    ensures !StartsWith(Trim(CountLine(tag, n)), TimeTag)
    ensures !StartsWith(Trim(CountLine(tag, n)), TextTag)
    ensures !StartsWith(Trim(CountLine(tag, n)), KeywordTag)
  {
    var v := NatToString(n) + " found";
    assert CountLine(tag, n) == tag + " " + v;
    TaggedFacts(tag, v);
    CountTagClash(Trim(tag + " " + v), tag);
  }

  /** A line that starts with a count label starts with no other label. */
  lemma CountTagClash(t: string, tag: string)
    requires tag == ImagesTag || tag == VideosTag
    requires StartsWith(t, tag)
    ensures !StartsWith(t, HeaderTag) && !StartsWith(t, AuthorTag) && !StartsWith(t, TimeTag)
    ensures !StartsWith(t, TextTag) && !StartsWith(t, KeywordTag)
  {
    PrefixesClash(t, tag, HeaderTag, 0);
    PrefixesClash(t, tag, AuthorTag, 2);
    PrefixesClash(t, tag, TimeTag, 2);
    PrefixesClash(t, tag, TextTag, 2);
    PrefixesClash(t, tag, KeywordTag, 2);
  }

  lemma StepCount(st: ReaderState, line: string)
    requires st.inTweet
    requires StartsWith(Trim(line), ImagesTag) || StartsWith(Trim(line), VideosTag)
    requires !StartsWith(Trim(line), HeaderTag) && !StartsWith(Trim(line), AuthorTag)
    requires !StartsWith(Trim(line), TimeTag) && !StartsWith(Trim(line), TextTag)
    requires !StartsWith(Trim(line), KeywordTag)
    ensures Step(st, line) == st.(inText := false)
  {
  }

  /** The `**Images:** N found` and `**Videos:** N found` lines close the text section. */
  lemma CountLineEffect(st: ReaderState, tag: string, n: nat)
    requires st.inTweet
    requires tag == ImagesTag || tag == VideosTag
    ensures Step(st, CountLine(tag, n)) == st.(inText := false)
  {
    CountFacts(tag, n);
    StepCount(st, CountLine(tag, n));
  }

  /** A run of `\d` stops exactly where the digits of a formatted number end. */
  lemma DigitRunPrefix(d: string, s: string)
    requires AllDigits(d) && s != [] && !IsDigit(s[0])
    ensures DigitRun(d + s) == |d|
  {
    assert (d + s)[|d|] == s[0];
    assert forall k :: 0 <= k < |d| ==> (d + s)[k] == d[k];
  }

  /** A url without whitespace never leaves room for the type group, so the
      lazy capture takes all of it. */
  lemma {:induction false} LazyUrlPlain(r: string, n: nat)
    requires 1 <= n <= |r| && NoJsSpace(r)
    ensures LazyUrl(r, n) == Some((r, None))
    decreases |r| - n
  {
    assert !IsJsSpace(r[n - 1]);
    if n < |r| {
      assert r[n..][0] == r[n];
      LazyUrlPlain(r, n + 1);
    } else {
      assert r[..n] == r;
    }
  }

  /** The suffix the writer puts after a video url is the type group. */
  lemma TypeSuffixOfWritten(kind: string)
    requires kind != [] && NoLineTerminator(kind)
    ensures TypeSuffix(" " + TypeOpen + kind + ")") == Some(kind)
  {
    var s := " " + TypeOpen + kind + ")";
    var u := TypeOpen + (kind + ")");
    assert s[1..] == u by { assert s == " " + u; }
    assert SpaceRun(s) == 1 by { assert SpaceRun(u) == 0 by { assert u[0] == '('; } }
    assert StartsWith(u, TypeOpen) && u[|u| - 1] == ')' by { StartsWithAppend(TypeOpen, kind + ")"); }
    assert u[7..|u| - 1] == kind;
  }

  /** The lazy url stops right before a type group that ends the line. */
  lemma {:induction false} LazyUrlBefore(url: string, sfx: string, kind: string, n: nat)
    requires 1 <= n <= |url| && NoJsSpace(url)
    requires TypeSuffix(sfx) == Some(kind)
    ensures LazyUrl(url + sfx, n) == Some((url, Some(kind)))
    decreases |url| - n
  {
    var r := url + sfx;
    assert r[n - 1] == url[n - 1];
    if n < |url| {
      assert r[n..][0] == url[n];
      LazyUrlBefore(url, sfx, kind, n + 1);
    } else {
      assert r[..n] == url;
      assert r[n..] == sfx;
    }
  }

  /** On a written video line the lazy url stops right before the type group. */
  lemma LazyUrlTyped(url: string, kind: string)
    requires url != [] && NoJsSpace(url)
    requires kind != [] && NoLineTerminator(kind)
    ensures LazyUrl(url + " " + TypeOpen + kind + ")", 1) == Some((url, Some(kind)))
  {
    var sfx := " " + TypeOpen + kind + ")";
    assert url + " " + TypeOpen + kind + ")" == url + sfx;
    TypeSuffixOfWritten(kind);
    LazyUrlBefore(url, sfx, kind, 1);
  }

  /** What the media pattern yields once the digits, the `": "` and the
      lazy url have been located. */
  lemma MediaOfLineFrom(t: string, n: nat, r: string, url: string, kind: Option<string>)
    requires StartsWith(t, ImageItem) || StartsWith(t, VideoItem)
    requires n > 0 && DigitRun(t[8..]) == n && t[8..][n..] == ": " + r && r != []
    requires LazyUrl(r, 1) == Some((url, kind))
    ensures MediaOfLine(t) == Some(MediaRef(url,
      if StartsWith(t, ImageItem) then "image" else if kind.Some? then kind.value else "video"))
  {
    StartsWithAppend(": ", r);
    assert t[8..][n..][2..] == r;
  }

  lemma MediaOfImageLine(j: nat, url: string)
    requires url != [] && NoJsSpace(url)
    ensures StartsWith(ImageItem + NatToString(j) + ": " + url, ImageItem)
    ensures MediaOfLine(ImageItem + NatToString(j) + ": " + url) == Some(MediaRef(url, "image"))
  {
    var d := NatToString(j);
    var x := ImageItem + d + ": " + url;
    assert x == ImageItem + (d + ": " + url);
    StartsWithAppend(ImageItem, d + ": " + url);
    assert x[8..] == d + (": " + url);
    DigitRunPrefix(d, ": " + url);
    assert x[8..][|d|..] == ": " + url;
    LazyUrlPlain(url, 1);
    MediaOfLineFrom(x, |d|, url, url, None);
  }

  lemma MediaOfVideoLine(j: nat, url: string, kind: string)
    requires url != [] && NoJsSpace(url)
    requires kind != [] && NoLineTerminator(kind)
    ensures StartsWith(VideoItem + NatToString(j) + ": " + url + " " + TypeOpen + kind + ")", VideoItem)
    ensures !StartsWith(VideoItem + NatToString(j) + ": " + url + " " + TypeOpen + kind + ")", ImageItem)
    ensures MediaOfLine(VideoItem + NatToString(j) + ": " + url + " " + TypeOpen + kind + ")")
         == Some(MediaRef(url, kind))
  {
    var d := NatToString(j);
    var r := url + " " + TypeOpen + kind + ")";
    var x := VideoItem + d + ": " + url + " " + TypeOpen + kind + ")";
    VideoLineShape(d, url, kind);
    StartsWithAppend(VideoItem, d + ": " + r);
    PrefixesClash(x, VideoItem, ImageItem, 2);
    DigitRunPrefix(d, ": " + r);
    LazyUrlTyped(url, kind);
    MediaOfLineFrom(x, |d|, r, url, Some(kind));
  }

  /** How a written video line splits into its parts. */
  lemma VideoLineShape(d: string, url: string, kind: string)
    ensures var r := url + " " + TypeOpen + kind + ")";
      var x := VideoItem + d + ": " + url + " " + TypeOpen + kind + ")";
      x == VideoItem + (d + ": " + r) && x[8..] == d + (": " + r) && x[8..][|d|..] == ": " + r
  {
    var r := url + " " + TypeOpen + kind + ")";
    var x := VideoItem + d + ": " + url + " " + TypeOpen + kind + ")";
    assert x == VideoItem + (d + ": " + r);
    assert x[8..] == d + (": " + r);
  }

  /** `trim` on a written media line only drops the two-space indent. */
  lemma IndentedTrim(x: string)
    requires x != [] && x[0] == '-' && !IsJsSpace(x[|x| - 1])
    ensures Trim("  " + x) == x
  {
    assert "  " + x == " " + (" " + x);
    TrimSpaceValue(" " + x);
    TrimSpaceValue(x);
    assert Trim(x) == TrimEnd(x);
    TrimEndOfTrimmed(x);
  }

  /** A media line starts with a dash, which none of the labels does. */
  lemma DashFacts(x: string)
    requires x != [] && x[0] == '-'
    ensures !StartsWith(x, HeaderTag) && !StartsWith(x, AuthorTag) && !StartsWith(x, TimeTag)
    ensures !StartsWith(x, TextTag) && !StartsWith(x, KeywordTag)
    ensures !StartsWith(x, ImagesTag) && !StartsWith(x, VideosTag)
  {
  }

  lemma ImageLineFacts(j: nat, url: string)
    requires url != [] && NoJsSpace(url)
    ensures Trim(ImageLine(j, url)) == ImageItem + NatToString(j) + ": " + url
    ensures MediaOfLine(ImageItem + NatToString(j) + ": " + url) == Some(MediaRef(url, "image"))
  {
    var x := ImageItem + NatToString(j) + ": " + url;
    assert ImageLine(j, url) == "  " + x;
    assert x[|x| - 1] == url[|url| - 1];
    IndentedTrim(x);
    MediaOfImageLine(j, url);
  }

  lemma StepImage(st: ReaderState, line: string, ref: MediaRef)
    requires st.inTweet
    requires Trim(line) != [] && Trim(line)[0] == '-' && StartsWith(Trim(line), ImageItem)
    requires MediaOfLine(Trim(line)) == Some(ref)
    ensures Step(st, line) == st.(current := st.current.(images := st.current.images + [ref]), inText := false)
  {
    DashFacts(Trim(line));
  }

  lemma VideoLineFacts(j: nat, url: string, kind: string)
    requires url != [] && NoJsSpace(url)
    requires kind != [] && NoLineTerminator(kind)
    ensures Trim(VideoLine(j, url, kind)) == VideoItem + NatToString(j) + ": " + url + " " + TypeOpen + kind + ")"
  {
    var x := VideoItem + NatToString(j) + ": " + url + " " + TypeOpen + kind + ")";
    assert VideoLine(j, url, kind) == "  " + x;
    IndentedTrim(x);
  }

  lemma StepVideo(st: ReaderState, line: string, ref: MediaRef)
    requires st.inTweet
    requires Trim(line) != [] && Trim(line)[0] == '-'
    requires StartsWith(Trim(line), VideoItem) && !StartsWith(Trim(line), ImageItem)
    requires MediaOfLine(Trim(line)) == Some(ref)
    ensures Step(st, line) == st.(current := st.current.(videos := st.current.videos + [ref]), inText := false)
  {
    DashFacts(Trim(line));
  }

  lemma SnocRest(a: seq<MediaRef>, refs: seq<MediaRef>)
    requires refs != []
    ensures a + [refs[0]] + refs[1..] == a + refs
  {
    assert [refs[0]] + refs[1..] == refs;
  }

  /** A line the reader takes as an image item yielding `ref`. */
  predicate ImageItemLine(line: string, ref: MediaRef) {
    var t := Trim(line);
    t != [] && t[0] == '-' && StartsWith(t, ImageItem) && MediaOfLine(t) == Some(ref)
  }

  lemma ImageLineIsItem(j: nat, url: string)
    requires url != [] && NoJsSpace(url)
    ensures ImageItemLine(ImageLine(j, url), MediaRef(url, "image"))
  {
    ImageLineFacts(j, url);
    MediaOfImageLine(j, url);
  }

  lemma {:induction false} ImageLinesAt(images: seq<Image>, j: nat)
    ensures forall k :: 0 <= k < |images| ==> ImageLines(images, j)[k] == ImageLine(j + k, images[k].url)
    decreases |images|
  {
    if images != [] {
      ImageLinesAt(images[1..], j + 1);
    }
  }

  lemma ImageLinesAreItems(images: seq<Image>, j: nat)
    requires WritableImages(images)
    ensures forall k :: 0 <= k < |images| ==> ImageItemLine(ImageLines(images, j)[k], ImageRefs(images)[k])
  {
    var lines, refs := ImageLines(images, j), ImageRefs(images);
    ImageLinesAt(images, j);
    forall k | 0 <= k < |images| ensures ImageItemLine(lines[k], refs[k]) {
      assert lines[k] == ImageLine(j + k, images[k].url);
      assert refs[k] == MediaRef(images[k].url, "image");
      ImageLineIsItem(j + k, images[k].url);
    }
  }

  /** Image items read one after another append their references in order. */
  lemma {:induction false} ImageItemsEffect(st: ReaderState, lines: seq<string>, refs: seq<MediaRef>)
    requires st.inTweet && !st.inText && |lines| == |refs|
    requires forall k :: 0 <= k < |lines| ==> ImageItemLine(lines[k], refs[k])
    ensures RunFrom(st, lines) == st.(current := st.current.(images := st.current.images + refs))
    decreases |lines|
  {
    if lines == [] {
      assert st.current.images + refs == st.current.images;
    } else {
      assert ImageItemLine(lines[0], refs[0]);
      StepImage(st, lines[0], refs[0]);
      var st' := st.(current := st.current.(images := st.current.images + [refs[0]]));
      ImageItemsEffect(st', lines[1..], refs[1..]);
      SnocRest(st.current.images, refs);
    }
  }

  lemma ImageLinesEffect(st: ReaderState, images: seq<Image>, j: nat)
    requires st.inTweet && !st.inText && WritableImages(images)
    ensures RunFrom(st, ImageLines(images, j))
         == st.(current := st.current.(images := st.current.images + ImageRefs(images)))
  {
    ImageLinesAreItems(images, j);
    ImageItemsEffect(st, ImageLines(images, j), ImageRefs(images));
  }

  /** A line the reader takes as a video item yielding `ref`. */
  predicate VideoItemLine(line: string, ref: MediaRef) {
    var t := Trim(line);
    t != [] && t[0] == '-' && StartsWith(t, VideoItem) && !StartsWith(t, ImageItem) && MediaOfLine(t) == Some(ref)
  }

  lemma VideoLineIsItem(j: nat, url: string, kind: string)
    requires url != [] && NoJsSpace(url)
    requires kind != [] && NoLineTerminator(kind)
    ensures VideoItemLine(VideoLine(j, url, kind), MediaRef(url, kind))
  {
    VideoLineFacts(j, url, kind);
    MediaOfVideoLine(j, url, kind);
  }

  lemma {:induction false} VideoLinesAt(videos: seq<Video>, j: nat)
    ensures forall k :: 0 <= k < |videos| ==>
      VideoLines(videos, j)[k] == VideoLine(j + k, videos[k].url, videos[k].kind)
    decreases |videos|
  {
    if videos != [] {
      VideoLinesAt(videos[1..], j + 1);
    }
  }

  lemma VideoLinesAreItems(videos: seq<Video>, j: nat)
    requires WritableVideos(videos)
    ensures forall k :: 0 <= k < |videos| ==> VideoItemLine(VideoLines(videos, j)[k], VideoRefs(videos)[k])
  {
    VideoLinesAt(videos, j);
    forall k | 0 <= k < |videos| ensures VideoItemLine(VideoLines(videos, j)[k], VideoRefs(videos)[k]) {
      VideoLineIsItem(j + k, videos[k].url, videos[k].kind);
    }
  }

  /** Video items read one after another append their references in order. */
  lemma {:induction false} VideoItemsEffect(st: ReaderState, lines: seq<string>, refs: seq<MediaRef>)
    requires st.inTweet && !st.inText && |lines| == |refs|
    requires forall k :: 0 <= k < |lines| ==> VideoItemLine(lines[k], refs[k])
    ensures RunFrom(st, lines) == st.(current := st.current.(videos := st.current.videos + refs))
    decreases |lines|
  {
    if lines == [] {
      assert st.current.videos + refs == st.current.videos;
    } else {
      assert VideoItemLine(lines[0], refs[0]);
      StepVideo(st, lines[0], refs[0]);
      var st' := st.(current := st.current.(videos := st.current.videos + [refs[0]]));
      VideoItemsEffect(st', lines[1..], refs[1..]);
      SnocRest(st.current.videos, refs);
    }
  }

  lemma VideoLinesEffect(st: ReaderState, videos: seq<Video>, j: nat)
    requires st.inTweet && !st.inText && WritableVideos(videos)
    ensures RunFrom(st, VideoLines(videos, j))
         == st.(current := st.current.(videos := st.current.videos + VideoRefs(videos)))
  {
    VideoLinesAreItems(videos, j);
    VideoItemsEffect(st, VideoLines(videos, j), VideoRefs(videos));
  }

  lemma ImageSectionEffect(st: ReaderState, images: seq<Image>)
    requires st.inTweet && !st.inText && WritableImages(images)
    ensures RunFrom(st, ImageSection(images))
         == st.(current := st.current.(images := st.current.images + ImageRefs(images)))
  {
    if images == [] {
      assert st.current.images + ImageRefs(images) == st.current.images;
    } else {
      RunFromCons(st, CountLine(ImagesTag, |images|), ImageLines(images, 1));
      CountLineEffect(st, ImagesTag, |images|);
      ImageLinesEffect(st, images, 1);
    }
  }

  lemma VideoSectionEffect(st: ReaderState, videos: seq<Video>)
    requires st.inTweet && !st.inText && WritableVideos(videos)
    ensures RunFrom(st, VideoSection(videos))
         == st.(current := st.current.(videos := st.current.videos + VideoRefs(videos)))
  {
    if videos == [] {
      assert st.current.videos + VideoRefs(videos) == st.current.videos;
    } else {
      RunFromCons(st, CountLine(VideosTag, |videos|), VideoLines(videos, 1));
      CountLineEffect(st, VideosTag, |videos|);
      VideoLinesEffect(st, videos, 1);
    }
  }

  /** The head of a block opens a fresh record holding the text and the keyword. */
  lemma HeadEffect(st: ReaderState, i: nat, t: ScrapedTweet, keyword: string)
    ensures RunFrom(st, HeadLines(i, t, keyword))
         == ReaderState(Flushed(st), TweetRecord(Trim(t.text), Trim(keyword), [], []), true, false)
  {
    var l := HeadLines(i, t, keyword);
    var s1 := ReaderState(Flushed(st), EmptyRecord, true, false);
    var s3 := s1.(current := EmptyRecord.(content := Trim(t.text)), inText := true);
    HeaderLineEffect(st, i);
    SkippedLineEffect(s1, AuthorTag, t.author);
    SkippedLineEffect(s1, TimeTag, t.timestamp);
    TextLineEffect(s1, t.text);
    KeywordLineEffect(s3, keyword);
    RunFromFive(st, l[0], l[1], l[2], l[3], l[4]);
  }

  lemma RunFromFive(st: ReaderState, a: string, b: string, c: string, d: string, e: string)
    ensures RunFrom(st, [a, b, c, d, e]) == Step(Step(Step(Step(Step(st, a), b), c), d), e)
  {
    var s1 := Step(st, a);
    var s2 := Step(s1, b);
    var s3 := Step(s2, c);
    assert RunFrom(st, [a, b, c, d, e]) == RunFrom(s1, [b, c, d, e]) by {
      assert [a, b, c, d, e][1..] == [b, c, d, e];
    }
    assert RunFrom(s1, [b, c, d, e]) == RunFrom(s2, [c, d, e]) by {
      assert [b, c, d, e][1..] == [c, d, e];
    }
    assert RunFrom(s2, [c, d, e]) == RunFrom(s3, [d, e]) by {
      assert [c, d, e][1..] == [d, e];
    }
    assert RunFrom(s3, [d, e]) == RunFrom(Step(s3, d), [e]) by {
      assert [d, e][1..] == [e];
    }
    RunFromOne(Step(s3, d), e);
  }

  lemma RunFromOne(st: ReaderState, line: string)
    ensures RunFrom(st, [line]) == Step(st, line)
  {
    RunFromCons(st, line, []);
    assert [line] + [] == [line];
  }

  /** A blank line changes nothing. */
  lemma BlankTail(st: ReaderState, lines: seq<string>)
    ensures RunFrom(st, lines + [""]) == RunFrom(st, lines)
  {
    RunFromSnoc(st, lines, "");
    assert Trim("") == "";
  }

  /** The head of a block and its optional Handle line. */
  lemma HeadHandleEffect(st: ReaderState, i: nat, t: ScrapedTweet, keyword: string, handle: string)
    ensures RunFrom(st, HeadLines(i, t, keyword) + HandleLines(handle))
         == ReaderState(Flushed(st), TweetRecord(Trim(t.text), Trim(keyword), [], []), true, false)
  {
    var s := ReaderState(Flushed(st), TweetRecord(Trim(t.text), Trim(keyword), [], []), true, false);
    HeadEffect(st, i, t, keyword);
    RunFromAppend(st, HeadLines(i, t, keyword), HandleLines(handle));
    if handle != "" {
      RunFromOne(s, HandleTag + " " + handle);
      HandleLineEffect(s, handle);
    }
  }

  /** The media section fills the empty lists of an open record. */
  lemma MediaEffect(st: ReaderState, media: Option<Media>)
    requires st.inTweet && !st.inText && st.current.images == [] && st.current.videos == []
    requires media.Some? ==> WritableImages(media.value.images) && WritableVideos(media.value.videos)
    ensures RunFrom(st, MediaLines(media))
         == st.(current := st.current.(images := if media.Some? then ImageRefs(media.value.images) else [],
                                       videos := if media.Some? then VideoRefs(media.value.videos) else []))
  {
    if media.Some? {
      var images := media.value.images;
      var st' := st.(current := st.current.(images := ImageRefs(images)));
      ImageSectionEffect(st, images);
      assert [] + ImageRefs(images) == ImageRefs(images);
      VideoSectionEffect(st', media.value.videos);
      assert [] + VideoRefs(media.value.videos) == VideoRefs(media.value.videos);
      RunFromAppend(st, ImageSection(images), VideoSection(media.value.videos));
    }
  }

  /** One written block, read after any prior lines: the record that was
      open is flushed and a new one holds exactly what the block recorded. */
  lemma BlockEffect(st: ReaderState, i: nat, t: ScrapedTweet, keyword: string, handle: string)
    requires Writable(t)
    ensures RunFrom(st, BlockLines(i, t, keyword, handle))
         == ReaderState(Flushed(st), Recovered(t, keyword), true, false)
  {
    var hh := HeadLines(i, t, keyword) + HandleLines(handle);
    var s := ReaderState(Flushed(st), TweetRecord(Trim(t.text), Trim(keyword), [], []), true, false);
    HeadHandleEffect(st, i, t, keyword, handle);
    RunFromAppend(st, hh, MediaLines(t.media));
    MediaEffect(s, t.media);
    BlankTail(st, hh + MediaLines(t.media));
  }

  /** Flushing the record a block opened adds it exactly when its text is not blank. */
  lemma FlushedBlock(st: ReaderState, t: ScrapedTweet, keyword: string)
    ensures Flushed(ReaderState(Flushed(st), Recovered(t, keyword), true, false))
         == Flushed(st) + (if Trim(t.text) != "" then [Recovered(t, keyword)] else [])
  {
    TrimIdempotent(t.text);
  }

  lemma RecordsAssoc(a: seq<TweetRecord>, b: seq<TweetRecord>, c: seq<TweetRecord>)
    ensures a + b + c == a + (b + c)
  {
  }

  /** A whole batch, read after any prior lines: the records of the prior
      lines, then one record per tweet with non-blank text. */
  lemma {:induction false} BatchEffect(st: ReaderState, tweets: seq<ScrapedTweet>, i: nat, keyword: string, handle: string)
    requires forall k :: 0 <= k < |tweets| ==> Writable(tweets[k])
    ensures Flushed(RunFrom(st, BatchLines(tweets, i, keyword, handle))) == Flushed(st) + Expected(tweets, keyword)
    decreases |tweets|
  {
    if tweets == [] {
      assert Flushed(st) + [] == Flushed(st);
    } else {
      var t := tweets[0];
      var s := ReaderState(Flushed(st), Recovered(t, keyword), true, false);
      BlockEffect(st, i, t, keyword, handle);
      RunFromAppend(st, BlockLines(i, t, keyword, handle), BatchLines(tweets[1..], i + 1, keyword, handle));
      BatchEffect(s, tweets[1..], i + 1, keyword, handle);
      FlushedBlock(st, t, keyword);
      RecordsAssoc(Flushed(st), if Trim(t.text) != "" then [Recovered(t, keyword)] else [], Expected(tweets[1..], keyword));
    }
  }

  /** Every line of a list is free of newlines, so `split('\n')` gives it back. */
  predicate LinesUnbroken(lines: seq<string>) {
    forall k :: 0 <= k < |lines| ==> NoNewline(lines[k])
  }

  lemma UnbrokenAppend(a: seq<string>, b: seq<string>)
    requires LinesUnbroken(a) && LinesUnbroken(b)
    ensures LinesUnbroken(a + b)
  {
    forall k | 0 <= k < |a + b|
      ensures NoNewline((a + b)[k])
    {
      if k < |a| {
        assert (a + b)[k] == a[k];
      } else {
        assert (a + b)[k] == b[k - |a|];
      }
    }
  }

  lemma DigitsUnbroken(n: nat)
    ensures NoNewline(NatToString(n))
  {
    var s := NatToString(n);
    assert forall k :: 0 <= k < |s| ==> s[k] != '\n';
  }

  lemma SpaceFreeUnbroken(s: string)
    requires NoJsSpace(s)
    ensures NoNewline(s)
  {
    assert forall k :: 0 <= k < |s| ==> s[k] != '\n';
  }

  lemma SingleLineUnbroken(s: string)
    requires NoLineTerminator(s)
    ensures NoNewline(s)
  {
    assert forall k :: 0 <= k < |s| ==> s[k] != '\n';
  }

  lemma {:induction false} ImageLinesUnbroken(images: seq<Image>, j: nat)
    requires WritableImages(images)
    ensures LinesUnbroken(ImageLines(images, j))
    decreases |images|
  {
    if images != [] {
      DigitsUnbroken(j);
      SpaceFreeUnbroken(images[0].url);
      ImageLinesUnbroken(images[1..], j + 1);
      UnbrokenAppend([ImageLine(j, images[0].url)], ImageLines(images[1..], j + 1));
    }
  }

  lemma {:induction false} VideoLinesUnbroken(videos: seq<Video>, j: nat)
    requires WritableVideos(videos)
    ensures LinesUnbroken(VideoLines(videos, j))
    decreases |videos|
  {
    if videos != [] {
      DigitsUnbroken(j);
      SpaceFreeUnbroken(videos[0].url);
      SingleLineUnbroken(videos[0].kind);
      VideoLinesUnbroken(videos[1..], j + 1);
      UnbrokenAppend([VideoLine(j, videos[0].url, videos[0].kind)], VideoLines(videos[1..], j + 1));
    }
  }

  lemma MediaUnbroken(media: Option<Media>)
    requires media.Some? ==> WritableImages(media.value.images) && WritableVideos(media.value.videos)
    ensures LinesUnbroken(MediaLines(media))
  {
    if media.Some? {
      var images := media.value.images;
      var videos := media.value.videos;
      if images != [] {
        DigitsUnbroken(|images|);
        ImageLinesUnbroken(images, 1);
        UnbrokenAppend([CountLine(ImagesTag, |images|)], ImageLines(images, 1));
      }
      if videos != [] {
        DigitsUnbroken(|videos|);
        VideoLinesUnbroken(videos, 1);
        UnbrokenAppend([CountLine(VideosTag, |videos|)], VideoLines(videos, 1));
      }
      UnbrokenAppend(ImageSection(images), VideoSection(videos));
    }
  }

  lemma HeadUnbroken(i: nat, t: ScrapedTweet, keyword: string, handle: string)
    requires Writable(t) && NoNewline(keyword) && NoNewline(handle)
    ensures LinesUnbroken(HeadLines(i, t, keyword) + HandleLines(handle))
  {
    DigitsUnbroken(i);
    assert LinesUnbroken(HeadLines(i, t, keyword));
    UnbrokenAppend(HeadLines(i, t, keyword), HandleLines(handle));
  }

  lemma BlockUnbroken(i: nat, t: ScrapedTweet, keyword: string, handle: string)
    requires Writable(t) && NoNewline(keyword) && NoNewline(handle)
    ensures LinesUnbroken(BlockLines(i, t, keyword, handle))
  {
    var hh := HeadLines(i, t, keyword) + HandleLines(handle);
    HeadUnbroken(i, t, keyword, handle);
    MediaUnbroken(t.media);
    UnbrokenAppend(hh, MediaLines(t.media));
    UnbrokenAppend(hh + MediaLines(t.media), [""]);
  }

  lemma {:induction false} BatchUnbroken(tweets: seq<ScrapedTweet>, i: nat, keyword: string, handle: string)
    requires forall k :: 0 <= k < |tweets| ==> Writable(tweets[k])
    requires NoNewline(keyword) && NoNewline(handle)
    ensures LinesUnbroken(BatchLines(tweets, i, keyword, handle))
    decreases |tweets|
  {
    if tweets != [] {
      BlockUnbroken(i, tweets[0], keyword, handle);
      BatchUnbroken(tweets[1..], i + 1, keyword, handle);
      UnbrokenAppend(BlockLines(i, tweets[0], keyword, handle), BatchLines(tweets[1..], i + 1, keyword, handle));
    }
  }

  /** The complete lines of a log that is empty or ends with a newline. */
  function PriorLines(prior: string): seq<string>
    requires prior == "" || prior[|prior| - 1] == '\n'
  {
    if prior == "" then [] else Split(prior[..|prior| - 1])
  }

  /** Splitting such a log, alone or followed by terminated lines. */
  lemma SplitAfterPrior(prior: string, lines: seq<string>)
    requires prior == "" || prior[|prior| - 1] == '\n'
    requires LinesUnbroken(lines)
    ensures Split(prior) == PriorLines(prior) + [""]
    ensures Split(prior + Terminated(lines)) == PriorLines(prior) + lines + [""]
  {
    if prior == "" {
      SplitTerminated(lines);
      assert prior + Terminated(lines) == Terminated(lines);
      assert [] + lines == lines;
    } else {
      SplitAfterLine(prior[..|prior| - 1], lines);
      assert prior == prior[..|prior| - 1] + "\n";
    }
  }

  lemma SplitAfterLine(p: string, lines: seq<string>)
    requires LinesUnbroken(lines)
    ensures Split(p + "\n") == Split(p) + [""]
    ensures Split(p + "\n" + Terminated(lines)) == Split(p) + lines + [""]
  {
    SplitTerminated(lines);
    SplitAtNewline(p, Terminated(lines));
    SplitAtNewline(p, "");
    assert p + "\n" + "" == p + "\n";
    ListAssoc(Split(p), lines, [""]);
  }

  lemma ListAssoc(a: seq<string>, b: seq<string>, c: seq<string>)
    ensures a + (b + c) == a + b + c
  {
  }

  /** Appending a batch to a log that is empty or ends with a newline: the
      reader returns what it returned before, then one record per written
      tweet whose text is not blank, in order. */
  lemma AppendReadsBack(prior: string, tweets: seq<ScrapedTweet>, keyword: string, handle: string)
    requires prior == "" || prior[|prior| - 1] == '\n'
    requires forall k :: 0 <= k < |tweets| ==> Writable(tweets[k])
    requires NoNewline(keyword) && NoNewline(handle)
    ensures ParseTweetsFile(Some(prior + RenderBatch(tweets, keyword, handle)))
         == ParseTweetsFile(Some(prior)) + Expected(tweets, keyword)
  {
    var q := PriorLines(prior);
    var l := BatchLines(tweets, 1, keyword, handle);
    BatchUnbroken(tweets, 1, keyword, handle);
    SplitAfterPrior(prior, l);
    BlankTail(Start, q);
    BlankTail(Start, q + l);
    RunFromAppend(Start, q, l);
    BatchEffect(RunFrom(Start, q), tweets, 1, keyword, handle);
  }

  /** A log holding one written batch reads back as that batch. */
  lemma RenderedBatchReadsBack(tweets: seq<ScrapedTweet>, keyword: string, handle: string)
    requires forall k :: 0 <= k < |tweets| ==> Writable(tweets[k])
    requires NoNewline(keyword) && NoNewline(handle)
    ensures ParseTweetsFile(Some(RenderBatch(tweets, keyword, handle))) == Expected(tweets, keyword)
  {
    AppendReadsBack("", tweets, keyword, handle);
    assert "" + RenderBatch(tweets, keyword, handle) == RenderBatch(tweets, keyword, handle);
    RunFromCons(Start, "", []);
  }

  /** One record per tweet, none dropped. */
  function RecoveredAll(tweets: seq<ScrapedTweet>, keyword: string): (r: seq<TweetRecord>)
    ensures |r| == |tweets|
    ensures forall k :: 0 <= k < |tweets| ==> r[k] == Recovered(tweets[k], keyword)
  {
    if tweets == [] then [] else [Recovered(tweets[0], keyword)] + RecoveredAll(tweets[1..], keyword)
  }

  /** When no text is blank, no tweet is dropped. */
  lemma {:induction false} ExpectedKeepsAll(tweets: seq<ScrapedTweet>, keyword: string)
    requires forall k :: 0 <= k < |tweets| ==> Trim(tweets[k].text) != ""
    ensures Expected(tweets, keyword) == RecoveredAll(tweets, keyword)
    decreases |tweets|
  {
    if tweets != [] {
      ExpectedKeepsAll(tweets[1..], keyword);
    }
  }

  /** For tweets with non-blank, already trimmed text every tweet comes back,
      with its text as the content, the trimmed keyword and its media in order. */
  lemma ExpectedOfTrimmed(tweets: seq<ScrapedTweet>, keyword: string)
    requires forall k :: 0 <= k < |tweets| ==> tweets[k].text != "" && JsTrimmed(tweets[k].text)
    ensures |Expected(tweets, keyword)| == |tweets|
    ensures forall k :: 0 <= k < |tweets| ==>
      Expected(tweets, keyword)[k] == Recovered(tweets[k], keyword) &&
      Expected(tweets, keyword)[k].content == tweets[k].text
  {
    forall k | 0 <= k < |tweets| ensures Trim(tweets[k].text) == tweets[k].text {
      TrimOfTrimmed(tweets[k].text);
    }
    ExpectedKeepsAll(tweets, keyword);
  }

}
