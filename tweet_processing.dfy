/** The batch driver of src/app.js: the processed-count cursor kept in
    last_tweet_count.txt (also in src/services/fileService.js), the mapping
    of sentiment labels onto the database enum, and `processTweets` with its
    busy flag.  Replies of the language model and the news feed are
    functions given as parameters; the database is reduced to whether a
    default team and company exist. */
module TweetProcessing {
  import opened Wrappers
  import opened JsText
  import TM = TweetMarkdown
  import G = Gemini
  import RS = ResultsStore

  // ---------------------------------------------------------------- cursor

  /** `getLastTweetCount`: the stored number when the trimmed file content
      is all digits, otherwise 0 (`None`: the file does not exist). */
  function LastTweetCount(cursorFile: Option<string>): (n: nat)
    ensures cursorFile.None? ==> n == 0
    ensures cursorFile.Some? && !AllDigits(Trim(cursorFile.value)) ==> n == 0
  {
    match cursorFile
    case None => 0
    case Some(text) =>
      var data := Trim(text);
      if AllDigits(data) then DigitsValue(data) else 0
  }

  /** `setLastTweetCount`: the decimal text of the count. */
  function CursorText(count: nat): (s: string)
    ensures AllDigits(s) && JsTrimmed(s)
  {
    var s := NatToString(count);
    assert !IsJsSpace(s[0]) && !IsJsSpace(s[|s| - 1]) by {
      assert IsDigit(s[0]) && IsDigit(s[|s| - 1]);
    }
    s
  }

  /** What the writer stores the reader reads back. */
  lemma CursorRoundTrip(count: nat)
    ensures LastTweetCount(Some(CursorText(count))) == count
  {
    TrimOfTrimmed(CursorText(count));
  }

  /** Whitespace around the digits is ignored; the digits are read in
      base 10. */
  lemma CursorReadsDigits(text: string)
    requires AllDigits(Trim(text))
    ensures LastTweetCount(Some(text)) == DigitsValue(Trim(text))
  {
  }

  // ------------------------------------------------------------ sentiment

  const Positive := "POSITIVE"
  const Negative := "NEGATIVE"
  const Neutral := "NEUTRAL"

  /** The `sentimentMap` table of `mapSentimentToValidEnum`. */
  const SentimentMap: map<string, string> :=
    map["POSITIVE" := Positive, "NEGATIVE" := Negative, "NEUTRAL" := Neutral,
        "SARCASM" := Neutral, "RELIGIOUS" := Neutral, "FUNNY" := Positive,
        "PROVOCATIVE" := Negative]

  /** `mapSentimentToValidEnum`: look the upper-cased label up in the
      table; anything not in it is NEUTRAL. */
  function MapSentimentToValidEnum(sentiment: string): (r: string)
    ensures r == Positive || r == Negative || r == Neutral
  {
    var key := ToUpper(sentiment);
    if key in SentimentMap then SentimentMap[key] else Neutral
  }

  /** Upper-casing a string without lower-case ASCII letters changes nothing. */
  lemma UpperOfUpper(s: string)
    requires forall i :: 0 <= i < |s| ==> !('a' <= s[i] <= 'z')
    ensures ToUpper(s) == s
  {
  }

  lemma MapByKey(s: string, key: string)
    requires ToUpper(s) == key && key in SentimentMap
    ensures MapSentimentToValidEnum(s) == SentimentMap[key]
  {
  }

  /** The three database labels map to themselves. */
  lemma MapFixesEnum(name: string)
    requires name == Positive || name == Negative || name == Neutral
    ensures MapSentimentToValidEnum(name) == name
  {
    if name == "POSITIVE" {
      UpperOfUpper("POSITIVE");
      MapByKey("POSITIVE", "POSITIVE");
    } else if name == "NEGATIVE" {
      UpperOfUpper("NEGATIVE");
      MapByKey("NEGATIVE", "NEGATIVE");
    } else {
      UpperOfUpper("NEUTRAL");
      MapByKey("NEUTRAL", "NEUTRAL");
    }
  }

  /** Mapping twice is mapping once. */
  lemma MapIdempotent(sentiment: string)
    ensures MapSentimentToValidEnum(MapSentimentToValidEnum(sentiment)) == MapSentimentToValidEnum(sentiment)
  {
    MapFixesEnum(MapSentimentToValidEnum(sentiment));
  }

  lemma UpperOfLower(s: string)
    ensures ToUpper(ToLower(s)) == ToUpper(s)
  {
    assert forall i :: 0 <= i < |s| ==> UpperChar(LowerChar(s[i])) == UpperChar(s[i]);
  }

  /** Letter case does not matter. */
  lemma MapIgnoresCase(sentiment: string)
    ensures MapSentimentToValidEnum(ToLower(sentiment)) == MapSentimentToValidEnum(sentiment)
    ensures MapSentimentToValidEnum(ToUpper(sentiment)) == MapSentimentToValidEnum(sentiment)
  {
    UpperOfLower(sentiment);
    UpperOfUpper(ToUpper(sentiment));
  }

  /** A label whose upper-case letters spell a key of the table maps as
      that key does. */
  lemma MapSpelled(s: string, key: string)
    requires |s| == |key| && key in SentimentMap
    requires forall i :: 0 <= i < |s| ==> UpperChar(s[i]) == key[i]
    ensures MapSentimentToValidEnum(s) == SentimentMap[key]
  {
    assert ToUpper(s) == key;
  }

  /** The table's other labels, spelled as a model would write them. */
  lemma MapTable()
    ensures MapSentimentToValidEnum("Funny") == Positive
    ensures MapSentimentToValidEnum("Provocative") == Negative
    ensures MapSentimentToValidEnum("Sarcasm") == Neutral
    ensures MapSentimentToValidEnum("Religious") == Neutral
  {
    MapSpelled("Funny", "FUNNY");
    MapSpelled("Provocative", "PROVOCATIVE");
    MapSpelled("Sarcasm", "SARCASM");
    MapSpelled("Religious", "RELIGIOUS");
  }

  // -------------------------------------------------------- processTweets

  /** The files `processTweets` reads and writes: the cursor file, the
      markdown log, the JSON document and the topic list. */
  datatype Files = Files(cursor: Option<string>, markdown: string, json: Option<RS.Store>, topics: string)

  /** One call's inputs: the explicit tweet list (`None`: no argument), the
      tweets file (`None`: missing), the time stamp of the batch, and
      whether the database holds a default team and company. */
  datatype Request = Request(tweetsToProcess: Option<seq<TM.TweetRecord>>, tweetsFile: Option<string>,
                             now: string, hasDefaults: bool)

  /** One pushed result: tweet, database label, topic and news record. */
  datatype AppRow = AppRow(tweet: string, sentiment: string, topic: string, news: G.NewsCheck)

  /** The results of a batch and the topic list after it. */
  datatype Analysis = Analysis(rows: seq<AppRow>, topics: string)

  predicate IsEnum(s: string) {
    s == Positive || s == Negative || s == Neutral
  }

  /** The tweets after the cursor; `None` when there are none. */
  function Pending(cursor: Option<string>, all: seq<TM.TweetRecord>): (r: Option<seq<TM.TweetRecord>>)
    ensures r.None? <==> |all| <= LastTweetCount(cursor)
    ensures r.Some? ==> r.value != [] && |all| - |r.value| == LastTweetCount(cursor) &&
                        all == all[..LastTweetCount(cursor)] + r.value
  {
    var lastCount := LastTweetCount(cursor);
    if |all| > lastCount then
      assert all == all[..lastCount] + all[lastCount..];
      Some(all[lastCount..])
    else None
  }

  /** One tweet through `analyzeSentimentWithGrokValidation`, the news
      lookup and `mapSentimentToValidEnum`.  `reply(text, topics)` is the
      model's reply to the prompt for `text` listing `topics` (`None`: the
      request threw); `feed(topic)` is the news feed for a topic. */
  function AnalyzeOne(topics: string, t: TM.TweetRecord,
                      reply: (string, seq<string>) -> Option<string>,
                      feed: string -> Option<seq<G.Article>>): (r: Analysis)
    ensures |r.rows| == 1 && r.rows[0].tweet == t.content && IsEnum(r.rows[0].sentiment)
    ensures topics <= r.topics
  {
    var a := G.AnalyzeSentiment(topics, reply(t.content, G.ExistingTopics(topics)));
    Analysis([AppRow(t.content, MapSentimentToValidEnum(a.verdict.sentiment), a.verdict.topic,
                     G.FetchAndValidateNews(feed(a.verdict.topic)))], a.topicFile)
  }

  /** The loop over the batch: one result per tweet, in order, each tweet
      seeing the topic list the earlier ones left; the topic list only
      grows. */
  function AnalyzeAll(topics: string, tweets: seq<TM.TweetRecord>,
                      reply: (string, seq<string>) -> Option<string>,
                      feed: string -> Option<seq<G.Article>>): (r: Analysis)
    ensures |r.rows| == |tweets|
    ensures forall i :: 0 <= i < |tweets| ==> r.rows[i].tweet == tweets[i].content && IsEnum(r.rows[i].sentiment)
    ensures topics <= r.topics
    decreases |tweets|
  {
    if tweets == [] then Analysis([], topics)
    else
      var earlier := AnalyzeAll(topics, tweets[..|tweets| - 1], reply, feed);
      var last := AnalyzeOne(earlier.topics, tweets[|tweets| - 1], reply, feed);
      assert forall i :: 0 <= i < |tweets| - 1 ==> tweets[..|tweets| - 1][i] == tweets[i];
      Analysis(earlier.rows + last.rows, last.topics)
  }

  /** The loop of `processTweets` over its batch. */
  method AnalyzeTweets(topics: string, tweets: seq<TM.TweetRecord>,
                       reply: (string, seq<string>) -> Option<string>,
                       feed: string -> Option<seq<G.Article>>) returns (r: Analysis)
    ensures r == AnalyzeAll(topics, tweets, reply, feed)
  {
    r := Analysis([], topics);
    var i := 0;
    while i < |tweets|
      invariant 0 <= i <= |tweets|
      invariant r == AnalyzeAll(topics, tweets[..i], reply, feed)
    {
      assert tweets[..i + 1][..i] == tweets[..i];
      var one := AnalyzeOne(r.topics, tweets[i], reply, feed);
      r := Analysis(r.rows + one.rows, one.topics);
      i := i + 1;
    }
    assert tweets[..i] == tweets;
  }

  /** The rows as the writers get them from `processTweets`: the news slot
      holds the news record, which has neither `length` nor `map`. */
  function AsPushed(rows: seq<AppRow>): (r: seq<RS.ResultRow>)
    ensures |r| == |rows| && (rows != [] ==> !RS.AllListed(r))
  {
    var r := seq(|rows|, i requires 0 <= i < |rows| => RS.ResultRow(rows[i].tweet, rows[i].sentiment, rows[i].topic, None));
    assert rows != [] ==> r[0].news.None?;
    r
  }

  function Articles(checked: seq<G.CheckedArticle>): seq<G.Article> {
    seq(|checked|, i requires 0 <= i < |checked| => checked[i].article)
  }

  /** The rows with the validated articles as their news list. */
  function WithNews(rows: seq<AppRow>): (r: seq<RS.ResultRow>)
    ensures |r| == |rows| && RS.AllListed(r)
    ensures forall i :: 0 <= i < |rows| ==> r[i].tweet == rows[i].tweet && r[i].topic == rows[i].topic
  {
    seq(|rows|, i requires 0 <= i < |rows| =>
      RS.ResultRow(rows[i].tweet, rows[i].sentiment, rows[i].topic, Some(Articles(rows[i].news.validatedArticles))))
  }

  /** The batch of a call: the explicit list, or the tweets after the
      cursor; `None` when the call returns before analysing anything. */
  function NewTweets(f: Files, req: Request): Option<seq<TM.TweetRecord>> {
    if req.tweetsToProcess.Some? then req.tweetsToProcess
    else if req.tweetsFile.None? then None
    else Pending(f.cursor, TM.ParseTweetsFile(req.tweetsFile))
  }

  /** `processTweets` as written, from the moment the busy flag is set.  The
      markdown log gets the batch without news lines; `appendResultsToJson`
      throws on `news.map` and swallows the error, so the JSON document is
      not written; `lastCount = total` then reads a constant that is out of
      scope, the ReferenceError is swallowed, and the cursor is not written. */
  function ProcessAsWritten(f: Files, req: Request,
                            reply: (string, seq<string>) -> Option<string>,
                            feed: string -> Option<seq<G.Article>>): (r: Files)
    ensures NewTweets(f, req).None? || NewTweets(f, req).value == [] || !req.hasDefaults ==> r == f
    ensures r.cursor == f.cursor && r.json == f.json
  {
    match NewTweets(f, req)
    case None => f
    case Some(batch) =>
      if batch == [] || !req.hasDefaults then f
      else
        var a := AnalyzeAll(f.topics, batch, reply, feed);
        Files(f.cursor, f.markdown + RS.ResultsMarkdown(req.now, AsPushed(a.rows)), f.json, a.topics)
  }

  /** `processTweets` as intended: the news slot holds the validated
      articles, so the JSON document receives the batch, and a batch read
      from the tweets file moves the cursor to the number of tweets read. */
  function ProcessCorrected(f: Files, req: Request,
                            reply: (string, seq<string>) -> Option<string>,
                            feed: string -> Option<seq<G.Article>>): (r: Files)
    ensures NewTweets(f, req).None? || NewTweets(f, req).value == [] || !req.hasDefaults ==> r == f
    ensures NewTweets(f, req).Some? && NewTweets(f, req).value != [] && req.hasDefaults ==> r.json.Some?
    ensures f.markdown <= r.markdown
  {
    match NewTweets(f, req)
    case None => f
    case Some(batch) =>
      if batch == [] || !req.hasDefaults then f
      else
        var a := AnalyzeAll(f.topics, batch, reply, feed);
        var rows := WithNews(a.rows);
        var cursor := if req.tweetsToProcess.None? then Some(CursorText(|TM.ParseTweetsFile(req.tweetsFile)|)) else f.cursor;
        Files(cursor, f.markdown + RS.ResultsMarkdown(req.now, rows), Some(RS.Merged(f.json.GetOr(map[]), rows)), a.topics)
  }

  /** The batch of a call: the explicit list, or the tweets of the file
      past the cursor; `None` when the call returns early. */
  method ReadBatch(f: Files, req: Request) returns (batch: Option<seq<TM.TweetRecord>>)
    ensures batch == NewTweets(f, req)
  {
    if req.tweetsToProcess.Some? {
      return req.tweetsToProcess;
    }
    if req.tweetsFile.None? {
      return None;
    }
    var lastCount := LastTweetCount(f.cursor);
    var allTweets := TM.ReadTweetsFromFile(req.tweetsFile);
    if |allTweets| > lastCount {
      return Some(allTweets[lastCount..]);
    }
    return None;
  }

  /** One call after the busy flag is set, as written: the same branches and
      early returns, and the writers called on the pushed rows. */
  method RunBatch(f: Files, req: Request,
                  reply: (string, seq<string>) -> Option<string>,
                  feed: string -> Option<seq<G.Article>>) returns (g: Files)
    ensures g == ProcessAsWritten(f, req, reply, feed)
  {
    var pending := ReadBatch(f, req);
    if pending.None? {
      return f;
    }
    var batch := pending.value;
    if batch == [] || !req.hasDefaults {
      return f;
    }
    var a := AnalyzeTweets(f.topics, batch, reply, feed);
    var rows := AsPushed(a.rows);
    var markdown := f.markdown + RS.ResultsMarkdown(req.now, rows);
    var json := f.json;
    var written := RS.AppendResultsToJson(f.json.GetOr(map[]), rows);
    match written {
      case Some(store) => json := Some(store);
      case None =>
    }
    // `lastCount = total`: ReferenceError, caught; the cursor stays
    return Files(f.cursor, markdown, json, a.topics);
  }

  /** The cursor and the JSON document never change, whatever the call. */
  lemma CursorNeverAdvances(f: Files, req: Request,
                            reply: (string, seq<string>) -> Option<string>,
                            feed: string -> Option<seq<G.Article>>)
    ensures ProcessAsWritten(f, req, reply, feed).cursor == f.cursor
    ensures ProcessAsWritten(f, req, reply, feed).json == f.json
    ensures f.markdown <= ProcessAsWritten(f, req, reply, feed).markdown
  {
  }

  /** Hence the next call on the same tweets file analyses the very same
      tweets again. */
  lemma SameTweetsAgain(f: Files, req: Request,
                        reply: (string, seq<string>) -> Option<string>,
                        feed: string -> Option<seq<G.Article>>)
    requires req.tweetsToProcess.None?
    ensures NewTweets(ProcessAsWritten(f, req, reply, feed), req) == NewTweets(f, req)
  {
    CursorNeverAdvances(f, req, reply, feed);
  }

  /** With the correction, a batch read from the file moves the cursor to
      the end of the file's tweets: the next call on the same file finds
      nothing new, and one on a file with more tweets gets exactly those. */
  lemma CursorAdvances(f: Files, req: Request,
                       reply: (string, seq<string>) -> Option<string>,
                       feed: string -> Option<seq<G.Article>>, more: seq<TM.TweetRecord>)
    requires req.tweetsToProcess.None? && req.tweetsFile.Some? && req.hasDefaults
    requires NewTweets(f, req).Some?
    ensures var all := TM.ParseTweetsFile(req.tweetsFile);
      var g := ProcessCorrected(f, req, reply, feed);
      LastTweetCount(g.cursor) == |all| &&
      NewTweets(g, req).None? &&
      Pending(g.cursor, all + more) == (if more == [] then None else Some(more))
  {
    var all := TM.ParseTweetsFile(req.tweetsFile);
    CursorRoundTrip(|all|);
    if more != [] {
      assert (all + more)[|all|..] == more;
    }
  }

  /** With the correction, every analysed tweet is filed in the JSON
      document under its topic, and what was stored stays. */
  lemma EveryResultFiled(f: Files, req: Request,
                         reply: (string, seq<string>) -> Option<string>,
                         feed: string -> Option<seq<G.Article>>, i: nat)
    requires NewTweets(f, req).Some? && req.hasDefaults
    requires i < |NewTweets(f, req).value|
    ensures var batch := NewTweets(f, req).value;
      var g := ProcessCorrected(f, req, reply, feed);
      var a := AnalyzeAll(f.topics, batch, reply, feed);
      var store := f.json.GetOr(map[]);
      g.json.Some? &&
      a.rows[i].topic in g.json.value &&
      RS.JsonEntry(batch[i].content, a.rows[i].sentiment, Articles(a.rows[i].news.validatedArticles))
        in g.json.value[a.rows[i].topic] &&
      (forall t :: t in store ==> t in g.json.value && store[t] <= g.json.value[t])
  {
    var batch := NewTweets(f, req).value;
    var a := AnalyzeAll(f.topics, batch, reply, feed);
    var rows := WithNews(a.rows);
    var store := f.json.GetOr(map[]);
    RS.EntriesForHas(rows, i);
    assert RS.EntryOf(rows[i]) == RS.JsonEntry(batch[i].content, a.rows[i].sentiment, Articles(a.rows[i].news.validatedArticles));
    forall t | t in store ensures t in RS.Merged(store, rows) && store[t] <= RS.Merged(store, rows)[t] {
      RS.MergedKeeps(store, rows, t);
    }
  }

  /** The busy flag and the files `processTweets` works on. */
  class TweetProcessor {
    var isProcessingTweets: bool
    var files: Files

    constructor(f: Files)
      ensures !isProcessingTweets && files == f
    {
      isProcessingTweets := false;
      files := f;
    }

    /** `processTweets`: returns at once, changing nothing, while a call is
        in progress; otherwise sets the flag, runs the batch and clears the
        flag on every way out. */
    method ProcessTweets(req: Request,
                         reply: (string, seq<string>) -> Option<string>,
                         feed: string -> Option<seq<G.Article>>)
      modifies this
      ensures old(isProcessingTweets) ==> isProcessingTweets && files == old(files)
      ensures !old(isProcessingTweets) ==> !isProcessingTweets && files == ProcessAsWritten(old(files), req, reply, feed)
    {
      if isProcessingTweets {
        return;
      }
      isProcessingTweets := true;
      var next := RunBatch(files, req, reply, feed);
      files := next;
      isProcessingTweets := false;
    }
  }
}
