/** The reply handling of src/services/geminiService.js: reading the
    sentiment and topic out of a reply and growing the topic list
    (`analyzeSentiment`), the post-processing of a batch of comment verdicts
    (`analyzeSentimentsBatch`) and the news lookup that keeps the first
    articles without validating them (`fetchAndValidateNewsWithGrok`).
    Replies and fetched feeds are inputs; the regular expressions that read
    a single reply are written out as string functions, while the list a
    batch reply is parsed into is an input. */
module Gemini {
  import opened Wrappers
  import opened JsText

  /** A sentiment label and a topic, as the service returns them. */
  datatype Verdict = Verdict(sentiment: string, topic: string)

  const ValidSentiments: seq<string> := ["Positive", "Negative", "Neutral"]
  const SentimentTag := "**Sentiment**:"
  const TopicTag := "**Topic**:"
  const Fallback := Verdict("Neutral", "Unknown")

  // ---------------------------------------------------------------- replies

  /** The index of the leftmost occurrence of `sub` in `s`, if any. */
  function FirstIndex(s: string, sub: string): (r: Option<nat>)
    ensures r.Some? ==> r.value + |sub| <= |s| && s[r.value..r.value + |sub|] == sub
    ensures r.Some? ==> forall q :: 0 <= q < r.value ==> !StartsWith(s[q..], sub)
    ensures r.None? <==> !Contains(s, sub)
    decreases |s|
  {
    if StartsWith(s, sub) then Some(0)
    else if s == [] then None
    else match FirstIndex(s[1..], sub)
      case None => None
      case Some(p) =>
        assert s[p + 1..p + 1 + |sub|] == s[1..][p..p + |sub|];
        assert forall q :: 1 <= q < p + 1 ==> s[q..] == s[1..][q - 1..];
        Some(p + 1)
  }

  /** The characters before the first line terminator: what `(.*)` captures. */
  function LineHead(s: string): (r: string)
    ensures StartsWith(s, r) && NoLineTerminator(r)
    ensures |r| == |s| || IsLineTerminator(s[|r|])
  {
    if s == [] || IsLineTerminator(s[0]) then []
    else
      var t := LineHead(s[1..]);
      assert (s[..|t| + 1]) == [s[0]] + s[1..][..|t|];
      [s[0]] + t
  }

  lemma NoLineTerminatorSlice(s: string, i: nat, j: nat)
    requires i <= j <= |s| && NoLineTerminator(s)
    ensures NoLineTerminator(s[i..j])
  {
    assert forall k :: 0 <= k < j - i ==> s[i..j][k] == s[i + k];
  }

  /** `reply.match(/<tag>\s*(.*)/)` followed by `.trim()` on the capture:
      the rest of the line after the first occurrence of the tag, leading
      whitespace (line breaks included) skipped. */
  function Field(reply: string, tag: string): (r: Option<string>)
    ensures r.Some? ==> NoLineTerminator(r.value) && JsTrimmed(r.value)
    ensures r.None? <==> !Contains(reply, tag)
  {
    match FirstIndex(reply, tag)
    case None => None
    case Some(p) =>
      var h := LineHead(TrimStart(reply[p + |tag|..]));
      TrimIsBothEnds(h);
      NoLineTerminatorSlice(h, |h| - |TrimStart(h)|, |h|);
      NoLineTerminatorSlice(TrimStart(h), 0, |TrimEnd(TrimStart(h))|);
      Some(Trim(h))
  }

  /** A tag followed by a space, a value and a line break reads back as
      that value, whatever follows the line break. */
  lemma FieldReadsBack(tag: string, v: string, rest: string)
    requires v != [] && JsTrimmed(v) && NoLineTerminator(v)
    requires rest != [] && IsLineTerminator(rest[0])
    ensures Field(tag + (" " + (v + rest)), tag) == Some(v)
  {
    var tail := v + rest;
    var reply := tag + (" " + tail);
    StartsWithAppend(tag, " " + tail);
    assert reply[|tag|..] == " " + tail;
    TrimSpacePrefixStart(" ", tail);
    LineHeadOf(v, rest);
    TrimOfTrimmed(v);
  }

  lemma TrimSpacePrefixStart(w: string, s: string)
    requires forall i :: 0 <= i < |w| ==> IsJsSpace(w[i])
    requires s == [] || !IsJsSpace(s[0])
    ensures TrimStart(w + s) == s
    decreases |w|
  {
    if w != [] {
      assert (w + s)[1..] == w[1..] + s;
      TrimSpacePrefixStart(w[1..], s);
    } else {
      assert w + s == s;
    }
  }

  lemma {:induction false} LineHeadOf(v: string, rest: string)
    requires NoLineTerminator(v) && rest != [] && IsLineTerminator(rest[0])
    ensures LineHead(v + rest) == v
    decreases |v|
  {
    if v == [] {
      assert v + rest == rest;
    } else {
      assert (v + rest)[1..] == v[1..] + rest;
      LineHeadOf(v[1..], rest);
    }
  }

  /** The sentiment a reply states, `Neutral` when it states none. */
  function SentimentOf(reply: string): string {
    Field(reply, SentimentTag).GetOr("Neutral")
  }

  /** The topic a reply states, `Unknown` when it states none. */
  function TopicOf(reply: string): string {
    Field(reply, TopicTag).GetOr("Unknown")
  }

  // ------------------------------------------------------------ topic list

  /** The non-blank lines of a text; blank lines are those `trim` empties. */
  function NonBlank(lines: seq<string>): (r: seq<string>)
    ensures forall t :: t in r ==> t in lines && Trim(t) != []
    ensures forall t :: t in lines && Trim(t) != [] ==> t in r
  {
    if lines == [] then []
    else (if Trim(lines[0]) != [] then [lines[0]] else []) + NonBlank(lines[1..])
  }

  /** `readExistingTopics`: the non-blank lines of the topic file; an absent
      file reads as the empty text. */
  function ExistingTopics(topicFile: string): seq<string> {
    NonBlank(Split(topicFile))
  }

  /** The verdict returned and the topic file afterwards. */
  datatype Analyzed = Analyzed(verdict: Verdict, topicFile: string)

  /** `analyzeSentiment`.  `reply` is `None` when the request threw (the
      retry budget ran out or the request failed otherwise). */
  function AnalyzeSentiment(topicFile: string, reply: Option<string>): (r: Analyzed)
    ensures r.verdict.sentiment in ValidSentiments
    ensures reply.None? ==> r == Analyzed(Fallback, topicFile)
    ensures r.topicFile == topicFile || r.topicFile == topicFile + r.verdict.topic + "\n"
  {
    match reply
    case None => Analyzed(Fallback, topicFile)
    case Some(text) =>
      var sentiment := SentimentOf(text);
      var topic := TopicOf(text);
      if sentiment !in ValidSentiments then
        Analyzed(Verdict("Neutral", if topic == [] then "Unknown" else topic), topicFile)
      else if topic != "Unknown" && topic !in ExistingTopics(topicFile) then
        Analyzed(Verdict(sentiment, topic), topicFile + topic + "\n")
      else
        Analyzed(Verdict(sentiment, topic), topicFile)
  }

  /** A valid sentiment is returned with the reply's topic (which may be
      empty when the topic line is blank); any other sentiment becomes
      Neutral and an empty topic becomes Unknown. */
  lemma VerdictOfReply(topicFile: string, text: string)
    ensures var r := AnalyzeSentiment(topicFile, Some(text));
      (SentimentOf(text) in ValidSentiments ==> r.verdict == Verdict(SentimentOf(text), TopicOf(text))) &&
      (SentimentOf(text) !in ValidSentiments ==>
         r.verdict.sentiment == "Neutral" && r.verdict.topic != [] &&
         (TopicOf(text) != [] ==> r.verdict.topic == TopicOf(text)))
  {
  }

  /** The topic file grows exactly when the sentiment was valid, the topic is
      not Unknown and the file does not list it yet. */
  lemma TopicAppendedIff(topicFile: string, reply: Option<string>)
    ensures var r := AnalyzeSentiment(topicFile, reply);
      r.topicFile != topicFile <==>
        reply.Some? && SentimentOf(reply.value) in ValidSentiments &&
        TopicOf(reply.value) != "Unknown" && TopicOf(reply.value) !in ExistingTopics(topicFile)
  {
    var r := AnalyzeSentiment(topicFile, reply);
    if r.topicFile != topicFile {
      assert |r.topicFile| > |topicFile|;
    }
  }

  /** A topic file that is empty or ends with a line break. */
  predicate LineEnded(topicFile: string) {
    topicFile == [] || topicFile[|topicFile| - 1] == '\n'
  }

  /** A topic written to a line-ended file is listed afterwards. */
  lemma {:induction false} AppendedTopicListed(topicFile: string, t: string)
    requires LineEnded(topicFile)
    requires NoLineTerminator(t) && JsTrimmed(t) && t != []
    ensures t in ExistingTopics(topicFile + t + "\n")
    ensures LineEnded(topicFile + t + "\n")
  {
    assert forall i :: 0 <= i < |t| ==> t[i] != '\n';
    assert NoNewline(t);
    SplitNoNewline(t);
    SplitAtNewline(t, "");
    assert t + "\n" + "" == t + "\n";
    if topicFile == [] {
      assert topicFile + t + "\n" == t + "\n";
    } else {
      var f := topicFile[..|topicFile| - 1];
      assert topicFile + t + "\n" == f + "\n" + (t + "\n");
      SplitAtNewline(f, t + "\n");
    }
    TrimOfTrimmed(t);
  }

  /** Analysing the same reply again does not append the topic a second
      time, as long as the file ended in a line break and the topic is not
      empty (an empty topic is never listed, so it would be appended as a
      blank line on every call). */
  lemma TopicAppendedOnce(topicFile: string, text: string)
    requires LineEnded(topicFile)
    requires AnalyzeSentiment(topicFile, Some(text)).verdict.topic != []
    ensures var r := AnalyzeSentiment(topicFile, Some(text));
      AnalyzeSentiment(r.topicFile, Some(text)) == r && LineEnded(r.topicFile)
  {
    var r := AnalyzeSentiment(topicFile, Some(text));
    if r.topicFile != topicFile {
      AppendedTopicListed(topicFile, TopicOf(text));
    }
  }

  // ------------------------------------------------------------- batches

  const AllowedSentiments: seq<string> :=
    ["Positive", "Negative", "Neutral", "Suggestions", "Requests/Query", "Competitors Mentioned"]

  const CompetitorNames: seq<string> :=
    ["XYZ Institute", "ABC", "DEF", "Coursera", "Udemy", "edX", "Khan Academy",
     "Byju", "Unacademy", "Vedantu", "Toppr", "PW", "Physics Wallah"]

  /** The alternatives of the generic-comment pattern, in lower case. */
  const GenericWords: seq<string> :=
    ["nice", "good", "wow", "amazing", "great", "cool", "ok", "okay", "super",
     "awesome", "love", "like", "superb", "perfect", "beautiful",
     "\U{1F60D}", "\U{1F44D}", "\U{1F525}", "\U{1F60A}", "\U{1F60E}", "\U{1F44F}", "\U{1F44C}"]

  const CompetitorLabel := "Competitors Mentioned"

  /** The comment names a competitor, compared in lower case. */
  predicate MentionsCompetitor(comment: string) {
    exists k :: 0 <= k < |CompetitorNames| && Contains(ToLower(comment), ToLower(CompetitorNames[k]))
  }

  /** The trimmed comment is one generic word or emoji, in any letter case. */
  predicate IsGeneric(comment: string) {
    ToLower(Trim(comment)) in GenericWords
  }

  /** Too short or too generic for a Positive or Negative label. */
  predicate Bland(comment: string) {
    |comment| < 8 || IsGeneric(comment)
  }

  /** The three corrections applied to one verdict: an unknown label becomes
      its closest allowed label, a competitor mention forces Competitors
      Mentioned, and a bland comment loses a Positive or Negative label.
      `closest` stands for the string-similarity best match. */
  function PostProcess(v: Verdict, comment: string, closest: string -> string): (r: Verdict)
    requires forall s :: closest(s) in AllowedSentiments
    ensures r.topic == v.topic
    ensures r.sentiment in AllowedSentiments
    ensures MentionsCompetitor(comment) ==> r.sentiment == CompetitorLabel
    ensures Bland(comment) ==> r.sentiment != "Positive" && r.sentiment != "Negative"
    ensures (!MentionsCompetitor(comment) && v.sentiment in AllowedSentiments &&
             !(Bland(comment) && v.sentiment in ["Positive", "Negative"])) ==> r == v
  {
    var s1 := if v.sentiment in AllowedSentiments then v.sentiment else closest(v.sentiment);
    var s2 := if MentionsCompetitor(comment) && s1 != CompetitorLabel then CompetitorLabel else s1;
    var s3 := if (s2 == "Negative" || s2 == "Positive") && Bland(comment) then "Neutral" else s2;
    Verdict(s3, v.topic)
  }

  /** The parsed verdicts padded with Neutral/Unknown up to `n`. */
  function Padded(parsed: seq<Verdict>, n: nat): (r: seq<Verdict>)
    ensures |r| == if |parsed| < n then n else |parsed|
    ensures forall i :: 0 <= i < |parsed| ==> r[i] == parsed[i]
    ensures forall i :: |parsed| <= i < |r| ==> r[i] == Fallback
  {
    if |parsed| < n then parsed + seq(n - |parsed|, _ => Fallback) else parsed
  }

  /** `analyzeSentimentsBatch` as written.  `parsed` is what the reply's
      numbered list (or its line-by-line fallback) yielded.  When the reply
      holds more verdicts than there are comments, the post-processing loop
      reaches a verdict with no comment, calls `toLowerCase` on `undefined`
      and the call throws: `None`. */
  function BatchAsWritten(comments: seq<string>, parsed: seq<Verdict>, closest: string -> string): (r: Option<seq<Verdict>>)
    requires forall s :: closest(s) in AllowedSentiments
    ensures r.None? <==> comments != [] && |parsed| > |comments|
    ensures r.Some? ==> |r.value| == |comments|
  {
    if comments == [] then Some([])
    else if |parsed| > |comments| then None
    else Some(Batch(comments, parsed, closest))
  }

  /** The batch with one verdict per comment: the post-processing stops at
      the last comment and surplus verdicts are dropped. */
  function Batch(comments: seq<string>, parsed: seq<Verdict>, closest: string -> string): (r: seq<Verdict>)
    requires forall s :: closest(s) in AllowedSentiments
    ensures |r| == |comments|
    ensures forall i :: 0 <= i < |r| ==> r[i].sentiment in AllowedSentiments
    ensures forall i :: 0 <= i < |r| && MentionsCompetitor(comments[i]) ==> r[i].sentiment == CompetitorLabel
    ensures forall i :: 0 <= i < |r| && Bland(comments[i]) ==> r[i].sentiment != "Positive" && r[i].sentiment != "Negative"
    ensures forall i :: |parsed| <= i < |r| ==> r[i].topic == "Unknown"
    ensures forall i :: 0 <= i < |r| && i < |parsed| ==> r[i].topic == parsed[i].topic
  {
    var padded := Padded(parsed, |comments|);
    seq(|comments|, i requires 0 <= i < |comments| => PostProcess(padded[i], comments[i], closest))
  }

  /** The batch as written: pad, then correct each verdict in place, in
      order.  A surplus verdict makes it throw. */
  method AnalyzeSentimentsBatch(comments: seq<string>, parsed: seq<Verdict>, closest: string -> string)
    returns (r: Option<seq<Verdict>>)
    requires forall s :: closest(s) in AllowedSentiments
    ensures r == BatchAsWritten(comments, parsed, closest)
  {
    if comments == [] {
      return Some([]);
    }
    var results := parsed;
    while |results| < |comments|
      invariant |results| >= |parsed| && (|results| == |parsed| || |results| <= |comments|)
      invariant results[..|parsed|] == parsed
      invariant forall j :: |parsed| <= j < |results| ==> results[j] == Fallback
      decreases |comments| - |results|
    {
      results := results + [Fallback];
    }
    ghost var padded := Padded(parsed, |comments|);
    assert results == padded;
    var i := 0;
    while i < |results|
      invariant 0 <= i <= |comments| && |results| == |padded| >= |comments|
      invariant forall j :: 0 <= j < i ==> results[j] == PostProcess(padded[j], comments[j], closest)
      invariant forall j :: i <= j < |results| ==> results[j] == padded[j]
    {
      if i >= |comments| {
        // comments[i] is undefined: `toLowerCase` throws a TypeError
        return None;
      }
      results := results[i := PostProcess(results[i], comments[i], closest)];
      i := i + 1;
    }
    assert results == Batch(comments, parsed, closest);
    return Some(results);
  }

  /** Empty input gives an empty batch, a reply with at most one verdict per
      comment gives the corrected batch, and a surplus verdict fails the
      whole call. */
  lemma BatchAsWrittenCases(comments: seq<string>, parsed: seq<Verdict>, closest: string -> string)
    requires forall s :: closest(s) in AllowedSentiments
    ensures comments == [] ==> BatchAsWritten(comments, parsed, closest) == Some([])
    ensures comments != [] && |parsed| <= |comments| ==> BatchAsWritten(comments, parsed, closest) == Some(Batch(comments, parsed, closest))
    ensures comments != [] && |parsed| > |comments| ==> BatchAsWritten(comments, parsed, closest).None?
  {
  }

  /** One comment and a reply with two verdicts: the call throws instead of
      returning the first verdict. */
  lemma SurplusVerdictThrows(closest: string -> string)
    requires forall s :: closest(s) in AllowedSentiments
    ensures BatchAsWritten(["10/10 !!!!"], [Verdict("Positive", "Course Rating"), Fallback], closest).None?
    ensures Batch(["10/10 !!!!"], [Verdict("Positive", "Course Rating"), Fallback], closest) ==
            [Verdict("Positive", "Course Rating")]
  {
    var c := "10/10 !!!!";
    PlainComment();
    var v := Verdict("Positive", "Course Rating");
    assert PostProcess(v, c, closest) == v;
    assert Batch([c], [v, Fallback], closest)[0] == v;
  }

  lemma PlainComment()
    ensures !MentionsCompetitor("10/10 !!!!") && !Bland("10/10 !!!!")
  {
    var c := "10/10 !!!!";
    assert forall j :: 0 <= j < |c| ==> !IsLetter(c[j]);
    NoLetterNoCompetitor(c);
    TrimOfTrimmed(c);
    assert forall w :: w in GenericWords ==> |w| < 10;
  }

  predicate IsLetter(ch: char) {
    'A' <= ch <= 'Z' || 'a' <= ch <= 'z'
  }

  /** Every competitor name starts with a letter, so a comment without
      letters mentions none of them. */
  lemma NoLetterNoCompetitor(c: string)
    requires forall j :: 0 <= j < |c| ==> !IsLetter(c[j])
    ensures !MentionsCompetitor(c)
  {
    var low := ToLower(c);
    assert forall j :: 0 <= j < |low| ==> !IsLetter(low[j]);
    forall k | 0 <= k < |CompetitorNames|
      ensures !Contains(low, ToLower(CompetitorNames[k]))
    {
      var name := ToLower(CompetitorNames[k]);
      assert IsLetter(CompetitorNames[k][0]);
      assert IsLetter(name[0]);
      NotContainsByChar(low, name, 0);
    }
  }

  // ----------------------------------------------------------------- news

  /** A news item read from the Google News feed. */
  datatype Article = Article(title: string, link: string)

  /** An article as returned after the (disabled) validation step. */
  datatype CheckedArticle = CheckedArticle(article: Article, relevance: string, matchScore: real, isValid: bool)

  /** The news lookup result: every fetched article, the ones kept as
      validated, a summary line and the first validated article. */
  datatype NewsCheck = NewsCheck(articles: seq<Article>, validatedArticles: seq<CheckedArticle>,
                                 summary: string, topMatch: Option<CheckedArticle>)

  const MaxFetched := 5
  const MaxValidated := 3
  const DefaultMatchScore: real := 0.5

  /** `fetchGoogleNews`: the first five items of the feed; `None` (a failed
      request, a non-200 status or a feed without items) gives no article. */
  function FetchGoogleNews(feed: Option<seq<Article>>): (r: seq<Article>)
    ensures |r| <= MaxFetched
    ensures feed.Some? ==> |r| <= |feed.value| && r == feed.value[..|r|] && (|r| < MaxFetched ==> r == feed.value)
    ensures feed.None? ==> r == []
  {
    match feed
    case None => []
    case Some(items) => if |items| <= MaxFetched then items else items[..MaxFetched]
  }

  /** Marks an article as validated with the default score. */
  function Unchecked(a: Article): CheckedArticle {
    CheckedArticle(a, "Unknown", DefaultMatchScore, true)
  }

  /** `fetchAndValidateNewsWithGrok` with the validation switched off. */
  function FetchAndValidateNews(feed: Option<seq<Article>>): (r: NewsCheck)
    ensures |r.articles| <= MaxFetched && r.articles == FetchGoogleNews(feed)
    ensures |r.validatedArticles| == if |r.articles| < MaxValidated then |r.articles| else MaxValidated
    ensures forall i :: 0 <= i < |r.validatedArticles| ==>
              r.validatedArticles[i].article == r.articles[i] &&
              r.validatedArticles[i].matchScore == DefaultMatchScore && r.validatedArticles[i].isValid
    ensures r.articles == [] ==> r.validatedArticles == [] && r.summary == "No news articles found" && r.topMatch.None?
    ensures r.articles != [] ==> r.topMatch == Some(r.validatedArticles[0])
  {
    var articles := FetchGoogleNews(feed);
    if articles == [] then NewsCheck([], [], "No news articles found", None)
    else
      var kept := if |articles| <= MaxValidated then articles else articles[..MaxValidated];
      var checked := seq(|kept|, i requires 0 <= i < |kept| => Unchecked(kept[i]));
      NewsCheck(articles, checked,
                "Found " + NatToString(|articles|) + " articles (Grok validation disabled)",
                Some(checked[0]))
  }
}
