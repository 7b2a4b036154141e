/** The reply handling of src/services/grokService.js: each analysis reads
    labelled fields out of the model's reply with case-insensitive regular
    expressions and fills every missing field with a fixed default; a
    failed request gives a fixed error record.  The retrying request itself
    is in the Retry module; here the answer is an input (`None`: the request
    threw). */
module Grok {
  import opened Wrappers
  import opened JsText
  import G = Gemini

  // ------------------------------------------------------------ reading fields

  /** The tag occurs at `i`, compared as the `i` flag of a regular expression
      does for an ASCII tag: up to ASCII case. */
  predicate TagAt(reply: string, i: nat, tag: string) {
    i + |tag| <= |reply| && ToUpper(reply[i..i + |tag|]) == ToUpper(tag)
  }

  /** `\s*(.+)` matched right after a tag, and the capture trimmed.  The
      greedy `\s*` gives back whitespace until `.+` can take a character
      that is not a line terminator; there is no match when the rest holds
      nothing but line terminators. */
  function LineCapture(rest: string): (r: Option<string>)
    ensures r.Some? ==> JsTrimmed(r.value) && NoLineTerminator(r.value)
    ensures r.None? <==> forall k :: 0 <= k < |rest| ==> IsLineTerminator(rest[k])
  {
    var w := TrimStart(rest);
    if w != [] then
      var h := G.LineHead(w);
      TrimIsBothEnds(h);
      G.NoLineTerminatorSlice(h, |h| - |TrimStart(h)|, |h|);
      G.NoLineTerminatorSlice(TrimStart(h), 0, |TrimEnd(TrimStart(h))|);
      assert rest[|rest| - |w|] == w[0];
      Some(Trim(h))
    else if exists k :: 0 <= k < |rest| && !IsLineTerminator(rest[k]) then Some([])
    else None
  }

  /** The leading decimal digits of `s`. */
  function DigitRun(s: string): (r: string)
    ensures |r| <= |s| && r == s[..|r|]
    ensures forall i :: 0 <= i < |r| ==> IsDigit(r[i])
    ensures |r| == |s| || !IsDigit(s[|r|])
  {
    if s == [] || !IsDigit(s[0]) then []
    else
      var t := DigitRun(s[1..]);
      assert s[..|t| + 1] == [s[0]] + s[1..][..|t|];
      [s[0]] + t
  }

  /** `\s*(\d+)` matched right after a tag, and the capture read by
      `parseInt`; no match unless the first character after the whitespace
      is a digit. */
  function ScoreCapture(rest: string): (r: Option<nat>)
    ensures r.None? <==> TrimStart(rest) == [] || !IsDigit(TrimStart(rest)[0])
  {
    var w := TrimStart(rest);
    if w != [] && IsDigit(w[0]) then Some(DigitsValue(DigitRun(w))) else None
  }

  /** `reply.match(/<tag><capture>/i)`: the capture at the leftmost
      position from `i` on where the tag occurs and the rest of the pattern
      matches. */
  function Scan<T>(reply: string, tag: string, capture: string -> Option<T>, i: nat): (r: Option<T>)
    ensures r.Some? ==> exists k: nat :: i <= k && TagAt(reply, k, tag) && capture(reply[k + |tag|..]) == r
    ensures r.None? <==> forall k: nat :: i <= k && TagAt(reply, k, tag) ==> capture(reply[k + |tag|..]).None?
    decreases |reply| - i
  {
    if i + |tag| > |reply| then None
    else if TagAt(reply, i, tag) && capture(reply[i + |tag|..]).Some? then capture(reply[i + |tag|..])
    else Scan(reply, tag, capture, i + 1)
  }

  /** The leftmost occurrence that matches decides the result. */
  lemma {:induction false} ScanAt<T>(reply: string, tag: string, capture: string -> Option<T>, i: nat, k: nat)
    requires i <= k && TagAt(reply, k, tag) && capture(reply[k + |tag|..]).Some?
    requires forall j :: i <= j < k ==> !(TagAt(reply, j, tag) && capture(reply[j + |tag|..]).Some?)
    ensures Scan(reply, tag, capture, i) == capture(reply[k + |tag|..])
    decreases k - i
  {
    if i < k {
      ScanAt(reply, tag, capture, i + 1, k);
    }
  }

  /** A text field: the trimmed rest of the line after the tag, at the
      first occurrence of the tag with something other than line
      terminators after it. */
  function Field(reply: string, tag: string): (r: Option<string>)
    ensures r.Some? ==> JsTrimmed(r.value) && NoLineTerminator(r.value)
    ensures r.None? <==> forall k: nat :: TagAt(reply, k, tag) ==> LineCapture(reply[k + |tag|..]).None?
  {
    Scan(reply, tag, LineCapture, 0)
  }

  /** A line `<tag> value` read back: whatever the tag's letter case, and
      whatever follows the line, provided the tag does not occur earlier. */
  lemma FieldReadsBack(pre: string, t: string, v: string, rest: string, tag: string)
    requires ToUpper(t) == ToUpper(tag)
    requires v != [] && JsTrimmed(v) && NoLineTerminator(v)
    requires rest != [] && IsLineTerminator(rest[0])
    requires forall j :: 0 <= j < |pre| ==> !TagAt(pre + t + (" " + (v + rest)), j, tag)
    ensures Field(pre + t + (" " + (v + rest)), tag) == Some(v)
  {
    var reply := pre + t + (" " + (v + rest));
    assert reply[|pre|..|pre| + |tag|] == t;
    assert reply[|pre| + |tag|..] == " " + (v + rest);
    G.TrimSpacePrefixStart(" ", v + rest);
    G.LineHeadOf(v, rest);
    TrimOfTrimmed(v);
    ScanAt(reply, tag, LineCapture, 0, |pre|);
  }

  lemma {:induction false} DigitRunOf(d: string, rest: string)
    requires forall i :: 0 <= i < |d| ==> IsDigit(d[i])
    requires rest == [] || !IsDigit(rest[0])
    ensures DigitRun(d + rest) == d
    decreases |d|
  {
    if d == [] {
      assert d + rest == rest;
    } else {
      assert (d + rest)[1..] == d[1..] + rest;
      DigitRunOf(d[1..], rest);
    }
  }

  const MatchScoreTag := "**Match Score**:"

  /** The match score of a reply, if it states one. */
  function Score(reply: string): (r: Option<nat>)
    ensures r.None? <==> forall k: nat :: TagAt(reply, k, MatchScoreTag) ==> ScoreCapture(reply[k + |MatchScoreTag|..]).None?
  {
    Scan(reply, MatchScoreTag, ScoreCapture, 0)
  }

  /** A score written in decimal after the tag reads back as that number. */
  lemma ScoreReadsBack(pre: string, t: string, n: nat, rest: string)
    requires ToUpper(t) == ToUpper(MatchScoreTag)
    requires rest == [] || !IsDigit(rest[0])
    requires forall j :: 0 <= j < |pre| ==> !TagAt(pre + t + (" " + (NatToString(n) + rest)), j, MatchScoreTag)
    ensures Score(pre + t + (" " + (NatToString(n) + rest))) == Some(n)
  {
    var reply := pre + t + (" " + (NatToString(n) + rest));
    assert reply[|pre|..|pre| + |MatchScoreTag|] == t;
    assert TagAt(reply, |pre|, MatchScoreTag);
    assert reply[|pre| + |MatchScoreTag|..] == " " + (NatToString(n) + rest);
    ScoreCaptureOf(n, rest);
    ScanAt(reply, MatchScoreTag, ScoreCapture, 0, |pre|);
  }

  /** The capture after the tag reads the written number back. */
  lemma ScoreCaptureOf(n: nat, rest: string)
    requires rest == [] || !IsDigit(rest[0])
    ensures ScoreCapture(" " + (NatToString(n) + rest)) == Some(n)
  {
    var d := NatToString(n);
    G.TrimSpacePrefixStart(" ", d + rest);
    DigitRunOf(d, rest);
  }

  /** What a text field holds once read: a trimmed single line, or the default. */
  predicate TextOr(r: string, otherwise: string) {
    r == otherwise || (JsTrimmed(r) && NoLineTerminator(r))
  }

  /** A text field, or `otherwise` when the reply does not state it. */
  function FieldOr(reply: string, tag: string, otherwise: string): (r: string)
    ensures TextOr(r, otherwise)
    ensures (forall k: nat :: !TagAt(reply, k, tag)) ==> r == otherwise
  {
    Field(reply, tag).GetOr(otherwise)
  }

  /** A first line `<tag> value` is read back whatever follows it. */
  lemma FieldOrReadsBack(t: string, v: string, rest: string, tag: string, otherwise: string)
    requires ToUpper(t) == ToUpper(tag)
    requires v != [] && JsTrimmed(v) && NoLineTerminator(v)
    requires rest != [] && IsLineTerminator(rest[0])
    ensures FieldOr(t + (" " + (v + rest)), tag, otherwise) == v
  {
    assert [] + t + (" " + (v + rest)) == t + (" " + (v + rest));
    FieldReadsBack([], t, v, rest, tag);
  }

  // ----------------------------------------------------------- the analyses

  /** The result of `analyzeSentiment`. */
  datatype SentimentReport = SentimentReport(sentiment: string, topic: string, confidence: string,
                                             reasoning: string, analysis: Option<string>)

  /** `analyzeSentiment`: each field as the reply states it, else its
      default; a failed request gives a low-confidence record without a
      reply. */
  function AnalyzeSentiment(answer: Option<string>): (r: SentimentReport)
    ensures r.analysis == answer
    ensures answer.None? ==> r == SentimentReport("NEUTRAL", "Unknown", "Low", "Error in analysis", None)
    ensures answer.Some? ==> TextOr(r.sentiment, "NEUTRAL") && TextOr(r.topic, "Unknown") &&
                             TextOr(r.confidence, "Medium") && TextOr(r.reasoning, "No reasoning provided")
  {
    match answer
    case None => SentimentReport("NEUTRAL", "Unknown", "Low", "Error in analysis", None)
    case Some(reply) =>
      SentimentReport(FieldOr(reply, "**Sentiment**:", "NEUTRAL"), FieldOr(reply, "**Topic**:", "Unknown"),
                      FieldOr(reply, "**Confidence**:", "Medium"),
                      FieldOr(reply, "**Reasoning**:", "No reasoning provided"), answer)
  }

  /** A reply that states none of the fields gives every default, with the
      reply kept as the analysis. */
  lemma SentimentDefaults(reply: string)
    requires forall k: nat :: !TagAt(reply, k, "**Sentiment**:") && !TagAt(reply, k, "**Topic**:")
    requires forall k: nat :: !TagAt(reply, k, "**Confidence**:") && !TagAt(reply, k, "**Reasoning**:")
    ensures AnalyzeSentiment(Some(reply)) ==
      SentimentReport("NEUTRAL", "Unknown", "Medium", "No reasoning provided", Some(reply))
  {
  }

  /** A reply opening with a sentiment line gives that sentiment. */
  lemma SentimentReadsBack(t: string, v: string, rest: string)
    requires ToUpper(t) == ToUpper("**Sentiment**:")
    requires v != [] && JsTrimmed(v) && NoLineTerminator(v)
    requires rest != [] && IsLineTerminator(rest[0])
    ensures AnalyzeSentiment(Some(t + (" " + (v + rest)))).sentiment == v
  {
    FieldOrReadsBack(t, v, rest, "**Sentiment**:", "NEUTRAL");
  }

  /** The result of `validateNews`. */
  datatype NewsReport = NewsReport(relevance: string, matchScore: nat, keyConnections: string,
                                   validation: string, reasoning: string, analysis: Option<string>)

  /** `validateNews`: the score is the integer after the score tag, or 0. */
  function ValidateNews(answer: Option<string>): (r: NewsReport)
    ensures r.analysis == answer
    ensures answer.None? ==> r == NewsReport("Uncertain", 0, "Error in analysis", "Uncertain", "Error in validation", None)
    ensures answer.Some? ==> TextOr(r.relevance, "Uncertain") && TextOr(r.keyConnections, "No connections found") &&
                             TextOr(r.validation, "Uncertain") && TextOr(r.reasoning, "No reasoning provided")
    ensures answer.Some? && (forall k: nat :: !TagAt(answer.value, k, MatchScoreTag)) ==> r.matchScore == 0
  {
    match answer
    case None => NewsReport("Uncertain", 0, "Error in analysis", "Uncertain", "Error in validation", None)
    case Some(reply) =>
      NewsReport(FieldOr(reply, "**Relevance**:", "Uncertain"), Score(reply).GetOr(0),
                 FieldOr(reply, "**Key Connections**:", "No connections found"),
                 FieldOr(reply, "**Validation**:", "Uncertain"),
                 FieldOr(reply, "**Reasoning**:", "No reasoning provided"), answer)
  }

  /** A reply opening with a score line gives that score. */
  lemma MatchScoreReadsBack(t: string, n: nat, rest: string)
    requires ToUpper(t) == ToUpper(MatchScoreTag)
    requires rest == [] || !IsDigit(rest[0])
    ensures ValidateNews(Some(t + (" " + (NatToString(n) + rest)))).matchScore == n
  {
    assert [] + t + (" " + (NatToString(n) + rest)) == t + (" " + (NatToString(n) + rest));
    ScoreReadsBack([], t, n, rest);
  }

  /** The result of `crossValidateWithGemini`. */
  datatype CrossCheck = CrossCheck(consensus: string, finalSentiment: string, finalTopic: string,
                                   confidenceLevel: string, disagreementAreas: string,
                                   recommendation: string, crossValidation: Option<string>)

  /** `crossValidateWithGemini`: the final sentiment and topic are the
      reply's, or Gemini's when the reply does not state them or the
      request fails. */
  function CrossValidate(gemini: G.Verdict, answer: Option<string>): (r: CrossCheck)
    ensures r.crossValidation == answer
    ensures answer.None? ==> r.finalSentiment == gemini.sentiment && r.finalTopic == gemini.topic &&
                             r.consensus == "Partial" && r.recommendation == "Use Gemini analysis"
    ensures answer.Some? ==> TextOr(r.finalSentiment, gemini.sentiment) && TextOr(r.finalTopic, gemini.topic)
  {
    match answer
    case None =>
      CrossCheck("Partial", gemini.sentiment, gemini.topic, "Medium", "Error in cross-validation", "Use Gemini analysis", None)
    case Some(reply) =>
      CrossCheck(FieldOr(reply, "**Consensus**:", "Partial"),
                 FieldOr(reply, "**Final Sentiment**:", gemini.sentiment),
                 FieldOr(reply, "**Final Topic**:", gemini.topic),
                 FieldOr(reply, "**Confidence Level**:", "Medium"),
                 FieldOr(reply, "**Disagreement Areas**:", "None identified"),
                 FieldOr(reply, "**Recommendation**:", "Use Gemini analysis"), answer)
  }

  /** A reply that states neither final field leaves Gemini's verdict. */
  lemma GeminiVerdictKept(gemini: G.Verdict, reply: string)
    requires forall k: nat :: !TagAt(reply, k, "**Final Sentiment**:") && !TagAt(reply, k, "**Final Topic**:")
    ensures CrossValidate(gemini, Some(reply)).finalSentiment == gemini.sentiment
    ensures CrossValidate(gemini, Some(reply)).finalTopic == gemini.topic
  {
  }

  /** A reply opening with a final-topic line overrides Gemini's topic. */
  lemma FinalTopicReadsBack(gemini: G.Verdict, t: string, v: string, rest: string)
    requires ToUpper(t) == ToUpper("**Final Topic**:")
    requires v != [] && JsTrimmed(v) && NoLineTerminator(v)
    requires rest != [] && IsLineTerminator(rest[0])
    ensures CrossValidate(gemini, Some(t + (" " + (v + rest)))).finalTopic == v
  {
    FieldOrReadsBack(t, v, rest, "**Final Topic**:", gemini.topic);
  }

  /** The media attached to a tweet, as `analyzeMediaContent` reads it. */
  datatype MediaImage = MediaImage(alt: Option<string>)
  datatype MediaVideo = MediaVideo(kind: string)
  datatype MediaItems = MediaItems(images: seq<MediaImage>, videos: seq<MediaVideo>)

  /** The result of `analyzeMediaContent`; fields a record lacks are `None`. */
  datatype MediaReport = MediaReport(mediaAnalysis: Option<string>, mediaRelevance: string,
                                     mediaContentType: Option<string>, mediaRelationship: Option<string>,
                                     mediaDescription: Option<string>, confidence: string)

  predicate NoMedia(media: Option<MediaItems>) {
    media.None? || (media.value.images == [] && media.value.videos == [])
  }

  const NoMediaReport := MediaReport(None, "no_media", None, None, None, "N/A")

  /** `analyzeMediaContent`.  `ask(text, media)` is the answer to the
      request about that tweet and its media (`None`: the request threw). */
  function AnalyzeMediaContent(tweetText: string, media: Option<MediaItems>,
                               ask: (string, MediaItems) -> Option<string>): (r: MediaReport)
    ensures NoMedia(media) ==> r == NoMediaReport
    ensures !NoMedia(media) ==> r.mediaAnalysis == ask(tweetText, media.value) && r.mediaDescription.Some?
    ensures !NoMedia(media) && ask(tweetText, media.value).None? ==> r.mediaRelevance == "error" && r.confidence == "Low"
  {
    if NoMedia(media) then NoMediaReport
    else
      match ask(tweetText, media.value)
      case None => MediaReport(None, "error", None, None, Some("Error analyzing media content"), "Low")
      case Some(reply) =>
        MediaReport(Some(reply), FieldOr(reply, "**Relevance**:", "unknown"),
                    Some(FieldOr(reply, "**Content Type**:", "unknown")),
                    Some(FieldOr(reply, "**Relationship**:", "unknown")),
                    Some(FieldOr(reply, "**Description**:", "No description available")),
                    FieldOr(reply, "**Confidence**:", "Medium"))
  }

  /** Without media no request is made: the answer cannot matter. */
  lemma NoMediaNoRequest(tweetText: string, media: Option<MediaItems>,
                         ask1: (string, MediaItems) -> Option<string>, ask2: (string, MediaItems) -> Option<string>)
    requires NoMedia(media)
    ensures AnalyzeMediaContent(tweetText, media, ask1) == AnalyzeMediaContent(tweetText, media, ask2)
  {
  }
}
